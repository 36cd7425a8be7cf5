/**
 * Classification of one cleaned line into the text appended to the data
 * list.  A line "E<rest>" becomes "ECG: <rest>" when <rest> is accepted as a
 * float and "Invalid ECG: <line>" otherwise; "P<rest>" is handled the same
 * way with PPG; every other line (a bare "E" or "P" included) gives nothing.
 *
 * Acceptance by Java's Float.parseFloat is the parameter `isFloat`: every
 * statement below holds for whatever set of texts that parser accepts.
 */
module Readings {
  import opened Wrappers
  import opened Cleaning
  import opened Framing

  const ECG_PREFIX := "ECG: "
  const PPG_PREFIX := "PPG: "
  const INVALID_ECG_PREFIX := "Invalid ECG: "
  const INVALID_PPG_PREFIX := "Invalid PPG: "

  /** An entry whose value was accepted as a number. */
  predicate IsValidEntry(entry: string) {
    ECG_PREFIX <= entry || PPG_PREFIX <= entry
  }

  /** Reads back, from a data-list entry, the cleaned line it was made from. */
  function LineOf(entry: string): Option<string> {
    if ECG_PREFIX <= entry && |entry| > |ECG_PREFIX| then Some("E" + entry[|ECG_PREFIX|..])
    else if PPG_PREFIX <= entry && |entry| > |PPG_PREFIX| then Some("P" + entry[|PPG_PREFIX|..])
    else if INVALID_ECG_PREFIX <= entry then Some(entry[|INVALID_ECG_PREFIX|..])
    else if INVALID_PPG_PREFIX <= entry then Some(entry[|INVALID_PPG_PREFIX|..])
    else None
  }

  /**
   * The entry a cleaned, non-empty line appends (lines 334-350).  Exactly the
   * lines of two or more characters starting with 'E' or 'P' give an entry; the
   * entry is valid exactly when the text after the tag is a float, and the
   * line can be read back from it.
   */
  function Classify(msg: string, isFloat: string -> bool): (r: Option<string>)
    ensures r.Some? <==> |msg| > 1 && (msg[0] == 'E' || msg[0] == 'P')
    ensures r.Some? ==> (IsValidEntry(r.value) <==> isFloat(msg[1..]))
    ensures r.Some? ==> LineOf(r.value) == Some(msg)
    ensures r.Some? && msg[0] == 'E' ==> ECG_PREFIX <= r.value || INVALID_ECG_PREFIX <= r.value
    ensures r.Some? && msg[0] == 'P' ==> PPG_PREFIX <= r.value || INVALID_PPG_PREFIX <= r.value
  {
    if |msg| > 1 && msg[0] == 'E' then
      var value := msg[1..];
      var entry := if isFloat(value) then ECG_PREFIX + value else INVALID_ECG_PREFIX + msg;
      ReadsBack(msg, isFloat(value), ECG_PREFIX, INVALID_ECG_PREFIX);
      Some(entry)
    else if |msg| > 1 && msg[0] == 'P' then
      var value := msg[1..];
      var entry := if isFloat(value) then PPG_PREFIX + value else INVALID_PPG_PREFIX + msg;
      ReadsBack(msg, isFloat(value), PPG_PREFIX, INVALID_PPG_PREFIX);
      Some(entry)
    else
      None
  }

  /** The entry built for a tagged line names the line's kind and gives the line back. */
  lemma ReadsBack(msg: string, valid: bool, prefix: string, invalidPrefix: string)
    requires |msg| > 1
    requires msg[0] == 'E' ==> prefix == ECG_PREFIX && invalidPrefix == INVALID_ECG_PREFIX
    requires msg[0] == 'P' ==> prefix == PPG_PREFIX && invalidPrefix == INVALID_PPG_PREFIX
    requires msg[0] == 'E' || msg[0] == 'P'
    ensures var entry := if valid then prefix + msg[1..] else invalidPrefix + msg;
            && (IsValidEntry(entry) <==> valid)
            && LineOf(entry) == Some(msg)
            && (prefix <= entry || invalidPrefix <= entry)
  {
    var entry := if valid then prefix + msg[1..] else invalidPrefix + msg;
    if valid {
      assert entry[..|prefix|] == prefix && entry[|prefix|..] == msg[1..];
      assert msg == [msg[0]] + msg[1..];
    } else {
      assert entry[..|invalidPrefix|] == invalidPrefix && entry[|invalidPrefix|..] == msg;
      assert entry[0] == 'I' && entry[8] == msg[0];
    }
  }

  /** What one raw line adds to the data list: cleaned, skipped when empty, then classified. */
  function EntryOf(raw: string, isFloat: string -> bool): (r: seq<string>)
    ensures |r| <= 1
    ensures Clean(raw) == [] ==> r == []
    ensures r != [] <==> |Clean(raw)| > 1 && (Clean(raw)[0] == 'E' || Clean(raw)[0] == 'P')
    ensures r != [] ==> (IsValidEntry(r[0]) <==> isFloat(Clean(raw)[1..]))
    ensures r != [] ==> LineOf(r[0]) == Some(Clean(raw))
    ensures r != [] && Clean(raw)[0] == 'E' ==> ECG_PREFIX <= r[0] || INVALID_ECG_PREFIX <= r[0]
    ensures r != [] && Clean(raw)[0] == 'P' ==> PPG_PREFIX <= r[0] || INVALID_PPG_PREFIX <= r[0]
  {
    var msg := Clean(raw);
    if msg == [] then []
    else
      match Classify(msg, isFloat)
      case None => []
      case Some(entry) => [entry]
  }

  /** What a run of raw lines adds to the data list, in line order. */
  function Entries(lines: seq<string>, isFloat: string -> bool): (r: seq<string>)
    ensures |r| <= |lines|
  {
    if lines == [] then [] else EntryOf(lines[0], isFloat) + Entries(lines[1..], isFloat)
  }

  lemma {:induction false} EntriesConcat(a: seq<string>, b: seq<string>, isFloat: string -> bool)
    ensures Entries(a + b, isFloat) == Entries(a, isFloat) + Entries(b, isFloat)
    decreases |a|
  {
    if a == [] {
      assert a + b == b;
    } else {
      assert (a + b)[0] == a[0] && (a + b)[1..] == a[1..] + b;
      EntriesConcat(a[1..], b, isFloat);
      Associative(EntryOf(a[0], isFloat), Entries(a[1..], isFloat), Entries(b, isFloat));
    }
  }
}
