/**
 * Cleaning of one received line: every control character (U+0000 to U+001F,
 * which includes '\r' and '\n', and U+007F) is deleted, then the result is
 * trimmed the way Java's String.trim does it.
 */
module Cleaning {

  /** The characters the cleaning pattern deletes. */
  predicate IsControl(c: char) {
    c as int < 0x20 || c as int == 0x7F
  }

  predicate ControlFree(s: string) {
    forall i :: 0 <= i < |s| ==> !IsControl(s[i])
  }

  /** Java's trim() removes every leading and trailing character at or below U+0020. */
  predicate IsTrimmable(c: char) {
    c <= ' '
  }

  /** `s` with its control characters deleted and every other character kept, in order. */
  function StripControls(s: string): (r: string)
    ensures ControlFree(r)
    ensures forall c :: c in r <==> c in s && !IsControl(c)
    ensures ControlFree(s) ==> r == s
    ensures |s| == 1 ==> r == (if IsControl(s[0]) then [] else s)
    ensures |r| <= |s|
  {
    if s == [] then []
    else
      var tail := StripControls(s[1..]);
      if IsControl(s[0]) then tail
      else
        assert s == [s[0]] + s[1..];
        [s[0]] + tail
  }

  /** Deleting control characters works piece by piece: the order of what survives is kept. */
  lemma {:induction false} StripControlsConcat(a: string, b: string)
    ensures StripControls(a + b) == StripControls(a) + StripControls(b)
    decreases |a|
  {
    if a == [] {
      assert a + b == b;
    } else {
      assert (a + b)[0] == a[0] && (a + b)[1..] == a[1..] + b;
      StripControlsConcat(a[1..], b);
    }
  }

  /** `s` without its leading trimmable characters. */
  function TrimStart(s: string): (r: string)
    ensures |r| <= |s| && r == s[|s| - |r|..]
    ensures forall i :: 0 <= i < |s| - |r| ==> IsTrimmable(s[i])
    ensures r == [] || !IsTrimmable(r[0])
  {
    if s != [] && IsTrimmable(s[0]) then TrimStart(s[1..]) else s
  }

  /** `s` without its trailing trimmable characters. */
  function TrimEnd(s: string): (r: string)
    ensures |r| <= |s| && r == s[..|r|]
    ensures forall i :: |r| <= i < |s| ==> IsTrimmable(s[i])
    ensures r == [] || !IsTrimmable(r[|r| - 1])
  {
    if s != [] && IsTrimmable(s[|s| - 1]) then TrimEnd(s[..|s| - 1]) else s
  }

  /** `r` is the infix of `s` starting at `lo`, with only trimmable characters on either side of it. */
  predicate TrimmedWithin(s: string, lo: int, r: string) {
    && 0 <= lo && lo + |r| <= |s| && r == s[lo..lo + |r|]
    && (forall i :: 0 <= i < lo ==> IsTrimmable(s[i]))
    && (forall i :: lo + |r| <= i < |s| ==> IsTrimmable(s[i]))
  }

  /** Java's String.trim: the start is skipped first, then the end is cut back. */
  function Trim(s: string): (r: string)
    ensures r == [] || (!IsTrimmable(r[0]) && !IsTrimmable(r[|r| - 1]))
    ensures TrimmedWithin(s, |s| - |TrimStart(s)|, r)
  {
    var front := TrimStart(s);
    TrimEndWithin(s, |s| - |front|, TrimEnd(front));
    TrimEnd(front)
  }

  /** Cutting back the end of the suffix `s[lo..]` leaves an infix of `s` with trimmable characters around it. */
  lemma TrimEndWithin(s: string, lo: nat, r: string)
    requires lo <= |s| && forall i :: 0 <= i < lo ==> IsTrimmable(s[i])
    requires |r| <= |s| - lo && r == s[lo..][..|r|]
    requires forall i :: |r| <= i < |s| - lo ==> IsTrimmable(s[lo..][i])
    ensures TrimmedWithin(s, lo, r)
  {
    assert r == s[lo..lo + |r|];
    forall i | lo + |r| <= i < |s| ensures IsTrimmable(s[i]) {
      assert s[i] == s[lo..][i - lo];
    }
  }

  /** Neither end of `s` is a space. */
  predicate NoOuterSpace(s: string) {
    s == [] || (s[0] != ' ' && s[|s| - 1] != ' ')
  }

  /** `r` is `s[lo..]` cut back at its end, with only spaces cut off on either side. */
  predicate SpacesAround(s: string, lo: int, r: string) {
    && 0 <= lo && lo + |r| <= |s| && r == s[lo..lo + |r|]
    && (forall i :: 0 <= i < lo ==> s[i] == ' ')
    && (forall i :: lo + |r| <= i < |s| ==> s[i] == ' ')
  }

  /** The cleaning of line 326: control characters deleted, then trimmed. */
  function Clean(line: string): (r: string)
    ensures ControlFree(r) && NoOuterSpace(r)
    ensures '\n' !in r && '\r' !in r
    ensures forall c :: c in r ==> c in line
    // what is left is the control-free line with only spaces cut from its two ends
    ensures SpacesAround(StripControls(line), |StripControls(line)| - |TrimStart(StripControls(line))|, r)
    ensures ControlFree(line) && NoOuterSpace(line) ==> r == line
  {
    CleanSpec(line);
    Trim(StripControls(line))
  }

  /** The facts Clean promises, proved about its body. */
  lemma CleanSpec(line: string)
    ensures var r := Trim(StripControls(line));
            && ControlFree(r) && NoOuterSpace(r)
            && '\n' !in r && '\r' !in r
            && (forall c :: c in r ==> c in line)
    ensures var stripped := StripControls(line);
            SpacesAround(stripped, |stripped| - |TrimStart(stripped)|, Trim(stripped))
    ensures ControlFree(line) && NoOuterSpace(line) ==> Trim(StripControls(line)) == line
  {
    var stripped := StripControls(line);
    var lo := |stripped| - |TrimStart(stripped)|;
    var r := Trim(stripped);
    InfixOf(stripped, lo, r);
    assert '\n' !in r && '\r' !in r by {
      assert IsControl('\n') && IsControl('\r');
    }
    OnlySpacesTrimmed(stripped, lo, r);
    CleanLineUnchanged(line);
  }

  /** A control-free line without outer spaces passes the filter and trim() unchanged. */
  lemma CleanLineUnchanged(line: string)
    ensures ControlFree(line) && NoOuterSpace(line) ==> Trim(StripControls(line)) == line
  {
    if ControlFree(line) && NoOuterSpace(line) {
      if line != [] {
        NotControlNotSpace(line[0]);
        NotControlNotSpace(line[|line| - 1]);
      }
      TrimFixed(line);
    }
  }

  lemma NotControlNotSpace(c: char)
    requires !IsControl(c) && c != ' '
    ensures !IsTrimmable(c)
  {
  }

  /** trim() leaves a text alone when neither end is trimmable. */
  lemma TrimFixed(s: string)
    requires s == [] || (!IsTrimmable(s[0]) && !IsTrimmable(s[|s| - 1]))
    ensures Trim(s) == s
  {
    assert TrimStart(s) == s;
    assert TrimEnd(s) == s;
  }

  /** In a control-free text, the only characters trim() can remove are spaces. */
  lemma OnlySpacesTrimmed(s: string, lo: int, r: string)
    requires ControlFree(s) && TrimmedWithin(s, lo, r)
    ensures SpacesAround(s, lo, r)
  {
  }

  /** A contiguous part of a text holds only characters of that text. */
  lemma InfixOf(s: string, lo: nat, r: string)
    requires lo + |r| <= |s| && r == s[lo..lo + |r|]
    ensures ControlFree(s) ==> ControlFree(r)
    ensures forall c :: c in r ==> c in s
  {
    forall i | 0 <= i < |r| ensures r[i] == s[lo + i] {
    }
  }

  /** Cleaning a line that is already clean changes nothing. */
  lemma CleanIdempotent(line: string)
    ensures Clean(Clean(line)) == Clean(line)
  {
    // Clean's own contract carries this: a cleaned line is control-free and
    // has no outer space, and such a line comes back unchanged.
  }
}
