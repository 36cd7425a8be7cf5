/**
 * Line framing of the notification stream: a stream of characters is cut at
 * every '\n' into complete lines, and whatever follows the last '\n' is kept
 * back until more data arrives.
 */
module Framing {

  /** Position of the first `c` in `s`, or -1 when there is none (Java's `indexOf`). */
  function IndexOf(s: string, c: char): (r: int)
    ensures r == -1 <==> c !in s
    ensures r != -1 ==> 0 <= r < |s| && s[r] == c && c !in s[..r]
  {
    if |s| == 0 then -1
    else if s[0] == c then 0
    else
      var k := IndexOf(s[1..], c);
      if k == -1 then -1
      else
        assert s[..k + 1] == [s[0]] + s[1..][..k];
        k + 1
  }

  /** No line of `lines` holds a terminator. */
  predicate Unterminated(lines: seq<string>) {
    forall i :: 0 <= i < |lines| ==> '\n' !in lines[i]
  }

  /** The text `lines` occupy on the wire: each line followed by its '\n'. */
  function Join(lines: seq<string>): string {
    if lines == [] then [] else lines[0] + "\n" + Join(lines[1..])
  }

  /** The complete lines found in a text, in order, and the unterminated rest. */
  datatype Frames = Frames(lines: seq<string>, rest: string)

  /**
   * Cuts `s` at its first '\n', again and again, exactly as the decoder loop
   * does with its buffer.  Nothing is lost or reordered: the lines, each with
   * its terminator, followed by the rest, give back `s`.
   */
  function Split(s: string): (f: Frames)
    ensures Join(f.lines) + f.rest == s
    ensures Unterminated(f.lines)
    ensures '\n' !in f.rest
    decreases |s|
  {
    var i := IndexOf(s, '\n');
    if i == -1 then Frames([], s)
    else
      var tail := Split(s[i + 1..]);
      SplitStep(s, i, tail);
      Frames([s[..i]] + tail.lines, tail.rest)
  }

  /** One turn of the cutting loop: the line before the first '\n' joins the lines cut from what follows it. */
  lemma SplitStep(s: string, i: nat, tail: Frames)
    requires i < |s| && s[i] == '\n' && '\n' !in s[..i]
    requires Join(tail.lines) + tail.rest == s[i + 1..]
    requires Unterminated(tail.lines)
    ensures Join([s[..i]] + tail.lines) + tail.rest == s
    ensures Unterminated([s[..i]] + tail.lines)
  {
    var lines := [s[..i]] + tail.lines;
    assert lines[1..] == tail.lines;
    assert s == s[..i] + "\n" + s[i + 1..];
    forall k | 0 <= k < |lines| ensures '\n' !in lines[k] {
      if k > 0 { assert lines[k] == tail.lines[k - 1]; }
    }
  }

  lemma {:induction false} JoinConcat(a: seq<string>, b: seq<string>)
    ensures Join(a + b) == Join(a) + Join(b)
    decreases |a|
  {
    if a == [] {
      assert a + b == b;
    } else {
      assert (a + b)[1..] == a[1..] + b;
      JoinConcat(a[1..], b);
    }
  }

  lemma Associative<T>(x: seq<T>, y: seq<T>, z: seq<T>)
    ensures x + y + z == x + (y + z)
  {
  }

  /**
   * Split is the only way to read a text as complete lines plus an
   * unterminated rest: any such reading is the one Split gives.
   */
  lemma {:induction false} SplitUnique(lines: seq<string>, rest: string)
    requires Unterminated(lines)
    requires '\n' !in rest
    ensures Split(Join(lines) + rest) == Frames(lines, rest)
    decreases |lines|
  {
    var s := Join(lines) + rest;
    if lines == [] {
      assert s == rest;
    } else {
      var head := lines[0];
      var tailText := Join(lines[1..]) + rest;
      assert s == head + "\n" + tailText;
      assert s[..|head|] == head;
      assert s[|head|] == '\n';
      var i := IndexOf(s, '\n');
      assert i == |head|;
      assert s[i + 1..] == tailText;
      assert Unterminated(lines[1..]) by {
        forall k | 0 <= k < |lines[1..]| ensures '\n' !in lines[1..][k] {
          assert lines[1..][k] == lines[k + 1];
        }
      }
      SplitUnique(lines[1..], rest);
      assert lines == [head] + lines[1..];
    }
  }

  /**
   * Chunk boundaries do not matter: feeding `a` to a buffer holding `pending`
   * and then feeding `b` to what is left yields the same lines, in the same
   * order, and the same final rest as feeding `a + b` at once.
   */
  lemma {:induction false} SplitConcat(pending: string, a: string, b: string)
    ensures var first := Split(pending + a);
            var second := Split(first.rest + b);
            Split(pending + a + b) == Frames(first.lines + second.lines, second.rest)
  {
    var first := Split(pending + a);
    var second := Split(first.rest + b);
    var lines := first.lines + second.lines;
    JoinConcat(first.lines, second.lines);
    Associative(Join(first.lines), first.rest, b);
    Associative(Join(first.lines), Join(second.lines), second.rest);
    assert pending + a + b == Join(lines) + second.rest;
    assert Unterminated(first.lines + second.lines) by {
      forall k | 0 <= k < |first.lines + second.lines|
        ensures '\n' !in (first.lines + second.lines)[k]
      {
        if k < |first.lines| {
          assert (first.lines + second.lines)[k] == first.lines[k];
        } else {
          assert (first.lines + second.lines)[k] == second.lines[k - |first.lines|];
        }
      }
    }
    SplitUnique(first.lines + second.lines, second.rest);
  }
}
