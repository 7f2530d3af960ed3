/** Splitting a byte stream into newline-terminated lines, independent of how it was chunked. */
module Lines {
  import opened Common
  import opened Bytes

  const NEWLINE: byte := 10

  /** What follows the last newline. */
  function Tail(s: seq<byte>): seq<byte> {
    if s == [] || s[|s| - 1] == NEWLINE then [] else Tail(s[..|s| - 1]) + [s[|s| - 1]]
  }

  /** The complete lines, each with its newline. */
  function Complete(s: seq<byte>): seq<seq<byte>> {
    if s == [] then []
    else if s[|s| - 1] == NEWLINE then Complete(s[..|s| - 1]) + [Tail(s[..|s| - 1]) + [NEWLINE]]
    else Complete(s[..|s| - 1])
  }

  function Concat(ls: seq<seq<byte>>): seq<byte> {
    if ls == [] then [] else Concat(ls[..|ls| - 1]) + ls[|ls| - 1]
  }

  predicate IsLine(l: seq<byte>) {
    l != [] && l[|l| - 1] == NEWLINE && NEWLINE !in l[..|l| - 1]
  }

  lemma ConcatSnoc(ls: seq<seq<byte>>, l: seq<byte>)
    ensures Concat(ls + [l]) == Concat(ls) + l
  {
    assert (ls + [l])[..|ls|] == ls;
  }

  lemma {:induction false} TailHasNone(s: seq<byte>)
    ensures NEWLINE !in Tail(s)
  {
    if s != [] { TailHasNone(s[..|s| - 1]); }
  }

  lemma {:induction false} LinesAreLines(s: seq<byte>)
    ensures forall i :: 0 <= i < |Complete(s)| ==> IsLine(Complete(s)[i])
  {
    if s != [] {
      var init := s[..|s| - 1];
      LinesAreLines(init);
      TailHasNone(init);
      var l := Tail(init) + [NEWLINE];
      assert l[..|l| - 1] == Tail(init);
      assert IsLine(l);
    }
  }

  /** The lines and the tail are the stream, cut behind every newline (and, with LinesAreLines,
      nowhere else). */
  lemma {:induction false} LinesAreTheStream(s: seq<byte>)
    ensures Concat(Complete(s)) + Tail(s) == s
  {
    if s != [] {
      var init, last := s[..|s| - 1], s[|s| - 1];
      LinesAreTheStream(init);
      assert s == init + [last];
      if last == NEWLINE {
        var l := Tail(init) + [NEWLINE];
        ConcatSnoc(Complete(init), l);
        assert Concat(Complete(init)) + l == (Concat(Complete(init)) + Tail(init)) + [NEWLINE];
      } else {
        assert Concat(Complete(init)) + (Tail(init) + [last]) == (Concat(Complete(init)) + Tail(init)) + [last];
      }
    }
  }

  /** More bytes without a newline only lengthen the tail. */
  lemma {:induction false} Extends(s: seq<byte>, c: seq<byte>)
    requires NEWLINE !in c
    ensures Tail(s + c) == Tail(s) + c && Complete(s + c) == Complete(s)
  {
    if c == [] {
      assert s + c == s;
    } else {
      var init := c[..|c| - 1];
      assert (s + c)[..|s + c| - 1] == s + init;
      assert c[|c| - 1] in c;
      Extends(s, init);
    }
  }

  /** A chunk ending in its only newline completes one line. */
  lemma Completes(s: seq<byte>, c: seq<byte>)
    requires IsLine(c)
    ensures Tail(s + c) == [] && Complete(s + c) == Complete(s) + [Tail(s) + c]
  {
    var init := c[..|c| - 1];
    assert (s + c)[..|s + c| - 1] == s + init && c == init + [NEWLINE];
    Extends(s, init);
    assert (Tail(s) + init) + [NEWLINE] == Tail(s) + c;
  }

  /** The lines short enough to be looked at. */
  function Kept(ls: seq<seq<byte>>, cap: nat): seq<seq<byte>> {
    if ls == [] then []
    else
      var l := ls[|ls| - 1];
      Kept(ls[..|ls| - 1], cap) + if |l| <= cap then [l] else []
  }

  lemma KeptAppend(ls: seq<seq<byte>>, l: seq<byte>, cap: nat)
    ensures Kept(ls + [l], cap) == Kept(ls, cap) + if |l| <= cap then [l] else []
  {
    assert (ls + [l])[..|ls|] == ls;
  }
}
