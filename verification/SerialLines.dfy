/** How a byte stream becomes command lines. */
module SerialLines {
  const CAPACITY := 32  // the input buffer, terminator included

  predicate Ends(c: char) {
    c == '\n' || c == '\r'
  }

  predicate NoEnd(s: string) {
    forall i :: 0 <= i < |s| ==> !Ends(s[i])
  }

  // ----- reference: cut the stream, then truncate the pieces -----

  /** The stream cut at every terminator; the last piece is the unfinished one. */
  function Cut(s: string): (pieces: seq<string>)
    ensures |pieces| >= 1
  {
    if s == [] then [[]]
    else
      var before, c := Cut(s[..|s| - 1]), s[|s| - 1];
      if Ends(c) then before + [[]] else before[|before| - 1 := before[|before| - 1] + [c]]
  }

  function Truncate(s: string): string {
    if |s| < CAPACITY then s else s[..CAPACITY - 1]
  }

  /** The finished lines of a stream, each truncated to 31 characters. */
  function Lines(s: string): seq<string> {
    seq(|Cut(s)| - 1, i requires 0 <= i < |Cut(s)| - 1 => Truncate(Cut(s)[i]))
  }

  /** The unfinished line, truncated. */
  function Rest(s: string): string {
    Truncate(Cut(s)[|Cut(s)| - 1])
  }

  function Terminators(s: string): string {
    if s == [] then []
    else Terminators(s[..|s| - 1]) + (if Ends(s[|s| - 1]) then [s[|s| - 1]] else [])
  }

  /** Pieces with a terminator after each but the last. */
  function Glue(pieces: seq<string>, ends: string): string
    requires |pieces| == |ends| + 1
  {
    if ends == [] then pieces[0]
    else Glue(pieces[..|pieces| - 1], ends[..|ends| - 1]) + [ends[|ends| - 1]] + pieces[|pieces| - 1]
  }

  /** Cut loses nothing and leaves no terminator inside a piece. */
  lemma {:induction false} CutIsSplit(s: string)
    ensures |Cut(s)| == |Terminators(s)| + 1
    ensures Glue(Cut(s), Terminators(s)) == s
    ensures forall i :: 0 <= i < |Cut(s)| ==> NoEnd(Cut(s)[i])
    decreases |s|
  {
    if s != [] {
      var t, c := s[..|s| - 1], s[|s| - 1];
      CutIsSplit(t);
      assert s == t + [c];
      if Ends(c) {
        assert Cut(s)[..|Cut(s)| - 1] == Cut(t);
        assert Terminators(s)[..|Terminators(s)| - 1] == Terminators(t);
      } else {
        assert Terminators(s) == Terminators(t);
        GlueLast(Cut(t), Terminators(t), c);
      }
    }
  }

  lemma GlueLast(pieces: seq<string>, ends: string, c: char)
    requires |pieces| == |ends| + 1
    ensures Glue(pieces[|pieces| - 1 := pieces[|pieces| - 1] + [c]], ends) == Glue(pieces, ends) + [c]
  {
    var longer := pieces[|pieces| - 1 := pieces[|pieces| - 1] + [c]];
    if ends != [] {
      assert longer[..|pieces| - 1] == pieces[..|pieces| - 1];
    }
  }

  // ----- one character at a time -----

  /** What one more character does to the finished lines and the unfinished one. */
  lemma OneMore(s: string, c: char)
    ensures c == '\n' || c == '\r' ==> Lines(s + [c]) == Lines(s) + [Rest(s)] && Rest(s + [c]) == []
    ensures c != '\n' && c != '\r' ==> Lines(s + [c]) == Lines(s)
    ensures c != '\n' && c != '\r' ==> Rest(s + [c]) == if |Rest(s)| < 31 then Rest(s) + [c] else Rest(s)
  {
    assert (s + [c])[..|s + [c]| - 1] == s;
  }

  lemma EmptyStream()
    ensures Lines([]) == [] && Rest([]) == []
  {
  }

  lemma {:induction false} Unfinished(s: string)
    requires NoEnd(s)
    ensures Lines(s) == [] && Rest(s) == Truncate(s)
    decreases |s|
  {
    hide Lines, Rest, Cut;
    if s == [] {
      EmptyStream();
    } else {
      var t, c := s[..|s| - 1], s[|s| - 1];
      Unfinished(t);
      OneMore(t, c);
      assert s == t + [c];
    }
  }

  lemma RestIsUnfinished(s: string)
    ensures NoEnd(Rest(s)) && |Rest(s)| < CAPACITY
  {
    CutIsSplit(s);
  }

  lemma RestLength(s: string)
    ensures Truncate(Rest(s)) == Rest(s)
  {
  }

  /** Reading can stop anywhere and resume from the truncated unfinished line alone. */
  lemma {:induction false} Resume(x: string, y: string)
    ensures Lines(x + y) == Lines(x) + Lines(Rest(x) + y)
    ensures Rest(x + y) == Rest(Rest(x) + y)
    decreases |y|
  {
    hide Lines, Rest;
    RestLength(x);
    if y == [] {
      RestIsUnfinished(x);
      Unfinished(Rest(x));
      assert x + y == x && Rest(x) + y == Rest(x);
    } else {
      var z, c := y[..|y| - 1], y[|y| - 1];
      Resume(x, z);
      OneMore(x + z, c);
      OneMore(Rest(x) + z, c);
      assert x + y == (x + z) + [c];
      assert Rest(x) + y == (Rest(x) + z) + [c];
    }
  }

  function Flatten(chunks: seq<string>): string {
    if chunks == [] then [] else chunks[0] + Flatten(chunks[1..])
  }

  /** What a reader that remembers only `pending` between calls produces, chunk by chunk. */
  function ReadChunks(pending: string, chunks: seq<string>): seq<string>
    decreases |chunks|
  {
    if chunks == [] then []
    else Lines(pending + chunks[0]) + ReadChunks(Rest(pending + chunks[0]), chunks[1..])
  }

  /** Stream refinement: how the bytes are split across calls makes no difference. */
  lemma {:induction false} ChunkingInvisible(pending: string, chunks: seq<string>)
    requires NoEnd(pending) && |pending| < CAPACITY
    ensures ReadChunks(pending, chunks) == Lines(pending + Flatten(chunks))
    decreases |chunks|
  {
    hide Lines, Rest, NoEnd;
    if chunks == [] {
      Unfinished(pending);
      assert pending + Flatten(chunks) == pending;
    } else {
      var x, rest := pending + chunks[0], chunks[1..];
      RestIsUnfinished(x);
      ChunkingInvisible(Rest(x), rest);
      Resume(x, Flatten(rest));
      assert pending + Flatten(chunks) == x + Flatten(rest);
    }
  }

  /** A line that fits, sent with a terminator on an empty buffer, is dispatched as it is. */
  lemma OneLine(line: string, end: char)
    requires NoEnd(line) && |line| < CAPACITY && Ends(end)
    ensures Lines(line + [end]) == [line] && Rest(line + [end]) == []
  {
    Unfinished(line);
    OneMore(line, end);
  }
}
