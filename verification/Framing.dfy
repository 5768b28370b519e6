/** Newline framing of a text stream that arrives in arbitrary chunks.

That a code unit has 16 bits plays no part here, so a unit is any integer. */
module Framing {
  import opened Texts

  const NEWLINE: int := 10

  /** What `trim` removes at both ends: ECMAScript's white space and line terminators. */
  predicate IsSpace(u: int) {
    9 <= u <= 13 || u == 0x20 || u == 0xA0 || u == 0x1680 || 0x2000 <= u <= 0x200A
    || u == 0x2028 || u == 0x2029 || u == 0x202F || u == 0x205F || u == 0x3000 || u == 0xFEFF
  }

  predicate AllSpace(s: Text) {
    forall i :: 0 <= i < |s| ==> IsSpace(s[i])
  }

  function Trim(s: Text): Text {
    if s == [] then []
    else if IsSpace(s[0]) then Trim(s[1..])
    else if IsSpace(s[|s| - 1]) then Trim(s[..|s| - 1])
    else s
  }

  /** Trimming takes space off both ends and nothing else. */
  lemma {:induction false} TrimTakesOnlySpace(s: Text) returns (before: Text, after: Text)
    ensures s == before + Trim(s) + after && AllSpace(before) && AllSpace(after)
    ensures Trim(s) != [] ==> !IsSpace(Trim(s)[0]) && !IsSpace(Trim(s)[|Trim(s)| - 1])
    decreases |s|
  {
    before, after := [], [];
    if s == [] {
    } else if IsSpace(s[0]) {
      before, after := TrimTakesOnlySpace(s[1..]);
      before := [s[0]] + before;
    } else if IsSpace(s[|s| - 1]) {
      before, after := TrimTakesOnlySpace(s[..|s| - 1]);
      after := after + [s[|s| - 1]];
    }
  }

  function IndexOf(s: Text, u: int): (i: int)
    ensures i == -1 ==> u !in s
    ensures i != -1 ==> 0 <= i < |s| && s[i] == u && u !in s[..i]
  {
    if s == [] then -1
    else if s[0] == u then 0
    else
      var i := IndexOf(s[1..], u);
      if i == -1 then -1 else i + 1
  }

  /** The lines of a stream that a newline ends. */
  function Lines(s: Text): seq<Text> {
    var cut := IndexOf(s, NEWLINE);
    if cut < 0 then [] else [s[..cut]] + Lines(s[cut + 1..])
  }

  /** What follows the last newline. */
  function Rest(s: Text): Text {
    var cut := IndexOf(s, NEWLINE);
    if cut < 0 then s else Rest(s[cut + 1..])
  }

  /** The frames of some lines: each trimmed, the blank ones left out. */
  function NonBlank(lines: seq<Text>): seq<Text> {
    if lines == [] then []
    else (if Trim(lines[0]) == [] then [] else [Trim(lines[0])]) + NonBlank(lines[1..])
  }

  function Frames(s: Text): seq<Text> {
    NonBlank(Lines(s))
  }

  function Terminated(lines: seq<Text>): Text {
    if lines == [] then [] else lines[0] + [NEWLINE] + Terminated(lines[1..])
  }

  lemma FirstLine(s: Text, cut: nat)
    requires IndexOf(s, NEWLINE) == cut
    ensures Lines(s) == [s[..cut]] + Lines(s[cut + 1..])
  {
  }

  lemma FirstRest(s: Text, cut: nat)
    requires IndexOf(s, NEWLINE) == cut
    ensures Rest(s) == Rest(s[cut + 1..])
  {
  }

  lemma Rejoined(line: Text, lines: seq<Text>, rest: Text)
    ensures Terminated([line] + lines) + rest == line + [NEWLINE] + (Terminated(lines) + rest)
  {
    assert ([line] + lines)[1..] == lines;
    var t := Terminated(lines);
    assert line + [NEWLINE] + t + rest == line + [NEWLINE] + (t + rest);
  }

  lemma CutAt(s: Text, cut: nat)
    requires cut < |s| && s[cut] == NEWLINE
    ensures s[..cut] + [NEWLINE] + s[cut + 1..] == s
  {
  }

  /** The lines, each with its newline, and the rest are the stream. */
  lemma {:induction false} LinesAreTheStream(s: Text)
    ensures Terminated(Lines(s)) + Rest(s) == s
    decreases |s|
  {
    var cut := IndexOf(s, NEWLINE);
    if cut >= 0 {
      LinesAreTheStream(s[cut + 1..]);
      FirstLine(s, cut);
      FirstRest(s, cut);
      Rejoined(s[..cut], Lines(s[cut + 1..]), Rest(s[cut + 1..]));
      CutAt(s, cut);
    }
  }

  /** A stream is cut at all its newlines: no line and no rest holds one. */
  lemma {:induction false} NoNewlineIsLeft(s: Text)
    ensures NEWLINE !in Rest(s)
    ensures forall line :: line in Lines(s) ==> NEWLINE !in line
    decreases |s|
  {
    var cut := IndexOf(s, NEWLINE);
    if cut >= 0 {
      NoNewlineIsLeft(s[cut + 1..]);
      FirstLine(s, cut);
      FirstRest(s, cut);
    }
  }

  lemma {:induction false} IndexOfFirst(s: Text, t: Text, u: int)
    requires u in s
    ensures IndexOf(s + t, u) == IndexOf(s, u)
    decreases |s|
  {
    assert (s + t)[0] == s[0];
    if s[0] != u {
      assert (s + t)[1..] == s[1..] + t;
      IndexOfFirst(s[1..], t, u);
    }
  }

  /** What is framed of a stream does not depend on where it was cut before. */
  lemma {:induction false} LinesOfTwo(s: Text, t: Text)
    ensures Lines(s + t) == Lines(s) + Lines(Rest(s) + t)
    ensures Rest(s + t) == Rest(Rest(s) + t)
    decreases |s|
  {
    var cut := IndexOf(s, NEWLINE);
    if cut >= 0 {
      var line, tail := s[..cut], s[cut + 1..];
      IndexOfFirst(s, t, NEWLINE);
      assert (s + t)[..cut] == line && (s + t)[cut + 1..] == tail + t;
      FirstLine(s, cut);
      FirstLine(s + t, cut);
      FirstRest(s, cut);
      FirstRest(s + t, cut);
      LinesOfTwo(tail, t);
    }
  }

  lemma {:induction false} NonBlankOfTwo(a: seq<Text>, b: seq<Text>)
    ensures NonBlank(a + b) == NonBlank(a) + NonBlank(b)
    decreases |a|
  {
    if a == [] {
      assert a + b == b;
    } else {
      assert (a + b)[1..] == a[1..] + b;
      NonBlankOfTwo(a[1..], b);
    }
  }

  /** The first line taken off. */
  lemma FirstFrame(s: Text, cut: nat)
    requires IndexOf(s, NEWLINE) == cut
    ensures Frames(s) == (if Trim(s[..cut]) == [] then [] else [Trim(s[..cut])]) + Frames(s[cut + 1..])
    ensures Rest(s) == Rest(s[cut + 1..])
  {
    FirstLine(s, cut);
    FirstRest(s, cut);
  }

  // ----- whole runs of a reader -----

  function Joined(chunks: seq<Text>): Text {
    if chunks == [] then [] else chunks[0] + Joined(chunks[1..])
  }

  /** The frames a reader handles over a whole run, chunk by chunk, and the buffer it is left with. */
  function Handled(buffer: Text, chunks: seq<Text>): (seq<Text>, Text)
    decreases |chunks|
  {
    if chunks == [] then ([], buffer)
    else
      var (frames, rest) := Handled(Rest(buffer + chunks[0]), chunks[1..]);
      (Frames(buffer + chunks[0]) + frames, rest)
  }

  /** However a stream is cut into chunks, the frames handled are those of the whole stream, in order,
  and the buffer is the rest after its last newline. */
  lemma {:induction false} ChunksDoNotMatter(buffer: Text, chunks: seq<Text>)
    requires NEWLINE !in buffer
    ensures Handled(buffer, chunks) == (Frames(buffer + Joined(chunks)), Rest(buffer + Joined(chunks)))
    decreases |chunks|
  {
    if chunks == [] {
      assert buffer + [] == buffer;
    } else {
      var s, t := buffer + chunks[0], Joined(chunks[1..]);
      assert buffer + Joined(chunks) == s + t;
      NoNewlineIsLeft(s);
      ChunksDoNotMatter(Rest(s), chunks[1..]);
      LinesOfTwo(s, t);
      NonBlankOfTwo(Lines(s), Lines(Rest(s) + t));
    }
  }

  /** Two ways to cut one stream are handled the same. */
  lemma AnyTwoSplitsAgree(a: seq<Text>, b: seq<Text>)
    requires Joined(a) == Joined(b)
    ensures Handled([], a) == Handled([], b)
  {
    ChunksDoNotMatter([], a);
    ChunksDoNotMatter([], b);
  }

  // ----- the two readers of the repository -----

  /** The reader of the clients and the stubs: it looks for a newline in the loop's own condition. */
  class Reader {
    var buffer: Text

    constructor ()
      ensures buffer == []
    {
      buffer := [];
    }

    method Data(chunk: Text) returns (frames: seq<Text>)
      modifies this
      ensures frames == Frames(old(buffer) + chunk)
      ensures buffer == Rest(old(buffer) + chunk)
    {
      buffer := buffer + chunk;
      frames := [];
      ghost var whole := buffer;
      while IndexOf(buffer, NEWLINE) >= 0
        invariant frames + Frames(buffer) == Frames(whole) && Rest(buffer) == Rest(whole)
        decreases |buffer|
      {
        var newline := IndexOf(buffer, NEWLINE);
        var line := Trim(buffer[..newline]);
        FirstFrame(buffer, newline);
        buffer := buffer[newline + 1..];
        if line == [] {
          continue;
        }
        frames := frames + [line];
      }
    }
  }

  /** The shim's reader: it passes the chunk on first, and cuts the next line before it looks at this one. */
  class Forwarder {
    var buffer: Text
    var forwarded: Text

    constructor ()
      ensures buffer == [] && forwarded == []
    {
      buffer, forwarded := [], [];
    }

    method Data(chunk: Text) returns (frames: seq<Text>)
      modifies this
      ensures forwarded == old(forwarded) + chunk
      ensures frames == Frames(old(buffer) + chunk)
      ensures buffer == Rest(old(buffer) + chunk)
    {
      forwarded := forwarded + chunk;
      buffer := buffer + chunk;
      frames := [];
      ghost var whole := buffer;
      var cut := IndexOf(buffer, NEWLINE);
      while cut >= 0
        invariant cut == IndexOf(buffer, NEWLINE)
        invariant frames + Frames(buffer) == Frames(whole) && Rest(buffer) == Rest(whole)
        invariant forwarded == old(forwarded) + chunk
        decreases |buffer|
      {
        var line := Trim(buffer[..cut]);
        FirstFrame(buffer, cut);
        buffer := buffer[cut + 1..];
        cut := IndexOf(buffer, NEWLINE);
        if |line| == 0 {
          continue;
        }
        frames := frames + [line];
      }
    }
  }

  // ----- what the words mean -----

  /** ECMAScript's white space and line terminators, one by one. */
  lemma SpaceIs(u: int)
    ensures IsSpace(u) <==>
      u in {0x09, 0x0A, 0x0B, 0x0C, 0x0D, 0x20, 0xA0, 0x1680, 0x2000, 0x2001, 0x2002, 0x2003, 0x2004, 0x2005, 0x2006,
            0x2007, 0x2008, 0x2009, 0x200A, 0x2028, 0x2029, 0x202F, 0x205F, 0x3000, 0xFEFF}
    ensures NEWLINE == '\n' as int
  {
  }

  /** The frames are the trimmed lines that are not blank, each once and in order: `at` are the places of
  their lines. */
  ghost predicate FramesAt(lines: seq<Text>, frames: seq<Text>, at: seq<int>) {
    && |at| == |frames|
    && (forall k :: 0 <= k < |at| ==> 0 <= at[k] < |lines| && frames[k] == Trim(lines[at[k]]))
    && (forall j, k :: 0 <= j < k < |at| ==> at[j] < at[k])
    && (forall i :: 0 <= i < |lines| ==> (i in at <==> !AllSpace(lines[i])))
  }

  lemma {:induction false} BlankIsAllSpace(s: Text)
    ensures Trim(s) == [] <==> AllSpace(s)
    decreases |s|
  {
    if s != [] {
      if IsSpace(s[0]) {
        BlankIsAllSpace(s[1..]);
        assert AllSpace(s[1..]) ==> AllSpace(s) by {
          assert forall i :: 0 < i < |s| ==> s[i] == s[1..][i - 1];
        }
      } else if IsSpace(s[|s| - 1]) {
        BlankIsAllSpace(s[..|s| - 1]);
        assert s[..|s| - 1] != [] ==> s[..|s| - 1][0] == s[0];
      }
    }
  }

  lemma {:induction false} FramesAreTheLines(lines: seq<Text>) returns (at: seq<int>)
    ensures FramesAt(lines, NonBlank(lines), at)
    decreases |lines|
  {
    if lines == [] {
      at := [];
    } else {
      var n := |lines| - 1;
      at := FramesAreTheLines(lines[..n]);
      assert lines == lines[..n] + [lines[n]] && [lines[n]][1..] == [];
      NonBlankOfTwo(lines[..n], [lines[n]]);
      BlankIsAllSpace(lines[n]);
      if Trim(lines[n]) != [] {
        OneMoreFrame(lines, NonBlank(lines[..n]), at);
        at := at + [n];
      }
    }
  }

  lemma OneMoreFrame(lines: seq<Text>, frames: seq<Text>, at: seq<int>)
    requires lines != [] && !AllSpace(lines[|lines| - 1]) && FramesAt(lines[..|lines| - 1], frames, at)
    ensures FramesAt(lines, frames + [Trim(lines[|lines| - 1])], at + [|lines| - 1])
  {
    var n := |lines| - 1;
    var more := at + [n];
    assert forall i :: i in more <==> i in at || i == n;
    assert forall i :: i in at ==> i < n;
  }
}
