/** Texts whose markers end at exact offsets, in bytes or in UTF-16 units, and that are cut inside a
surrogate pair. */
module Builders {
  import opened Texts

  const X: int := 0x78
  const EMDASH: Text := [0x2014]
  const EMDASH_BYTES: seq<int> := [0xE2, 0x80, 0x94]
  const EMOJI: Text := [0xD83D, 0xDE00]

  /** A text that is to end at an offset. */
  datatype Mark = Mark(at: int, text: Text)

  // ----- the specification, for any filler and any measure -----

  function Most(a: int, b: int): int {
    if a < b then b else a
  }

  /** Where the last mark ends: at its offset, or right after what comes before it when that is later. */
  function EndOf(from: nat, marks: seq<Mark>): nat {
    if marks == [] then from
    else
      var last := marks[|marks| - 1];
      Most(last.at, EndOf(from, marks[..|marks| - 1]) + |last.text|)
  }

  /** As many fillers of `step` as fit, and then x's. */
  function Fill(gap: nat, filler: Text, step: nat): Text
    requires step > 0
  {
    Repeat(filler, gap / step) + Repeat([X], gap % step)
  }

  function Gap(from: nat, marks: seq<Mark>): (gap: nat)
    requires marks != []
  {
    EndOf(from, marks) - EndOf(from, marks[..|marks| - 1]) - |marks[|marks| - 1].text|
  }

  /** Fill and mark, for each mark. */
  function Built(begin: Text, from: nat, marks: seq<Mark>, filler: Text, step: nat): Text
    requires step > 0
  {
    if marks == [] then begin
    else
      var before := Built(begin, from, marks[..|marks| - 1], filler, step);
      before + Fill(Gap(from, marks), filler, step) + marks[|marks| - 1].text
  }

  /** The least number of steps that comes from `size` up to `until`. */
  function StepsTo(size: int, until: int, step: nat): nat
    requires step > 0
  {
    if size >= until then 0 else (until - size + step - 1) / step
  }

  // ----- every mark ends where it should -----

  lemma FillIsExact(gap: nat, filler: Text, step: nat)
    requires |filler| == step > 0
    ensures |Fill(gap, filler, step)| == gap
  {
    RepeatAt(filler, gap / step);
    RepeatAt([X], gap % step);
  }

  lemma {:induction false} BuiltEnds(begin: Text, marks: seq<Mark>, filler: Text)
    requires filler != []
    ensures |Built(begin, |begin|, marks, filler, |filler|)| == EndOf(|begin|, marks)
    decreases |marks|
  {
    if marks != [] {
      BuiltEnds(begin, marks[..|marks| - 1], filler);
      FillIsExact(Gap(|begin|, marks), filler, |filler|);
    }
  }

  /** The i-th mark stands right before the offset where it ends. */
  ghost predicate MarkStands(s: Text, from: nat, marks: seq<Mark>, i: nat)
    requires i < |marks|
  {
    var e := EndOf(from, marks[..i + 1]);
    |marks[i].text| <= e <= |s| && s[e - |marks[i].text|..e] == marks[i].text
  }

  lemma EndOfOneMore(from: nat, marks: seq<Mark>, i: nat)
    requires i < |marks|
    ensures EndOf(from, marks[..i + 1]) == Most(marks[i].at, EndOf(from, marks[..i]) + |marks[i].text|)
  {
    assert marks[..i + 1][..i] == marks[..i];
  }

  lemma StandsInMore(s: Text, t: Text, from: nat, marks: seq<Mark>, i: nat)
    requires i < |marks| && MarkStands(s, from, marks, i)
    ensures MarkStands(s + t, from, marks, i)
  {
    var e := EndOf(from, marks[..i + 1]);
    assert (s + t)[e - |marks[i].text|..e] == s[e - |marks[i].text|..e];
  }

  lemma LastStands(before: Text, from: nat, marks: seq<Mark>)
    requires marks != [] && |before + marks[|marks| - 1].text| == EndOf(from, marks)
    ensures MarkStands(before + marks[|marks| - 1].text, from, marks, |marks| - 1)
  {
    assert marks[..|marks|] == marks;
  }

  lemma StandsWithMoreMarks(s: Text, from: nat, marks: seq<Mark>, n: nat, i: nat)
    requires i < n <= |marks| && MarkStands(s, from, marks[..n], i)
    ensures MarkStands(s, from, marks, i)
  {
    assert marks[..n][..i + 1] == marks[..i + 1];
  }

  lemma {:induction false} EveryMarkStands(begin: Text, marks: seq<Mark>, filler: Text, i: nat)
    requires filler != [] && i < |marks|
    ensures MarkStands(Built(begin, |begin|, marks, filler, |filler|), |begin|, marks, i)
    decreases |marks|
  {
    var n := |marks| - 1;
    var before := Built(begin, |begin|, marks[..n], filler, |filler|);
    var fill := Fill(Gap(|begin|, marks), filler, |filler|);
    if i == n {
      BuiltEnds(begin, marks, filler);
      LastStands(before + fill, |begin|, marks);
    } else {
      EveryMarkStands(begin, marks[..n], filler, i);
      StandsWithMoreMarks(before, |begin|, marks, n, i);
      StandsInMore(before, fill, |begin|, marks, i);
      StandsInMore(before + fill, marks[n].text, |begin|, marks, i);
    }
  }

  /** The offset before the i-th mark's. */
  function Before(from: nat, marks: seq<Mark>, i: nat): int
    requires i <= |marks|
  {
    if i == 0 then from else marks[i - 1].at
  }

  /** Every offset leaves room for its own mark after the offset before it. */
  ghost predicate Feasible(from: nat, marks: seq<Mark>) {
    forall i :: 0 <= i < |marks| ==> Before(from, marks, i) + |marks[i].text| <= marks[i].at
  }

  /** No mark overshoots its offset exactly when the offsets leave room. */
  lemma ExactWhenFeasible(from: nat, marks: seq<Mark>)
    ensures Feasible(from, marks) <==> forall i :: 0 <= i < |marks| ==> EndOf(from, marks[..i + 1]) == marks[i].at
  {
    if Feasible(from, marks) {
      forall i | 0 <= i < |marks| ensures EndOf(from, marks[..i + 1]) == marks[i].at {
        FeasibleEnds(from, marks, i);
      }
    } else {
      var i :| 0 <= i < |marks| && Before(from, marks, i) + |marks[i].text| > marks[i].at;
      EndOfOneMore(from, marks, i);
      assert i > 0 ==> marks[..i] == marks[..(i - 1) + 1];
    }
  }

  lemma {:induction false} FeasibleEnds(from: nat, marks: seq<Mark>, i: nat)
    requires Feasible(from, marks) && i < |marks|
    ensures EndOf(from, marks[..i + 1]) == marks[i].at
    decreases i, 1
  {
    EndBefore(from, marks, i);
    EndOfOneMore(from, marks, i);
    assert Before(from, marks, i) + |marks[i].text| <= marks[i].at;
  }

  lemma {:induction false} EndBefore(from: nat, marks: seq<Mark>, i: nat)
    requires Feasible(from, marks) && i <= |marks|
    ensures EndOf(from, marks[..i]) == Before(from, marks, i)
    decreases i, 0
  {
    if i > 0 {
      FeasibleEnds(from, marks, i - 1);
      assert marks[..(i - 1) + 1] == marks[..i];
    }
  }

  // ----- bytes -----

  ghost predicate AsciiMarks(marks: seq<Mark>) {
    forall i :: 0 <= i < |marks| ==> IsAscii(marks[i].text)
  }

  lemma AsciiStartsNoPair(s: Text)
    requires IsAscii(s)
    ensures s == [] || !IsLow(s[0])
  {
  }

  lemma EmDashBytes(n: nat)
    ensures Utf8(Repeat(EMDASH, n)) == Repeat(EMDASH_BYTES, n)
  {
    assert Utf8(EMDASH) == UnitBytes(0x2014) + Utf8(EMDASH[1..]) && EMDASH[1..] == [];
    assert Utf8([]) == [] && UnitBytes(0x2014) == [0xE2, 0x80, 0x94];
    assert Utf8(EMDASH) == EMDASH_BYTES;
    Utf8OfRepeat(EMDASH, n);
  }

  lemma XBytes(n: nat)
    ensures Utf8(Repeat([X], n)) == Repeat([X], n) && (n > 0 ==> Repeat([X], n)[0] == X)
  {
    Utf8OfAscii([X]);
    Utf8OfRepeat([X], n);
    RepeatAt([X], n);
  }

  lemma DashStarts(n: nat)
    requires n > 0
    ensures |Repeat(EMDASH, n)| == n && Repeat(EMDASH, n)[0] == 0x2014
  {
    RepeatAt(EMDASH, n);
  }

  /** The bytes of a text followed by em dashes, x's and an ASCII text. */
  lemma BytesOfMore(s: Text, dashes: nat, xs: nat, text: Text)
    requires IsAscii(text)
    ensures Utf8(s + Repeat(EMDASH, dashes)) == Utf8(s) + Repeat(EMDASH_BYTES, dashes)
    ensures Utf8(s + Repeat(EMDASH, dashes) + Repeat([X], xs))
        == Utf8(s) + Repeat(EMDASH_BYTES, dashes) + Repeat([X], xs)
    ensures Utf8(s + Repeat(EMDASH, dashes) + Repeat([X], xs) + text)
        == Utf8(s) + Repeat(EMDASH_BYTES, dashes) + Repeat([X], xs) + text
  {
    EmDashBytes(dashes);
    XBytes(xs);
    if dashes > 0 {
      DashStarts(dashes);
    }
    Utf8OfTwo(s, Repeat(EMDASH, dashes));
    Utf8OfTwo(s + Repeat(EMDASH, dashes), Repeat([X], xs));
    AsciiStartsNoPair(text);
    Utf8OfTwo(s + Repeat(EMDASH, dashes) + Repeat([X], xs), text);
    Utf8OfAscii(text);
  }

  /** What is built of em dashes has the bytes of what is built of their three bytes. */
  lemma {:induction false} BytesOfBuilt(marks: seq<Mark>)
    requires AsciiMarks(marks)
    ensures Utf8(Built([], 0, marks, EMDASH, 3)) == Built([], 0, marks, EMDASH_BYTES, 3)
    decreases |marks|
  {
    if marks != [] {
      var n := |marks| - 1;
      BytesOfBuilt(marks[..n]);
      var s, gap, text := Built([], 0, marks[..n], EMDASH, 3), Gap(0, marks), marks[n].text;
      BytesOfMore(s, gap / 3, gap % 3, text);
      Regroup(s, Repeat(EMDASH, gap / 3), Repeat([X], gap % 3), text);
      Regroup(Utf8(s), Repeat(EMDASH_BYTES, gap / 3), Repeat([X], gap % 3), text);
    }
  }

  lemma Regroup(s: Text, a: Text, b: Text, t: Text)
    ensures s + (a + b) + t == s + a + b + t
  {
  }

  /** The multi-byte text: the marks, and em dashes up to `until` bytes. */
  function Multibyte(marks: seq<Mark>, until: nat): Text {
    var s := Built([], 0, marks, EMDASH, 3);
    s + Repeat(EMDASH, StepsTo(EndOf(0, marks), until, 3))
  }

  /** Every mark stands right before the byte where it ends; and the whole is the last mark's end, or
  `until` bytes and at most two more. */
  lemma MultibyteIsExact(marks: seq<Mark>, until: nat)
    requires AsciiMarks(marks)
    ensures forall i :: 0 <= i < |marks| ==> MarkStands(Utf8(Multibyte(marks, until)), 0, marks, i)
    ensures var e := EndOf(0, marks);
            if e >= until then B(Multibyte(marks, until)) == e else until <= B(Multibyte(marks, until)) <= until + 2
  {
    var s, n := Built([], 0, marks, EMDASH, 3), StepsTo(EndOf(0, marks), until, 3);
    BytesOfBuilt(marks);
    BytesOfMore(s, n, 0, []);
    assert s + Repeat(EMDASH, n) + Repeat([X], 0) + [] == Multibyte(marks, until);
    BuiltEnds([], marks, EMDASH_BYTES);
    RepeatAt(EMDASH_BYTES, n);
    forall i | 0 <= i < |marks| ensures MarkStands(Utf8(Multibyte(marks, until)), 0, marks, i) {
      EveryMarkStands([], marks, EMDASH_BYTES, i);
      StandsInMore(Utf8(s), Repeat(EMDASH_BYTES, n), 0, marks, i);
    }
  }

  /** The gap before a mark is what its offset leaves after the one before it. */
  lemma GapOf(from: nat, marks: seq<Mark>, i: nat)
    requires i < |marks| && Feasible(from, marks)
    ensures Gap(from, marks[..i + 1]) == marks[i].at - |marks[i].text| - Before(from, marks, i)
  {
    FeasibleEnds(from, marks, i);
    EndBefore(from, marks, i);
    assert marks[..i + 1][..i] == marks[..i];
  }

  lemma DashFillUnits(gap: nat)
    ensures |Fill(gap, EMDASH, 3)| == gap / 3 + gap % 3
  {
    RepeatAt(EMDASH, gap / 3);
    RepeatAt([X], gap % 3);
  }

  /** How many units the multi-byte text has after its i-th mark. */
  function UnitsAfter(marks: seq<Mark>, i: nat): nat
    requires i <= |marks|
  {
    |Built([], 0, marks[..i], EMDASH, 3)|
  }

  lemma UnitsGrow(marks: seq<Mark>, i: nat)
    requires i < |marks|
    ensures UnitsAfter(marks, i + 1)
         == UnitsAfter(marks, i) + |Fill(Gap(0, marks[..i + 1]), EMDASH, 3)| + |marks[i].text|
  {
    OneMoreMark([], 0, marks, i, EMDASH, 3);
  }

  /** A mark adds the units of its text and of the fill before it: a third as many as the dashes' bytes. */
  lemma UnitsOfOneMore(marks: seq<Mark>, i: nat)
    requires i < |marks| && Feasible(0, marks)
    ensures var gap := marks[i].at - |marks[i].text| - Before(0, marks, i);
            gap >= 0 && UnitsAfter(marks, i + 1) == UnitsAfter(marks, i) + gap / 3 + gap % 3 + |marks[i].text|
  {
    GapOf(0, marks, i);
    UnitsGrow(marks, i);
    DashFillUnits(Gap(0, marks[..i + 1]));
  }

  ghost predicate FirstRound(marks: seq<Mark>) {
    && |marks| == 6 && AsciiMarks(marks)
    && marks[0].at == 300 && marks[1].at == 1900 && marks[2].at == 2500
    && marks[3].at == 4000 && marks[4].at == 6400 && marks[5].at == 7600
    && (forall i :: 0 <= i < 5 ==> |marks[i].text| == 16) && |marks[5].text| == 14
  }

  lemma FirstRoundIsFeasible(marks: seq<Mark>)
    requires FirstRound(marks)
    ensures Feasible(0, marks)
  {
    forall i | 0 <= i < |marks| ensures Before(0, marks, i) + |marks[i].text| <= marks[i].at {
      assert i == 0 || i == 1 || i == 2 || i == 3 || i == 4 || i == 5;
    }
  }

  lemma FirstUnits(marks: seq<Mark>)
    requires FirstRound(marks) && Feasible(0, marks)
    ensures UnitsAfter(marks, 1) == 112 && UnitsAfter(marks, 2) == 656
  {
    assert marks[..0] == [];
    UnitsOfOneMore(marks, 0);
    UnitsOfOneMore(marks, 1);
  }

  lemma FirstRoundUnits(marks: seq<Mark>)
    requires FirstRound(marks) && Feasible(0, marks)
    ensures UnitsAfter(marks, 3) == 868 && UnitsAfter(marks, 4) == 1380 && UnitsAfter(marks, 5) == 2192
  {
    FirstUnits(marks);
    UnitsOfOneMore(marks, 2);
    UnitsOfOneMore(marks, 3);
    UnitsOfOneMore(marks, 4);
  }

  /** The first round's text: the marks at bytes 2500 and 4000 end over 2048 bytes and under 2048 units
  (868 and 1380), the one at 6400 over both (2192), and the whole is 7801 bytes. */
  lemma TheFirstRoundTellsBytesFromUnits(marks: seq<Mark>)
    requires FirstRound(marks)
    ensures UnitsAfter(marks, 3) == 868 && UnitsAfter(marks, 4) == 1380 && UnitsAfter(marks, 5) == 2192
    ensures forall i :: 0 <= i < 6 ==> EndOf(0, marks[..i + 1]) == marks[i].at
    ensures B(Multibyte(marks, 7800)) == 7801
  {
    FirstRoundIsFeasible(marks);
    FirstRoundUnits(marks);
    ExactWhenFeasible(0, marks);
    assert marks[..5 + 1] == marks;
    BytesOfMultibyte(marks, 7800);
  }

  lemma BytesOfMultibyte(marks: seq<Mark>, until: nat)
    requires AsciiMarks(marks)
    ensures B(Multibyte(marks, until)) == EndOf(0, marks) + 3 * StepsTo(EndOf(0, marks), until, 3)
  {
    var s, n := Built([], 0, marks, EMDASH, 3), StepsTo(EndOf(0, marks), until, 3);
    BytesOfBuilt(marks);
    BytesOfMore(s, n, 0, []);
    BuiltEnds([], marks, EMDASH_BYTES);
    RepeatAt(EMDASH_BYTES, n);
  }

  /** One more filler. */
  lemma OneMoreFiller(s: Text, filler: Text, n: nat)
    ensures s + Repeat(filler, n) + filler == s + Repeat(filler, n + 1)
  {
  }

  /** The multi-byte text, grown one filler at a time until its bytes are enough. */
  method GrowMultibyte(marks: seq<Mark>, until: nat) returns (s: Text)
    requires AsciiMarks(marks)
    ensures s == Multibyte(marks, until)
  {
    s := GrowMarks(marks);
    s := DashTo(s, until);
  }

  method GrowMarks(marks: seq<Mark>) returns (s: Text)
    requires AsciiMarks(marks)
    ensures s == Built([], 0, marks, EMDASH, 3) && B(s) == EndOf(0, marks)
  {
    s := [];
    for i := 0 to |marks|
      invariant s == Built([], 0, marks[..i], EMDASH, 3) && B(s) == EndOf(0, marks[..i])
    {
      OneMoreMark([], 0, marks, i, EMDASH, 3);
      s := GrowToMark(s, marks[i], Gap(0, marks[..i + 1]));
    }
    assert marks[..|marks|] == marks;
  }

  lemma OneMoreMark(begin: Text, from: nat, marks: seq<Mark>, i: nat, filler: Text, step: nat)
    requires i < |marks| && step > 0
    ensures var next, gap := marks[..i + 1], Gap(from, marks[..i + 1]);
            && Built(begin, from, next, filler, step)
            == Built(begin, from, marks[..i], filler, step) + Fill(gap, filler, step) + marks[i].text
            && EndOf(from, next) == EndOf(from, marks[..i]) + gap + |marks[i].text|
  {
    assert marks[..i + 1][..i] == marks[..i];
  }

  /** How many bytes they are. */
  lemma ManyBytes(s: Text, dashes: nat, xs: nat, text: Text)
    requires IsAscii(text)
    ensures B(s + Repeat(EMDASH, dashes)) == B(s) + 3 * dashes
    ensures B(s + Repeat(EMDASH, dashes) + Repeat([X], xs)) == B(s) + 3 * dashes + xs
    ensures B(s + Repeat(EMDASH, dashes) + Repeat([X], xs) + text) == B(s) + 3 * dashes + xs + |text|
  {
    BytesOfMore(s, dashes, xs, text);
    RepeatAt(EMDASH_BYTES, dashes);
    RepeatAt([X], xs);
  }

  method DashTo(begin: Text, until: int) returns (s: Text)
    ensures s == begin + Repeat(EMDASH, StepsTo(B(begin), until, 3))
    ensures B(s) == B(begin) + 3 * StepsTo(B(begin), until, 3)
  {
    s := begin;
    ghost var n := 0;
    while B(s) < until
      invariant s == begin + Repeat(EMDASH, n) && B(s) == B(begin) + 3 * n
      invariant n == 0 || B(s) < until + 3
      decreases until - B(s)
    {
      OneMoreFiller(begin, EMDASH, n);
      ManyBytes(begin, n + 1, 0, []);
      s := s + EMDASH;
      n := n + 1;
    }
  }

  method XTo(begin: Text, until: int) returns (s: Text)
    ensures s == begin + Repeat([X], Most(until - B(begin), 0))
  {
    s := begin;
    ghost var n := 0;
    while B(s) < until
      invariant s == begin + Repeat([X], n) && B(s) == B(begin) + n
      invariant n == 0 || B(s) <= until
      decreases until - B(s)
    {
      OneMoreFiller(begin, [X], n);
      ManyBytes(begin, 0, n + 1, []);
      assert begin + Repeat(EMDASH, 0) == begin;
      s := s + [X];
      n := n + 1;
    }
  }

  /** Em dashes while three bytes fit, then x's, then the mark. */
  method GrowToMark(begin: Text, m: Mark, ghost gap: nat) returns (s: Text)
    requires IsAscii(m.text)
    requires gap == Most(m.at, B(begin) + |m.text|) - B(begin) - |m.text|
    ensures s == begin + Fill(gap, EMDASH, 3) + m.text && B(s) == B(begin) + gap + |m.text|
  {
    Utf8OfAscii(m.text);
    s := DashTo(begin, m.at - |m.text| - 2);
    ghost var a := StepsTo(B(begin), m.at - |m.text| - 2, 3);
    ghost var x := Most(m.at - |m.text| - B(s), 0);
    s := XTo(s, m.at - |m.text|);
    Regroup(begin, Repeat(EMDASH, a), Repeat([X], x), m.text);
    ManyBytes(begin, a, x, m.text);
    s := s + m.text;
  }

  // ----- units -----

  /** The astral text: a prefix of x's, the marks, and pairs up to `target` units or one less. */
  function Astral(target: nat, prefix: nat, marks: seq<Mark>): Text {
    Built(Repeat([X], prefix), prefix, marks, EMOJI, 2) + Repeat(EMOJI, StepsTo(EndOf(prefix, marks), target - 1, 2))
  }

  lemma AstralEnds(target: nat, prefix: nat, marks: seq<Mark>)
    ensures var e, n := EndOf(prefix, marks), |Astral(target, prefix, marks)|;
            if e >= target - 1 then n == e else target - 1 <= n <= target
  {
    RepeatAt([X], prefix);
    RepeatAt(EMOJI, StepsTo(EndOf(prefix, marks), target - 1, 2));
    BuiltEnds(Repeat([X], prefix), marks, EMOJI);
  }

  lemma MarkStandsInAstral(target: nat, prefix: nat, marks: seq<Mark>, i: nat)
    requires i < |marks|
    ensures MarkStands(Astral(target, prefix, marks), prefix, marks, i)
  {
    var begin, n := Repeat([X], prefix), StepsTo(EndOf(prefix, marks), target - 1, 2);
    RepeatAt([X], prefix);
    EveryMarkStands(begin, marks, EMOJI, i);
    StandsInMore(Built(begin, prefix, marks, EMOJI, 2), Repeat(EMOJI, n), prefix, marks, i);
  }

  /** Every mark stands right before the unit where it ends; and the whole is the last mark's end, or
  `target` units or one less. */
  lemma AstralIsExact(target: nat, prefix: nat, marks: seq<Mark>)
    ensures forall i :: 0 <= i < |marks| ==> MarkStands(Astral(target, prefix, marks), prefix, marks, i)
    ensures var e, n := EndOf(prefix, marks), |Astral(target, prefix, marks)|;
            if e >= target - 1 then n == e else target - 1 <= n <= target
  {
    AstralEnds(target, prefix, marks);
    forall i | 0 <= i < |marks| ensures MarkStands(Astral(target, prefix, marks), prefix, marks, i) {
      MarkStandsInAstral(target, prefix, marks, i);
    }
  }

  method PairsTo(begin: Text, until: int) returns (s: Text)
    ensures s == begin + Repeat(EMOJI, StepsTo(|begin|, until, 2))
    ensures |s| == |begin| + 2 * StepsTo(|begin|, until, 2)
  {
    s := begin;
    ghost var n := 0;
    while |s| < until
      invariant s == begin + Repeat(EMOJI, n) && |s| == |begin| + 2 * n
      invariant n == 0 || |s| < until + 2
      decreases until - |s|
    {
      OneMoreFiller(begin, EMOJI, n);
      s := s + EMOJI;
      n := n + 1;
    }
  }

  method UnitsTo(begin: Text, until: int) returns (s: Text)
    ensures s == begin + Repeat([X], Most(until - |begin|, 0))
  {
    s := begin;
    ghost var n := 0;
    while |s| < until
      invariant s == begin + Repeat([X], n) && |s| == |begin| + n
      invariant n == 0 || |s| <= until
      decreases until - |s|
    {
      OneMoreFiller(begin, [X], n);
      s := s + [X];
      n := n + 1;
    }
  }

  method GrowAstral(target: nat, prefix: nat, marks: seq<Mark>) returns (s: Text)
    ensures s == Astral(target, prefix, marks)
  {
    s := Repeat([X], prefix);
    RepeatAt([X], prefix);
    ghost var begin := s;
    for i := 0 to |marks|
      invariant s == Built(begin, prefix, marks[..i], EMOJI, 2) && |s| == EndOf(prefix, marks[..i])
    {
      OneMoreMark(begin, prefix, marks, i, EMOJI, 2);
      s := PairsAndMark(s, marks[i], Gap(prefix, marks[..i + 1]));
    }
    assert marks[..|marks|] == marks;
    s := PairsTo(s, target - 1);
  }

  /** Pairs while two units fit, then an x, then the mark. */
  method PairsAndMark(begin: Text, m: Mark, ghost gap: nat) returns (s: Text)
    requires gap == Most(m.at, |begin| + |m.text|) - |begin| - |m.text|
    ensures s == begin + Fill(gap, EMOJI, 2) + m.text && |s| == |begin| + gap + |m.text|
  {
    s := PairsTo(begin, m.at - |m.text| - 1);
    ghost var a := StepsTo(|begin|, m.at - |m.text| - 1, 2);
    ghost var x := Most(m.at - |m.text| - |s|, 0);
    s := UnitsTo(s, m.at - |m.text|);
    Regroup(begin, Repeat(EMOJI, a), Repeat([X], x), m.text);
    RepeatAt([X], x);
    s := s + m.text;
  }

  // ----- where a cut splits a pair -----

  predicate Plain(s: Text) {
    forall i :: 0 <= i < |s| ==> !IsHigh(s[i]) && !IsLow(s[i])
  }

  /** In a run of pairs every second unit is a high surrogate, from the first one on. */
  lemma RunAlternates(before: Text, n: nat, after: Text, i: nat)
    requires i < 2 * n
    ensures var s := before + Repeat(EMOJI, n) + after;
            && |before| + i < |s|
            && (IsHigh(s[|before| + i]) <==> i % 2 == 0)
            && (IsLow(s[|before| + i]) <==> i % 2 == 1)
  {
    RepeatAt(EMOJI, n);
    assert (before + Repeat(EMOJI, n) + after)[|before| + i] == Repeat(EMOJI, n)[i];
  }

  lemma PairedTogether(s: Text, t: Text)
    requires Paired(s) && Paired(t)
    ensures Paired(s + t)
  {
    forall i | 0 <= i < |s + t| ensures PairedAt(s + t, i) {
      if i < |s| {
        assert PairedAt(s, i);
      } else {
        assert PairedAt(t, i - |s|);
      }
    }
  }

  lemma {:induction false} PairsArePaired(n: nat)
    ensures Paired(Repeat(EMOJI, n))
  {
    if n > 0 {
      PairsArePaired(n - 1);
      PairedTogether(Repeat(EMOJI, n - 1), EMOJI);
    }
  }

  lemma {:induction false} XsArePaired(n: nat)
    ensures Paired(Repeat([X], n))
  {
    RepeatAt([X], n);
  }

  lemma {:induction false} BuiltIsPaired(begin: Text, from: nat, marks: seq<Mark>)
    requires Paired(begin) && forall i :: 0 <= i < |marks| ==> Plain(marks[i].text)
    ensures Paired(Built(begin, from, marks, EMOJI, 2))
    decreases |marks|
  {
    if marks != [] {
      var n := |marks| - 1;
      var before, gap := Built(begin, from, marks[..n], EMOJI, 2), Gap(from, marks);
      BuiltIsPaired(begin, from, marks[..n]);
      PairsArePaired(gap / 2);
      XsArePaired(gap % 2);
      PairedTogether(Repeat(EMOJI, gap / 2), Repeat([X], gap % 2));
      PairedTogether(before, Fill(gap, EMOJI, 2));
      PairedTogether(before + Fill(gap, EMOJI, 2), marks[n].text);
    }
  }

  lemma AstralIsPaired(target: nat, prefix: nat, marks: seq<Mark>)
    requires forall i :: 0 <= i < |marks| ==> Plain(marks[i].text)
    ensures Paired(Astral(target, prefix, marks))
  {
    var begin, n := Repeat([X], prefix), StepsTo(EndOf(prefix, marks), target - 1, 2);
    XsArePaired(prefix);
    BuiltIsPaired(begin, prefix, marks);
    PairsArePaired(n);
    PairedTogether(Built(begin, prefix, marks, EMOJI, 2), Repeat(EMOJI, n));
  }

  /** The parity starts anew at each mark: in the fill before the last mark, the j-th unit after the mark
  before it is a high surrogate exactly when j is even, whatever the prefix was. */
  lemma ParityStartsAnew(target: nat, prefix: nat, marks: seq<Mark>, j: nat)
    requires marks != [] && j < 2 * (Gap(prefix, marks) / 2)
    ensures var s, e := Astral(target, prefix, marks), EndOf(prefix, marks[..|marks| - 1]);
            e + j < |s| && (IsHigh(s[e + j]) <==> j % 2 == 0) && (IsLow(s[e + j]) <==> j % 2 == 1)
  {
    var n := |marks| - 1;
    var begin, gap := Repeat([X], prefix), Gap(prefix, marks);
    var before := Built(begin, prefix, marks[..n], EMOJI, 2);
    var pairs, xs := Repeat(EMOJI, gap / 2), Repeat([X], gap % 2);
    var rest := Repeat(EMOJI, StepsTo(EndOf(prefix, marks), target - 1, 2));
    RepeatAt([X], prefix);
    BuiltEnds(begin, marks[..n], EMOJI);
    assert before + (pairs + xs) + marks[n].text + rest == before + pairs + (xs + marks[n].text + rest);
    RunAlternates(before, gap / 2, xs + marks[n].text + rest, j);
  }

  /** The second round's text that was to be split at 2048 is not: with marks that end at 40, 2000 and 2900,
  unit 2047 is a low surrogate for every prefix that fits, and a cut at 2048 leaves no lone surrogate. */
  lemma TheSecondRoundIsNotSplit(prefix: nat, marks: seq<Mark>)
    requires |marks| == 3 && marks[0].at == 40 && marks[1].at == 2000 && marks[2].at == 2900
    requires |marks[0].text| == 19 && |marks[1].text| == 19 && |marks[2].text| == 17 && prefix <= 21
    requires forall i :: 0 <= i < 3 ==> Plain(marks[i].text)
    ensures var s := Astral(3000, prefix, marks);
            |s| > 2048 && IsLow(s[2047]) && Paired(s[..2048])
  {
    assert Feasible(prefix, marks) by {
      assert Before(prefix, marks, 0) == prefix && Before(prefix, marks, 1) == 40 && Before(prefix, marks, 2) == 2000;
    }
    FeasibleEnds(prefix, marks, 1);
    FeasibleEnds(prefix, marks, 2);
    assert marks[..3] == marks;
    ParityStartsAnew(3000, prefix, marks, 47);
    ParityStartsAnew(3000, prefix, marks, 48);
    AstralIsPaired(3000, prefix, marks);
    CutsAPair(Astral(3000, prefix, marks), 2048);
  }

  /** The third round's text: a prefix and nothing but pairs, and a marker. */
  function Split(prefix: Text, until: nat, marker: Text): Text {
    prefix + Repeat(EMOJI, StepsTo(|prefix|, until, 2)) + marker
  }

  method GrowSplit(prefix: Text, until: nat, marker: Text) returns (s: Text)
    ensures s == Split(prefix, until, marker)
  {
    s := PairsTo(prefix, until);
    s := s + marker;
  }

  /** A cut inside its run of pairs leaves a lone surrogate exactly when it is an odd number of units after
  the prefix, which is also when the check on the unit before the cut finds a high surrogate. */
  lemma SplitAtOddDistance(prefix: Text, until: nat, marker: Text, k: nat)
    requires Plain(prefix) && Plain(marker) && |prefix| < k <= until
    ensures var s := Split(prefix, until, marker);
            && k <= |s|
            && (!Paired(s[..k]) <==> (k - |prefix|) % 2 == 1)
            && (IsHigh(s[k - 1]) <==> (k - |prefix|) % 2 == 1)
  {
    var n := StepsTo(|prefix|, until, 2);
    var s := Split(prefix, until, marker);
    RunAlternates(prefix, n, marker, k - 1 - |prefix|);
    PairsArePaired(n);
    PairedTogether(prefix, Repeat(EMOJI, n));
    PairedTogether(prefix + Repeat(EMOJI, n), marker);
    CutsAPair(s, k);
  }

  /** So its check passes and its cut at 2048 splits a pair for every prefix of odd length, of 21 units too. */
  lemma TheThirdRoundIsSplit(prefix: Text, marker: Text)
    requires Plain(prefix) && Plain(marker) && |prefix| < 2048
    ensures var s := Split(prefix, 2980, marker);
            && |s| > 2048
            && (IsHigh(s[2047]) <==> |prefix| % 2 == 1)
            && (!Paired(s[..2048]) <==> |prefix| % 2 == 1)
  {
    SplitAtOddDistance(prefix, 2980, marker, 2048);
    SplitAtOddDistance(prefix, 2980, marker, 2049);
  }

  /** It is the prefix, as many pairs as come up to `until` units, and the marker at its very end. */
  lemma SplitEndsInItsMarker(prefix: Text, until: nat, marker: Text)
    ensures var s, n := Split(prefix, until, marker), |Split(prefix, until, marker)| - |marker|;
      && n >= 0 && s[n..] == marker && s[..|prefix|] == prefix
      && (if |prefix| >= until then n == |prefix| else until <= n <= until + 1)
      && (forall i :: |prefix| <= i < n ==> s[i] == if (i - |prefix|) % 2 == 0 then 0xD83D else 0xDE00)
  {
    var pairs := Repeat(EMOJI, StepsTo(|prefix|, until, 2));
    RepeatAt(EMOJI, StepsTo(|prefix|, until, 2));
    var s := Split(prefix, until, marker);
    assert s == prefix + (pairs + marker);
    forall i | |prefix| <= i < |prefix| + |pairs| ensures s[i] == pairs[i - |prefix|] {
    }
  }

  /** The fill before a mark is as many whole fillers as fit and then less than one filler of x's. */
  lemma FillIsFillersFirst(gap: nat, filler: Text)
    requires filler != []
    ensures var fill, whole := Fill(gap, filler, |filler|), gap - gap % |filler|;
      && |fill| == gap
      && (forall i :: 0 <= i < whole ==> fill[i] == filler[i % |filler|])
      && (forall i :: whole <= i < gap ==> fill[i] == 'x' as int)
  {
    RepeatAt(filler, gap / |filler|);
    RepeatAt([X], gap % |filler|);
  }

  /** After its last mark the multi-byte text is em dashes alone. */
  lemma MultibyteEndsInDashes(marks: seq<Mark>, until: nat)
    ensures var n := UnitsAfter(marks, |marks|);
      && n <= |Multibyte(marks, until)|
      && forall i :: n <= i < |Multibyte(marks, until)| ==> Multibyte(marks, until)[i] == 0x2014
  {
    assert marks[..|marks|] == marks;
    RepeatAt(EMDASH, StepsTo(EndOf(0, marks), until, 3));
  }

  /** Before its first mark the astral text begins with its prefix, and after its last it is pairs alone. */
  lemma AstralEndsInPairs(target: nat, prefix: nat, marks: seq<Mark>)
    ensures var s, n := Astral(target, prefix, marks), EndOf(prefix, marks);
      && n <= |s|
      && forall i :: n <= i < |s| ==> s[i] == if (i - n) % 2 == 0 then 0xD83D else 0xDE00
  {
    RepeatAt([X], prefix);
    BuiltEnds(Repeat([X], prefix), marks, EMOJI);
    RepeatAt(EMOJI, StepsTo(EndOf(prefix, marks), target - 1, 2));
  }
}
