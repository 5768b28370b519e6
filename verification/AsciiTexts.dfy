/** Texts of an exact length whose markers are written over a repeated filler, in place.

A JavaScript array grows when an element past its end is written, and the elements in between stay holes
that `join` leaves out. A write at a negative index makes no element at all. */
module AsciiTexts {
  import opened Texts
  import opened Builders

  const HOLE: int := -1

  datatype Result = Ok(text: Text) | MarkerBeforeStart(i: nat)

  function Start(m: Mark): int {
    m.at - |m.text|
  }

  /** The filler, repeated and cut. */
  function Base(filler: Text, target: nat): (base: Text)
    requires filler != []
    ensures |base| == target && forall k :: 0 <= k < target ==> base[k] == filler[k % |filler|]
  {
    var n := (target + |filler| - 1) / |filler| + 2;
    RepeatAt(filler, n);
    Enough(target, |filler|);
    Repeat(filler, n)[..target]
  }

  lemma Enough(target: nat, d: nat)
    requires d > 0
    ensures target <= ((target + d - 1) / d + 2) * d
  {
    var q := (target + d - 1) / d;
    assert target + d - 1 == d * q + (target + d - 1) % d;
    assert (q + 2) * d == d * q + 2 * d;
  }

  /** What the k-th element is after the marks were written one after the other: of the last mark that
  covers it, or of the base, or a hole. */
  function Cell(base: Text, marks: seq<Mark>, k: nat): int {
    if marks == [] then (if k < |base| then base[k] else HOLE)
    else
      var m := marks[|marks| - 1];
      if Start(m) <= k < m.at then m.text[k - Start(m)] else Cell(base, marks[..|marks| - 1], k)
  }

  /** The array's length at the end. */
  function Length(base: Text, marks: seq<Mark>): (n: nat)
    ensures n >= |base| && forall i :: 0 <= i < |marks| && marks[i].text != [] ==> marks[i].at <= n
  {
    if marks == [] then |base|
    else
      var m, n := marks[|marks| - 1], Length(base, marks[..|marks| - 1]);
      assert forall i :: 0 <= i < |marks| - 1 ==> marks[..|marks| - 1][i] == marks[i];
      if m.text != [] && m.at > n then m.at else n
  }

  function Join(cells: seq<int>): Text {
    if cells == [] then []
    else (if cells[0] == HOLE then [] else [cells[0]]) + Join(cells[1..])
  }

  function Cells(base: Text, marks: seq<Mark>): seq<int> {
    seq(Length(base, marks), k requires 0 <= k => Cell(base, marks, k))
  }

  function Patched(filler: Text, target: nat, marks: seq<Mark>): Text
    requires filler != []
  {
    Join(Cells(Base(filler, target), marks))
  }

  // ----- the builder -----

  /** Both builders: the first one checks that each marker begins inside the text, the second does not. */
  method Ascii(filler: Text, target: nat, marks: seq<Mark>, checks: bool) returns (r: Result)
    requires filler != []
    ensures r.Ok? <==> !checks || forall i :: 0 <= i < |marks| ==> Start(marks[i]) >= 0
    ensures r.Ok? ==> r.text == Patched(filler, target, marks)
    ensures r.MarkerBeforeStart? ==>
      r.i < |marks| && Start(marks[r.i]) < 0 && forall i :: 0 <= i < r.i ==> Start(marks[i]) >= 0
  {
    var base := Base(filler, target);
    var n := Length(base, marks);
    var arr := new int[n](k requires 0 <= k < n => if k < |base| then base[k] else HOLE);
    for i := 0 to |marks|
      invariant forall k :: 0 <= k < n ==> arr[k] == Cell(base, marks[..i], k)
      invariant checks ==> forall j :: 0 <= j < i ==> Start(marks[j]) >= 0
    {
      if checks && Start(marks[i]) < 0 {
        return MarkerBeforeStart(i);
      }
      assert marks[..i + 1][..i] == marks[..i];
      Write(arr, marks[i]);
    }
    assert marks[..|marks|] == marks;
    assert arr[..] == Cells(base, marks);
    return Ok(Join(arr[..]));
  }

  method Write(arr: array<int>, m: Mark)
    requires m.text != [] ==> m.at <= arr.Length
    modifies arr
    ensures forall k :: 0 <= k < arr.Length ==>
      arr[k] == if Start(m) <= k < m.at then m.text[k - Start(m)] else old(arr[k])
  {
    var start := Start(m);
    for i := 0 to |m.text|
      invariant forall k :: 0 <= k < arr.Length ==>
        arr[k] == if start <= k < start + i then m.text[k - start] else old(arr[k])
    {
      if start + i >= 0 {
        arr[start + i] := m.text[i];
      }
    }
  }

  // ----- what it promises -----

  ghost predicate IsText(s: seq<int>) {
    forall i :: 0 <= i < |s| ==> s[i] != HOLE
  }

  lemma {:induction false} NoHoles(cells: seq<int>)
    requires IsText(cells)
    ensures Join(cells) == cells
    decreases |cells|
  {
    if cells != [] {
      NoHoles(cells[1..]);
    }
  }

  /** Every mark lies inside the text, and no two overlap. */
  ghost predicate Fits(marks: seq<Mark>, target: nat) {
    && (forall i :: 0 <= i < |marks| ==> 0 <= Start(marks[i]) && marks[i].at <= target && IsText(marks[i].text))
    && (forall i, j :: 0 <= i < j < |marks| ==> marks[i].at <= Start(marks[j]) || marks[j].at <= Start(marks[i]))
  }

  ghost predicate Covers(m: Mark, k: int) {
    Start(m) <= k < m.at
  }

  lemma {:induction false} CellIs(base: Text, marks: seq<Mark>, k: nat)
    requires Fits(marks, |base|) && k < |base|
    ensures forall i :: 0 <= i < |marks| && Covers(marks[i], k) ==>
      Cell(base, marks, k) == marks[i].text[k - Start(marks[i])]
    ensures (forall i :: 0 <= i < |marks| ==> !Covers(marks[i], k)) ==> Cell(base, marks, k) == base[k]
    ensures IsText(base) ==> Cell(base, marks, k) != HOLE
    decreases |marks|
  {
    if marks != [] {
      var n := |marks| - 1;
      assert marks[..n] + [marks[n]] == marks;
      CellIs(base, marks[..n], k);
      forall i | 0 <= i < n ensures marks[..n][i] == marks[i] {
      }
    }
  }

  lemma {:induction false} LengthIs(base: Text, marks: seq<Mark>)
    requires Fits(marks, |base|)
    ensures Length(base, marks) == |base|
    decreases |marks|
  {
    if marks != [] {
      LengthIs(base, marks[..|marks| - 1]);
    }
  }

  /** With marks that fit, the text has exactly the length asked for, every marker ends exactly at its
  offset, and all the rest is filler. */
  lemma AsciiIsExact(filler: Text, target: nat, marks: seq<Mark>)
    requires filler != [] && IsText(filler) && Fits(marks, target)
    ensures var s := Patched(filler, target, marks);
            && |s| == target
            && (forall i :: 0 <= i < |marks| ==> s[Start(marks[i])..marks[i].at] == marks[i].text)
            && (forall k :: 0 <= k < target && (forall i :: 0 <= i < |marks| ==> !Covers(marks[i], k)) ==>
                  s[k] == filler[k % |filler|])
  {
    var base := Base(filler, target);
    var cells := Cells(base, marks);
    LengthIs(base, marks);
    forall k | 0 <= k < target ensures cells[k] == Cell(base, marks, k) && cells[k] != HOLE {
      CellIs(base, marks, k);
    }
    NoHoles(cells);
    forall i | 0 <= i < |marks| ensures cells[Start(marks[i])..marks[i].at] == marks[i].text {
      forall k | Start(marks[i]) <= k < marks[i].at ensures cells[k] == marks[i].text[k - Start(marks[i])] {
        CellIs(base, marks, k);
        assert Covers(marks[i], k);
      }
    }
    forall k | 0 <= k < target && (forall i :: 0 <= i < |marks| ==> !Covers(marks[i], k))
      ensures cells[k] == filler[k % |filler|]
    {
      CellIs(base, marks, k);
    }
  }

  ghost predicate Stands(s: Text, m: Mark) {
    0 <= Start(m) && m.at <= |s| && s[Start(m)..m.at] == m.text
  }

  lemma {:induction false} JoinOfTwo(a: seq<int>, b: seq<int>)
    ensures Join(a + b) == Join(a) + Join(b)
    decreases |a|
  {
    if a == [] {
      assert a + b == b;
    } else {
      assert (a + b)[1..] == a[1..] + b;
      JoinOfTwo(a[1..], b);
    }
  }

  lemma {:induction false} JoinOfHoles(n: nat)
    ensures Join(seq(n, i => HOLE)) == []
    decreases n
  {
    if n > 0 {
      assert seq(n, i => HOLE)[1..] == seq(n - 1, i => HOLE);
      JoinOfHoles(n - 1);
    }
  }

  /** Written past the end, a marker makes holes before it, which close up again. */
  lemma PastTheEnd(filler: Text, target: nat, m: Mark)
    requires filler != [] && IsText(filler) && m.text != [] && IsText(m.text) && Start(m) > target
    ensures Patched(filler, target, [m]) == Base(filler, target) + m.text
  {
    var base := Base(filler, target);
    var holes := seq(Start(m) - target, i => HOLE);
    OneMarkCells(base, m);
    assert Cells(base, [m]) == base + (holes + m.text);
    JoinOfTwo(base, holes + m.text);
    JoinOfTwo(holes, m.text);
    JoinOfHoles(Start(m) - target);
    NoHoles(base);
    NoHoles(m.text);
  }

  lemma OneMarkCells(base: Text, m: Mark)
    ensures |Cells(base, [m])| == if m.text != [] && m.at > |base| then m.at else |base|
    ensures forall k :: 0 <= k < |Cells(base, [m])| ==>
              Cells(base, [m])[k] == if Covers(m, k) then m.text[k - Start(m)] else if k < |base| then base[k] else HOLE
  {
    assert [m][..0] == [];
    assert Length(base, []) == |base|;
    forall k: nat
      ensures Cell(base, [m], k)
           == if Covers(m, k) then m.text[k - Start(m)] else if k < |base| then base[k] else HOLE
    {
      assert Cell(base, [], k) == if k < |base| then base[k] else HOLE;
    }
  }

  /** A marker of its own ends exactly at its offset if and only if it begins inside the text or right at
  its end. The first builder checks one half of this, the second none. */
  lemma OneMarkStandsExactly(filler: Text, target: nat, m: Mark)
    requires filler != [] && IsText(filler) && m.text != [] && IsText(m.text)
    ensures Stands(Patched(filler, target, [m]), m) <==> 0 <= Start(m) <= target
  {
    var base := Base(filler, target);
    if Start(m) > target {
      PastTheEnd(filler, target, m);
    } else if Start(m) >= 0 {
      OneMarkCells(base, m);
      var cells := Cells(base, [m]);
      NoHoles(cells);
      forall k | Start(m) <= k < m.at ensures cells[k] == m.text[k - Start(m)] {
        assert Covers(m, k);
      }
    }
  }

  /** Where marks overlap, the last one that covers an element decides it, whatever the others are. */
  lemma {:induction false} TheLastMarkDecides(base: Text, marks: seq<Mark>, i: nat, k: nat)
    requires i < |marks| && Covers(marks[i], k)
    requires forall j :: i < j < |marks| ==> !Covers(marks[j], k)
    ensures Cell(base, marks, k) == marks[i].text[k - Start(marks[i])]
    decreases |marks|
  {
    var n := |marks| - 1;
    if i < n {
      assert marks[..n][i] == marks[i];
      TheLastMarkDecides(base, marks[..n], i, k);
    }
  }
}
