/** Texts as a JavaScript string holds them, a sequence of UTF-16 code units, and their bytes in UTF-8. */
module Texts {
  type Text = seq<int>

  predicate IsHigh(u: int) {
    0xD800 <= u < 0xDC00
  }

  predicate IsLow(u: int) {
    0xDC00 <= u < 0xE000
  }

  predicate IsAscii(s: Text) {
    forall i :: 0 <= i < |s| ==> 0 <= s[i] < 0x80
  }

  predicate PairedAt(s: Text, i: nat)
    requires i < |s|
  {
    && (IsHigh(s[i]) ==> i + 1 < |s| && IsLow(s[i + 1]))
    && (IsLow(s[i]) ==> i > 0 && IsHigh(s[i - 1]))
  }

  /** No surrogate stands alone. */
  predicate Paired(s: Text) {
    forall i :: 0 <= i < |s| ==> PairedAt(s, i)
  }

  /** A cut of a paired text leaves a lone surrogate exactly when the unit before it is a high one. */
  lemma CutsAPair(s: Text, k: nat)
    requires Paired(s) && k <= |s|
    ensures Paired(s[..k]) <==> k == 0 || !IsHigh(s[k - 1])
  {
    var c := s[..k];
    if k > 0 && IsHigh(s[k - 1]) {
      assert !PairedAt(c, k - 1);
    } else {
      forall i | 0 <= i < k ensures PairedAt(c, i) {
        assert PairedAt(s, i);
      }
    }
  }

  // ----- UTF-8 -----

  /** The bytes of one unit that is no half of a pair; a lone surrogate becomes U+FFFD. */
  function UnitBytes(u: int): seq<int> {
    if u < 0x80 then [u]
    else if u < 0x800 then [0xC0 + u / 0x40, 0x80 + u % 0x40]
    else if IsHigh(u) || IsLow(u) then [0xEF, 0xBF, 0xBD]
    else [0xE0 + u / 0x1000, 0x80 + u / 0x40 % 0x40, 0x80 + u % 0x40]
  }

  function PairBytes(high: int, low: int): seq<int> {
    var c := 0x1_0000 + (high - 0xD800) * 0x400 + (low - 0xDC00);
    [0xF0 + c / 0x4_0000, 0x80 + c / 0x1000 % 0x40, 0x80 + c / 0x40 % 0x40, 0x80 + c % 0x40]
  }

  ghost predicate Continues(b: int) {
    0x80 <= b < 0xC0
  }

  /** The bytes of a unit that is no surrogate give its code point back, in the shortest form. */
  lemma UnitBytesAreUtf8(u: int)
    requires 0 <= u < 0x1_0000 && !IsHigh(u) && !IsLow(u)
    ensures var b := UnitBytes(u);
      if u <= 0x7F then b == [u]
      else if u <= 0x7FF then
        |b| == 2 && 0xC2 <= b[0] < 0xE0 && Continues(b[1]) && (b[0] - 0xC0) * 0x40 + (b[1] - 0x80) == u
      else
        && |b| == 3 && 0xE0 <= b[0] < 0xF0 && Continues(b[1]) && Continues(b[2])
        && (b[0] - 0xE0) * 0x1000 + (b[1] - 0x80) * 0x40 + (b[2] - 0x80) == u
  {
  }

  lemma Digits(c: int)
    ensures c == c / 0x40 * 0x40 + c % 0x40
    ensures c / 0x40 / 0x40 == c / 0x1000 && c / 0x1000 / 0x40 == c / 0x4_0000
  {
  }

  /** The bytes of a pair are four and give its code point back. */
  lemma PairBytesAreUtf8(high: int, low: int)
    requires IsHigh(high) && IsLow(low)
    ensures var b, c := PairBytes(high, low), 0x1_0000 + (high - 0xD800) * 0x400 + (low - 0xDC00);
      && |b| == 4 && 0xF0 <= b[0] <= 0xF4 && Continues(b[1]) && Continues(b[2]) && Continues(b[3])
      && (b[0] - 0xF0) * 0x4_0000 + (b[1] - 0x80) * 0x1000 + (b[2] - 0x80) * 0x40 + (b[3] - 0x80) == c
  {
    var c := 0x1_0000 + (high - 0xD800) * 0x400 + (low - 0xDC00);
    Digits(c);
    Digits(c / 0x40);
    Digits(c / 0x1000);
  }

  predicate BeginsPair(s: Text) {
    |s| > 1 && IsHigh(s[0]) && IsLow(s[1])
  }

  function Utf8(s: Text): seq<int> {
    if s == [] then []
    else if BeginsPair(s) then PairBytes(s[0], s[1]) + Utf8(s[2..])
    else UnitBytes(s[0]) + Utf8(s[1..])
  }

  /** A pair at the front gives its four bytes, and a lone surrogate those of U+FFFD. */
  lemma SurrogatesAreUtf8(high: int, low: int, t: Text)
    requires IsHigh(high) && IsLow(low)
    ensures Utf8([high, low] + t) == PairBytes(high, low) + Utf8(t)
    ensures Utf8([low] + t) == [0xEF, 0xBF, 0xBD] + Utf8(t)
    ensures t == [] || !IsLow(t[0]) ==> Utf8([high] + t) == [0xEF, 0xBF, 0xBD] + Utf8(t)
  {
    assert ([high, low] + t)[2..] == t && ([low] + t)[1..] == t && ([high] + t)[1..] == t;
  }

  /** How many bytes a text is. */
  function B(s: Text): nat {
    |Utf8(s)|
  }

  /** The two texts' units at the seam are no pair. */
  predicate Apart(s: Text, t: Text) {
    s == [] || t == [] || !IsHigh(s[|s| - 1]) || !IsLow(t[0])
  }

  /** The first bytes of two texts joined are those of the first one. */
  lemma FirstBytes(s: Text, t: Text)
    requires s != [] && Apart(s, t)
    ensures (s + t)[0] == s[0] && (BeginsPair(s + t) <==> BeginsPair(s))
    ensures if BeginsPair(s) then (s + t)[1] == s[1] && (s + t)[2..] == s[2..] + t else (s + t)[1..] == s[1..] + t
  {
    assert |s| == 1 && t != [] ==> (s + t)[1] == t[0];
    assert |s| > 1 ==> (s + t)[1] == s[1];
  }

  lemma Associate(a: seq<int>, b: seq<int>, c: seq<int>)
    ensures a + (b + c) == a + b + c
  {
  }

  /** Bytes of two texts joined, when no pair is joined. */
  lemma {:induction false} Utf8OfTwo(s: Text, t: Text)
    requires Apart(s, t)
    ensures Utf8(s + t) == Utf8(s) + Utf8(t)
    decreases |s|
  {
    if s == [] {
      assert s + t == t;
    } else {
      FirstBytes(s, t);
      if BeginsPair(s) {
        Utf8OfTwo(s[2..], t);
        Associate(PairBytes(s[0], s[1]), Utf8(s[2..]), Utf8(t));
      } else {
        Utf8OfTwo(s[1..], t);
        Associate(UnitBytes(s[0]), Utf8(s[1..]), Utf8(t));
      }
    }
  }

  lemma {:induction false} Utf8OfAscii(s: Text)
    requires IsAscii(s)
    ensures Utf8(s) == s
    decreases |s|
  {
    if s != [] {
      Utf8OfAscii(s[1..]);
    }
  }

  // ----- repetition -----

  function Repeat(s: Text, n: nat): Text {
    if n == 0 then [] else Repeat(s, n - 1) + s
  }

  lemma {:induction false} RepeatAt(s: Text, n: nat)
    requires s != []
    ensures |Repeat(s, n)| == n * |s|
    ensures forall i :: 0 <= i < n * |s| ==> Repeat(s, n)[i] == s[i % |s|]
  {
    if n > 0 {
      var before := Repeat(s, n - 1);
      RepeatAt(s, n - 1);
      assert n * |s| == (n - 1) * |s| + |s|;
      forall i | 0 <= i < n * |s| ensures Repeat(s, n)[i] == s[i % |s|] {
        if i >= |before| {
          Remainder(i - |before|, n - 1, |s|);
        }
      }
    }
  }

  lemma Multiple(d: nat, k: int)
    requires d > 0 && k != 0
    ensures d * k >= d || d * k <= 0 - d
  {
    if k > 0 {
      assert d * (k - 1) >= 0;
    } else {
      assert d * (-k - 1) >= 0;
    }
  }

  lemma Remainder(r: nat, q: nat, d: nat)
    requires r < d
    ensures (r + q * d) % d == r
  {
    var n := r + q * d;
    assert d * (q - n / d) == n % d - r;
    if q != n / d {
      Multiple(d, q - n / d);
    }
  }

  lemma {:induction false} Utf8OfRepeat(s: Text, n: nat)
    requires s != [] && !IsLow(s[0])
    ensures Utf8(Repeat(s, n)) == Repeat(Utf8(s), n)
  {
    if n > 0 {
      Utf8OfRepeat(s, n - 1);
      Utf8OfTwo(Repeat(s, n - 1), s);
    }
  }
}
