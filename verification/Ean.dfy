// The barcode test of api/routes/catalog_discovery.py: GTIN length and check digit
// (GS1 General Specifications section 7.9).

module Ean {

  type digit = n: int | 0 <= n < 10

  /** The code as digits, after strip(); the pattern admits four lengths. */
  predicate IsSearchable(code: seq<digit>) {
    && |code| in {8, 12, 13, 14}
    && CheckDigit(code[..|code| - 1]) == code[|code| - 1]
  }

  /** The body's digits weighted 3, 1, 3, .. from the right, rounded up to a multiple of ten. */
  function CheckDigit(body: seq<digit>): digit {
    (10 - Weighted(body, 3) % 10) % 10
  }

  /** Weighted sum from the right, starting with weight `w`, alternating with 4 - w. */
  function Weighted(s: seq<digit>, w: int): int {
    if s == [] then 0 else w * s[|s| - 1] + Weighted(s[..|s| - 1], 4 - w)
  }

  /** The checksum test without the length test. */
  predicate Valid(code: seq<digit>) {
    code != [] && CheckDigit(code[..|code| - 1]) == code[|code| - 1]
  }

  /** A code is valid exactly when its full weighted sum is a multiple of ten. */
  lemma ValidMeaning(code: seq<digit>)
    requires code != []
    ensures Valid(code) <==> Weighted(code, 1) % 10 == 0
  {
    var t, c := Weighted(code[..|code| - 1], 3), code[|code| - 1];
    assert (10 - t % 10) % 10 == c <==> (c + t) % 10 == 0 by { Complement(t, c); }
  }

  lemma Complement(t: int, c: digit)
    ensures (10 - t % 10) % 10 == c <==> (c + t) % 10 == 0
  {
    var q, r := t / 10, t % 10;
    assert t == 10 * q + r;
    assert (c + t) % 10 == (c + r) % 10;
  }

  /** Exactly one check digit completes a body. */
  lemma OneCheckDigit(body: seq<digit>)
    ensures exists c: digit :: Valid(body + [c])
    ensures forall c: digit, d: digit :: Valid(body + [c]) && Valid(body + [d]) ==> c == d
  {
    forall c: digit ensures Valid(body + [c]) <==> c == CheckDigit(body) {
      assert (body + [c])[..|body|] == body;
    }
    assert Valid(body + [CheckDigit(body)]);
  }

  /** The weight of position i of n digits: 1 on the last, alternating. */
  function Weight(n: nat, i: nat): int
    requires i < n
  {
    if (n - i) % 2 == 1 then 1 else 3
  }

  lemma {:induction false} ChangeOfOneDigit(s: seq<digit>, i: nat, d: digit, w: int)
    requires i < |s| && (w == 1 || w == 3)
    ensures Weighted(s[i := d], w) - Weighted(s, w) == (if w == 1 then Weight(|s|, i) else 4 - Weight(|s|, i)) * (d - s[i])
  {
    var n := |s| - 1;
    if i < n {
      ChangeOfOneDigit(s[..n], i, d, 4 - w);
      assert s[i := d][..n] == s[..n][i := d];
    } else {
      assert s[i := d][..n] == s[..n];
    }
  }

  /** Every single-digit change is caught. */
  lemma SingleChangeIsCaught(code: seq<digit>, i: nat, d: digit)
    requires i < |code| && Valid(code) && d != code[i]
    ensures !Valid(code[i := d])
  {
    ValidMeaning(code);
    ValidMeaning(code[i := d]);
    ChangeOfOneDigit(code, i, d, 1);
    var w, e := Weight(|code|, i), d - code[i];
    assert Weighted(code[i := d], 1) == Weighted(code, 1) + w * e;
    NotATen(w, e);
    SumDivides(Weighted(code, 1), w * e);
  }

  lemma NotATen(w: int, e: int)
    requires (w == 1 || w == 3) && -10 < e < 10 && e != 0
    ensures (w * e) % 10 != 0
  {
    if w == 1 { assert w * e == e; } else { assert w * e == 3 * e; }
  }

  /** Adding to a multiple of ten gives one exactly when the summand is one. */
  lemma SumDivides(a: int, b: int)
    requires a % 10 == 0
    ensures (a + b) % 10 == 0 <==> b % 10 == 0
  {
    assert a == 10 * (a / 10);
  }

  function Swapped(s: seq<digit>, i: nat): seq<digit>
    requires i + 1 < |s|
  {
    s[i := s[i + 1]][i + 1 := s[i]]
  }

  /** A swap of neighbours goes unnoticed exactly when the two digits are congruent modulo five. */
  lemma SwapIsMissedExactly(code: seq<digit>, i: nat)
    requires i + 1 < |code| && Valid(code)
    ensures Valid(Swapped(code, i)) <==> code[i] % 5 == code[i + 1] % 5
  {
    var a, b := code[i], code[i + 1];
    ValidMeaning(code);
    ValidMeaning(Swapped(code, i));
    ChangeOfOneDigit(code, i, b, 1);
    ChangeOfOneDigit(code[i := b], i + 1, a, 1);
    var w := Weight(|code|, i);
    assert Weight(|code|, i + 1) == 4 - w;
    SwapShifts(w, a, b);
    var gap: int := a as int - b as int;
    var e := if w == 1 then 2 * gap else -2 * gap;
    assert Weighted(Swapped(code, i), 1) == Weighted(code, 1) + e;
    SumDivides(Weighted(code, 1), e);
  }

  lemma SwapShifts(w: int, a: int, b: int)
    requires w == 1 || w == 3
    ensures var e := if w == 1 then 2 * (a - b) else 2 * (b - a);
      w * (b - a) + (4 - w) * (a - b) == e && (e % 10 == 0 <==> a % 5 == b % 5)
  {
    if w == 1 {
      assert w * (b - a) == b - a && (4 - w) * (a - b) == 3 * (a - b);
    } else {
      assert w * (b - a) == 3 * (b - a) && (4 - w) * (a - b) == a - b;
    }
  }

  lemma {:induction false} ZeroInFront(s: seq<digit>, w: int)
    ensures Weighted([0] + s, w) == Weighted(s, w)
  {
    if s != [] {
      var n := |s| - 1;
      ZeroInFront(s[..n], 4 - w);
      assert ([0] + s)[..n + 1] == [0] + s[..n];
    } else {
      assert [0] + s == [0];
    }
  }

  /** Leading zeros change nothing: a 12-digit code, its 13- and its 14-digit form are searchable together. */
  lemma LeadingZeros(code: seq<digit>)
    requires code != []
    ensures Valid([0] + code) == Valid(code)
    ensures |code| == 12 || |code| == 13 ==> IsSearchable([0] + code) == IsSearchable(code)
  {
    ValidMeaning(code);
    ValidMeaning([0] + code);
    ZeroInFront(code, 1);
  }

  /** The test as the source writes it: pop the check digit, sum the rest reversed. */
  method IsSearchableEan(code: seq<digit>) returns (ok: bool)
    ensures ok == IsSearchable(code)
  {
    if |code| !in {8, 12, 13, 14} { return false; }
    var checkDigit := code[|code| - 1];
    var digits := code[..|code| - 1];
    var total: int := 0;
    assert digits[..|digits| - 0] == digits;
    for index := 0 to |digits|
      invariant total + Weighted(digits[..|digits| - index], if index % 2 == 0 then 3 else 1) == Weighted(digits, 3)
    {
      var rest := digits[..|digits| - index];
      assert rest[|rest| - 1] == digits[|digits| - 1 - index];
      assert rest[..|rest| - 1] == digits[..|digits| - index - 1];
      var weight: int := if index % 2 == 0 then 3 else 1;
      total := total + weight * digits[|digits| - 1 - index];
    }
    return (10 - total % 10) % 10 == checkDigit;
  }
}
