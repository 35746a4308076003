/**
  The check on card numbers (Annex B of ISO/IEC 7812-1).
  Source: agentmem/src/lians/admission.py, `_luhn_ok`.
*/
module Luhn {
  import opened Prelude

  /** Digits only, each below ten. */
  predicate AllDigits(s: seq<nat>) {
    forall i :: 0 <= i < |s| ==> s[i] < 10
  }

  /** The digits of a text; everything else is skipped. */
  function Digits(text: string): (s: seq<nat>)
    ensures AllDigits(s)
  {
    if text == "" then []
    else
      var init, c := text[..|text| - 1], text[|text| - 1];
      if '0' <= c <= '9' then Digits(init) + [(c - '0') as nat] else Digits(init)
  }

  /** The digits are read character by character; */
  lemma {:induction false} DigitsConcat(a: string, b: string)
    ensures Digits(a + b) == Digits(a) + Digits(b)
    decreases |b|
  {
    if b == "" {
      assert a + b == a;
    } else {
      var init, last := b[..|b| - 1], b[|b| - 1];
      DigitsConcat(a, init);
      assert (a + b)[..|a + b| - 1] == a + init && (a + b)[|a + b| - 1] == last;
    }
  }

  /** ten of them count, by their value, and the others are skipped. */
  lemma DigitsOne(c: char)
    ensures Digits([c]) == match c
                           case '0' => [0] case '1' => [1] case '2' => [2] case '3' => [3] case '4' => [4]
                           case '5' => [5] case '6' => [6] case '7' => [7] case '8' => [8] case '9' => [9]
                           case _ => []
  {
    assert [c][..0] == "";
  }

  /** A digit's share of the total: every second digit, counted from the check digit, is doubled. */
  function Share(d: nat, doubled: bool): nat {
    if !doubled then d else if 2 * d > 9 then 2 * d - 9 else 2 * d
  }

  predicate Doubled(s: seq<nat>, i: nat) {
    i % 2 == |s| % 2
  }

  /** The total over the first `n` digits. */
  function TotalTo(s: seq<nat>, n: nat): nat
    requires n <= |s|
  {
    if n == 0 then 0 else TotalTo(s, n - 1) + Share(s[n - 1], Doubled(s, n - 1))
  }

  predicate Accepted(s: seq<nat>) {
    13 <= |s| <= 16 && TotalTo(s, |s|) % 10 == 0
  }

  method LuhnOk(text: string) returns (ok: bool)
    ensures ok <==> Accepted(Digits(text))
  {
    var s: seq<nat> := [];
    for i := 0 to |text|
      invariant s == Digits(text[..i])
    {
      assert text[..i + 1][..i] == text[..i];
      if '0' <= text[i] <= '9' {
        s := s + [(text[i] - '0') as nat];
      }
    }
    assert text[..|text|] == text;
    if !(13 <= |s| <= 16) {
      return false;
    }
    var total, parity := 0, |s| % 2;
    for i := 0 to |s|
      invariant total == TotalTo(s, i)
    {
      var d := s[i];
      if i % 2 == parity {
        d := d * 2;
        if d > 9 {
          d := d - 9;
        }
      }
      total := total + d;
    }
    return total % 10 == 0;
  }

  /** What a change of one digit adds to the total. */
  function Change(s: seq<nat>, k: nat, d: nat): int
    requires k < |s|
  {
    Share(d, Doubled(s, k)) - Share(s[k], Doubled(s, k))
  }

  /** The total changes by the changed digit's share alone. */
  lemma {:induction false} ChangeOne(s: seq<nat>, k: nat, d: nat, n: nat)
    requires k < |s| && n <= |s|
    ensures TotalTo(s[k := d], n) == TotalTo(s, n) + if k < n then Change(s, k, d) else 0
  {
    if n > 0 {
      ChangeOne(s, k, d, n - 1);
    }
  }

  lemma ChangeTwo(s: seq<nat>, k: nat, a: nat, b: nat)
    requires k + 1 < |s|
    ensures TotalTo(s[k := a][k + 1 := b], |s|) == TotalTo(s, |s|) + Change(s, k, a) + Change(s, k + 1, b)
  {
    ChangeOne(s, k, a, |s|);
    ChangeOne(s[k := a], k + 1, b, |s|);
  }

  lemma Alternates(s: seq<nat>, k: nat)
    ensures Doubled(s, k + 1) <==> !Doubled(s, k)
  {
  }

  /** Doubling and casting out nines permutes the digits. */
  lemma ShareInjective(a: nat, b: nat, doubled: bool)
    requires a < 10 && b < 10 && a != b
    ensures (Share(a, doubled) - Share(b, doubled)) % 10 != 0
  {
    var gap := Share(a, doubled) - Share(b, doubled);
    assert -9 <= gap <= 9 && gap != 0;
  }

  lemma NotBothMultiples(x: int, y: int)
    requires (x - y) % 10 != 0
    ensures !(x % 10 == 0 && y % 10 == 0)
  {
  }

  /** Any error in a single digit of an accepted number is detected. */
  lemma SingleErrorDetected(s: seq<nat>, k: nat, d: nat)
    requires Accepted(s) && AllDigits(s) && k < |s| && d < 10 && d != s[k]
    ensures !Accepted(s[k := d])
  {
    ChangeOne(s, k, d, |s|);
    ShareInjective(d, s[k], Doubled(s, k));
    NotBothMultiples(TotalTo(s[k := d], |s|), TotalTo(s, |s|));
  }

  function Swapped(s: seq<nat>, k: nat): seq<nat>
    requires k + 1 < |s|
  {
    s[k := s[k + 1]][k + 1 := s[k]]
  }

  /** What a swap of neighbours adds to the total. */
  function SwapGap(a: nat, b: nat, doubled: bool): int {
    Share(b, doubled) - Share(a, doubled) + Share(a, !doubled) - Share(b, !doubled)
  }

  lemma SwapGapZeroIff(a: nat, b: nat, doubled: bool)
    requires a < 10 && b < 10
    ensures SwapGap(a, b, doubled) % 10 == 0 <==> a == b || {a, b} == {0, 9}
  {
    var excessA, excessB := Share(a, true) - a, Share(b, true) - b;
    assert -4 <= excessA <= 4 && -4 <= excessB <= 4;
    assert excessA == excessB <==> a == b || {a, b} == {0, 9};
    assert SwapGap(a, b, doubled) == if doubled then excessB - excessA else excessA - excessB;
  }

  /** A swap of neighbouring digits goes unnoticed exactly for equal digits, and for 0 and 9. */
  lemma SwapUnnoticedIff(s: seq<nat>, k: nat)
    requires Accepted(s) && AllDigits(s) && k + 1 < |s|
    ensures Accepted(Swapped(s, k)) <==> s[k] == s[k + 1] || {s[k], s[k + 1]} == {0, 9}
  {
    var gap := SwapGap(s[k], s[k + 1], Doubled(s, k));
    SwappedTotal(s, k);
    SwapGapZeroIff(s[k], s[k + 1], Doubled(s, k));
    SumOfMultiple(TotalTo(s, |s|), gap);
  }

  lemma SwappedTotal(s: seq<nat>, k: nat)
    requires k + 1 < |s|
    ensures TotalTo(Swapped(s, k), |s|) == TotalTo(s, |s|) + SwapGap(s[k], s[k + 1], Doubled(s, k))
  {
    ChangeTwo(s, k, s[k + 1], s[k]);
    Alternates(s, k);
  }

  lemma SumOfMultiple(x: int, y: int)
    requires x % 10 == 0
    ensures (x + y) % 10 == 0 <==> y % 10 == 0
  {
  }

  /** What replacing a pair `aa` by `bb` adds to the total. */
  lemma TwinGapZeroIff(a: nat, b: nat)
    requires a < 10 && b < 10
    ensures (Share(b, true) + b - Share(a, true) - a) % 10 == 0
            <==> a == b || {a, b} == {2, 5} || {a, b} == {3, 6} || {a, b} == {4, 7}
  {
    var x, y := Share(a, true) + a, Share(b, true) + b;
    assert 0 <= x <= 18 && 0 <= y <= 18;
    assert (y - x) % 10 == 0 <==> y - x == 0 || y - x == 10 || y - x == -10;
    assert x == if a < 5 then 3 * a else 3 * a - 9;
    assert y == if b < 5 then 3 * b else 3 * b - 9;
    if a < 5 && b >= 5 {
      assert y - x == 3 * (b - a) - 9;
      assert {a, b} == {2, 5} <==> a == 2 && b == 5;
      assert {a, b} == {3, 6} <==> a == 3 && b == 6;
      assert {a, b} == {4, 7} <==> a == 4 && b == 7;
    } else if a >= 5 && b < 5 {
      assert y - x == 3 * (b - a) + 9;
      assert {a, b} == {2, 5} <==> a == 5 && b == 2;
      assert {a, b} == {3, 6} <==> a == 6 && b == 3;
      assert {a, b} == {4, 7} <==> a == 7 && b == 4;
    } else {
      assert y - x == 3 * (b - a);
    }
  }

  /** Replacing a pair of equal digits by another such pair goes unnoticed exactly for 22/55, 33/66, 44/77. */
  lemma TwinUnnoticedIff(s: seq<nat>, k: nat, d: nat)
    requires Accepted(s) && AllDigits(s) && k + 1 < |s| && s[k] == s[k + 1] && d < 10
    ensures var a := s[k];
            Accepted(s[k := d][k + 1 := d]) <==>
              a == d || {a, d} == {2, 5} || {a, d} == {3, 6} || {a, d} == {4, 7}
  {
    ChangeTwo(s, k, d, d);
    Alternates(s, k);
    TwinGapZeroIff(s[k], d);
    var gap := Share(d, true) + d - Share(s[k], true) - s[k];
    assert TotalTo(s[k := d][k + 1 := d], |s|) == TotalTo(s, |s|) + gap;
    SumOfMultiple(TotalTo(s, |s|), gap);
  }

  /** The one check digit for a body: it brings the total to a multiple of ten. */
  function CheckDigit(body: seq<nat>): (d: nat)
    ensures d < 10
  {
    (10 - TotalTo(body + [0], |body|) % 10) % 10
  }

  lemma {:induction false} TotalIgnoresLater(s: seq<nat>, t: seq<nat>, n: nat)
    requires |s| == |t| && n <= |s| && s[..n] == t[..n]
    ensures TotalTo(s, n) == TotalTo(t, n)
  {
    if n > 0 {
      assert s[..n][..n - 1] == s[..n - 1] && t[..n][..n - 1] == t[..n - 1];
      TotalIgnoresLater(s, t, n - 1);
      assert s[n - 1] == s[..n][n - 1] == t[n - 1];
    }
  }

  /** Exactly one digit completes a body of 12 to 15 digits. */
  lemma CheckDigitUnique(body: seq<nat>, d: nat)
    requires 12 <= |body| <= 15 && d < 10
    ensures Accepted(body + [d]) <==> d == CheckDigit(body)
  {
    var s := body + [d];
    var c := TotalTo(body + [0], |body|);
    assert s[..|body|] == body && (body + [0])[..|body|] == body;
    TotalIgnoresLater(s, body + [0], |body|);
    assert TotalTo(s, |s|) == c + d;
    Completes(c, d);
  }

  lemma Completes(c: nat, d: nat)
    requires d < 10
    ensures (c + d) % 10 == 0 <==> d == (10 - c % 10) % 10
  {
    var q, r := c / 10, c % 10;
    SumOfMultiple(10 * q, r + d);
    assert 10 * q + (r + d) == c + d;
    assert 0 <= r + d < 19;
    assert (r + d) % 10 == 0 <==> r + d == 0 || r + d == 10;
  }
}
