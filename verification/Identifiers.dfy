/// Check digits of identifiers, and which mistakes they catch.

module Identifiers {
  import opened Basics
  import opened Text

  predicate AllDigits(s: string) { s != "" && IsDigits(s) }

  /// The same text with two neighbours exchanged.
  function Swapped(s: string, k: nat): (r: string)
    requires k + 1 < |s|
    ensures |r| == |s|
  {
    s[k := s[k + 1]][k + 1 := s[k]]
  }

  // ---- Luhn ----

  /// What a digit adds; every second one from the right counts double.
  function LuhnDigit(d: nat, doubled: bool): nat
    requires d < 10
  {
    if !doubled then d else if 2 * d > 9 then 2 * d - 9 else 2 * d
  }

  predicate IsDoubled(k: nat, n: nat)
    requires k < n
  {
    (n - 1 - k) % 2 == 1
  }

  function LuhnAt(s: string, k: nat): nat
    requires IsDigits(s) && k < |s|
  {
    LuhnDigit(DigitValue(s[k]), IsDoubled(k, |s|))
  }

  /// The sum from position `k` on.
  function LuhnSum(s: string, k: nat): nat
    requires IsDigits(s) && k <= |s|
    decreases |s| - k
  {
    if k == |s| then 0 else LuhnAt(s, k) + LuhnSum(s, k + 1)
  }

  predicate LuhnValid(s: string) { AllDigits(s) && LuhnSum(s, 0) % 10 == 0 }

  method Luhn(value: string) returns (r: bool)
    ensures r <==> LuhnValid(value)
  {
    if value == "" || !IsDigits(value) { return false; }
    var sum := 0;
    var double := false;
    var i := |value|;
    while i > 0
      invariant 0 <= i <= |value| && sum == LuhnSum(value, i)
      invariant i > 0 ==> (double <==> IsDoubled(i - 1, |value|))
    {
      i := i - 1;
      var d := DigitValue(value[i]);
      if double {
        d := d * 2;
        if d > 9 { d := d - 9; }
      }
      sum := sum + d;
      double := !double;
    }
    r := sum % 10 == 0;
  }

  lemma {:induction false} LuhnSumFrom(s: string, t: string, k: nat, m: nat)
    requires IsDigits(s) && IsDigits(t) && |s| == |t| && k <= m <= |s|
    requires forall i :: m <= i < |s| ==> s[i] == t[i]
    requires forall i :: k <= i < m ==> s[i] == t[i]
    ensures LuhnSum(s, k) == LuhnSum(t, k)
    decreases |s| - k
  {
    if k < |s| { LuhnSumFrom(s, t, k + 1, if k < m then m else k + 1); }
  }

  lemma {:induction false} LuhnChange(s: string, c: char, k: nat, j: nat)
    requires IsDigits(s) && IsDigit(c) && j <= k < |s|
    ensures IsDigits(s[k := c])
    ensures LuhnSum(s[k := c], j) - LuhnSum(s, j) == LuhnAt(s[k := c], k) - LuhnAt(s, k)
    decreases |s| - j
  {
    var t := s[k := c];
    assert IsDigits(t);
    if j < k { LuhnChange(s, c, k, j + 1); } else { LuhnSumFrom(s, t, k + 1, k + 1); }
  }

  lemma LuhnDigitsDiffer(d: nat, e: nat, doubled: bool)
    requires d < 10 && e < 10 && d != e
    ensures (LuhnDigit(d, doubled) - LuhnDigit(e, doubled)) % 10 != 0
  {
  }

  /// Every change of one digit is caught.
  lemma LuhnCatchesChange(s: string, k: nat, c: char)
    requires LuhnValid(s) && k < |s| && IsDigit(c) && c != s[k]
    ensures !LuhnValid(s[k := c])
  {
    LuhnChange(s, c, k, 0);
    DigitsDiffer(c, s[k]);
    LuhnDigitsDiffer(DigitValue(c), DigitValue(s[k]), IsDoubled(k, |s|));
    OffTen(LuhnSum(s, 0), LuhnSum(s[k := c], 0));
  }

  lemma OffTen(sum: int, other: int)
    requires sum % 10 == 0
    ensures other % 10 == 0 <==> (other - sum) % 10 == 0
  {
  }

  lemma DigitsDiffer(c: char, d: char)
    requires IsDigit(c) && IsDigit(d)
    ensures DigitValue(c) == DigitValue(d) <==> c == d
  {
  }

  predicate IsZeroNine(a: char, b: char) { (a == '0' && b == '9') || (a == '9' && b == '0') }

  lemma LuhnSwapSum(s: string, k: nat)
    requires IsDigits(s) && k + 1 < |s|
    ensures IsDigits(Swapped(s, k))
    ensures LuhnSum(Swapped(s, k), 0) - LuhnSum(s, 0)
         == LuhnAt(Swapped(s, k), k) + LuhnAt(Swapped(s, k), k + 1) - LuhnAt(s, k) - LuhnAt(s, k + 1)
  {
    var t := s[k := s[k + 1]];
    LuhnChange(s, s[k + 1], k, 0);
    LuhnChange(t, s[k], k + 1, 0);
  }

  lemma LuhnSwapDigits(a: nat, b: nat, doubled: bool)
    requires a < 10 && b < 10
    ensures (LuhnDigit(b, doubled) + LuhnDigit(a, !doubled) - LuhnDigit(a, doubled) - LuhnDigit(b, !doubled)) % 10 == 0
       <==> a == b || (a == 0 && b == 9) || (a == 9 && b == 0)
  {
  }

  /// An exchange of neighbours is missed exactly for 0 and 9.
  lemma LuhnCatchesSwap(s: string, k: nat)
    requires LuhnValid(s) && k + 1 < |s| && s[k] != s[k + 1]
    ensures LuhnValid(Swapped(s, k)) <==> IsZeroNine(s[k], s[k + 1])
  {
    LuhnSwapSum(s, k);
    LuhnSwapDigits(DigitValue(s[k]), DigitValue(s[k + 1]), IsDoubled(k, |s|));
    SwappedAt(s, k);
    SumAlike(LuhnSum(s, 0), LuhnSum(Swapped(s, k), 0),
             LuhnAt(Swapped(s, k), k) + LuhnAt(Swapped(s, k), k + 1) - LuhnAt(s, k) - LuhnAt(s, k + 1));
  }

  lemma SwappedAt(s: string, k: nat)
    requires IsDigits(s) && k + 1 < |s|
    ensures IsDigits(Swapped(s, k))
    ensures LuhnAt(Swapped(s, k), k) == LuhnDigit(DigitValue(s[k + 1]), IsDoubled(k, |s|))
    ensures LuhnAt(Swapped(s, k), k + 1) == LuhnDigit(DigitValue(s[k]), !IsDoubled(k, |s|))
    ensures LuhnAt(s, k) == LuhnDigit(DigitValue(s[k]), IsDoubled(k, |s|))
    ensures LuhnAt(s, k + 1) == LuhnDigit(DigitValue(s[k + 1]), !IsDoubled(k, |s|))
  {
    assert IsDoubled(k + 1, |s|) == !IsDoubled(k, |s|);
  }

  lemma SumAlike(before: int, after: int, d: int)
    requires before % 10 == 0 && after - before == d
    ensures after % 10 == 0 <==> d % 10 == 0
  {
  }

  // ---- Luhn over base 36 ----

  predicate IsAlnum(c: char) { IsDigit(c) || 'A' <= c <= 'Z' }

  /// The position in `0123456789ABCDEFGHIJKLMNOPQRSTUVWXYZ`.
  function Code(c: char): (r: nat)
    requires IsAlnum(c)
    ensures r < 36
  {
    if IsDigit(c) then c as int - '0' as int else c as int - 'A' as int + 10
  }

  function AlnumOf(n: nat): (c: char)
    requires n < 36
    ensures IsAlnum(c) && Code(c) == n
  {
    if n < 10 then ('0' as int + n) as char else ('A' as int + n - 10) as char
  }

  predicate AllAlnum(s: string) { forall i :: 0 <= i < |s| ==> IsAlnum(s[i]) }

  function Part36(code: nat, k: nat): nat
    requires code < 36
  {
    var product := if k % 2 == 0 then code else 2 * code;
    product / 36 + product % 36
  }

  function Sum36(s: string, k: nat): nat
    requires AllAlnum(s) && k <= |s|
  {
    if k == 0 then 0 else Sum36(s, k - 1) + Part36(Code(s[k - 1]), k - 1)
  }

  function Check36(body: string): char
    requires AllAlnum(body)
  {
    AlnumOf((36 - Sum36(body, |body|) % 36) % 36)
  }

  predicate Luhn36Valid(s: string) {
    s != "" && AllAlnum(s[..|s| - 1]) && s[|s| - 1] == Check36(s[..|s| - 1])
  }

  method LuhnMod36(value: string) returns (r: bool)
    ensures r <==> Luhn36Valid(value)
  {
    if value == "" { return false; }
    var body := value[..|value| - 1];
    var sum := 0;
    var i := 0;
    while i < |body|
      invariant i <= |body|
      invariant AllAlnum(body[..i]) && sum == Sum36(body[..i], i)
    {
      if !IsAlnum(body[i]) { return false; }
      var code := Code(body[i]);
      var product := code * (if i % 2 == 0 then 1 else 2);
      Sum36Next(body, i);
      sum := sum + (product / 36 + product % 36);
      i := i + 1;
    }
    assert body[..i] == body;
    var check := (36 - (sum % 36)) % 36;
    r := AlnumOf(check) == value[|value| - 1];
  }

  lemma Sum36Next(body: string, i: nat)
    requires i < |body| && AllAlnum(body[..i]) && IsAlnum(body[i])
    ensures AllAlnum(body[..i + 1]) && Sum36(body[..i + 1], i + 1) == Sum36(body[..i], i) + Part36(Code(body[i]), i)
  {
    var next := body[..i + 1];
    assert forall k :: 0 <= k < i ==> next[k] == body[..i][k];
    Sum36Prefix(next, body[..i], i);
  }

  lemma {:induction false} Sum36Prefix(s: string, t: string, k: nat)
    requires AllAlnum(s) && AllAlnum(t) && k <= |s| && k <= |t| && forall i :: 0 <= i < k ==> s[i] == t[i]
    ensures Sum36(s, k) == Sum36(t, k)
  {
    if k > 0 { Sum36Prefix(s, t, k - 1); }
  }

  lemma {:induction false} Sum36Change(s: string, c: char, k: nat, n: nat)
    requires AllAlnum(s) && IsAlnum(c) && k < n <= |s|
    ensures AllAlnum(s[k := c])
    ensures Sum36(s[k := c], n) - Sum36(s, n) == Part36(Code(c), k) - Part36(Code(s[k]), k)
  {
    var t := s[k := c];
    assert AllAlnum(t);
    if n - 1 > k { Sum36Change(s, c, k, n - 1); } else { Sum36Prefix(s, t, k); }
  }

  lemma SameCheck36(a: nat, b: nat)
    ensures AlnumOf((36 - a % 36) % 36) == AlnumOf((36 - b % 36) % 36) <==> (a - b) % 36 == 0
  {
    var x, y := (36 - a % 36) % 36, (36 - b % 36) % 36;
    assert Code(AlnumOf(x)) == x && Code(AlnumOf(y)) == y;
    SameComplement(a, b);
  }

  lemma SameComplement(a: nat, b: nat)
    ensures (36 - a % 36) % 36 == (36 - b % 36) % 36 <==> (a - b) % 36 == 0
  {
  }

  lemma PartIs(a: nat, k: nat)
    requires a < 36
    ensures Part36(a, k) == if k % 2 == 0 then a else if a < 18 then 2 * a else 2 * a - 35
  {
  }

  lemma Parts36Differ(a: nat, b: nat, k: nat)
    requires a < 36 && b < 36 && a != b
    ensures (Part36(a, k) - Part36(b, k)) % 36 != 0
  {
    PartIs(a, k);
    PartIs(b, k);
    SmallMod(Part36(a, k) - Part36(b, k));
  }

  lemma SmallMod(d: int)
    requires -36 < d < 36
    ensures d % 36 == 0 <==> d == 0
  {
  }

  lemma CodesDiffer(c: char, d: char)
    requires IsAlnum(c) && IsAlnum(d)
    ensures Code(c) == Code(d) <==> c == d
  {
  }

  /// Every change of one character before the check character is caught, and so is every
  /// change of the check character.
  lemma Luhn36CatchesChange(s: string, k: nat, c: char)
    requires Luhn36Valid(s) && k < |s| && IsAlnum(c) && c != s[k]
    ensures !Luhn36Valid(s[k := c])
  {
    var n := |s| - 1;
    var body, t := s[..n], s[k := c];
    if k < n {
      assert t[..n] == body[k := c];
      Sum36Change(body, c, k, n);
      CodesDiffer(c, s[k]);
      Parts36Differ(Code(c), Code(s[k]), k);
      SameCheck36(Sum36(t[..n], n), Sum36(body, n));
    } else {
      assert t[..n] == body;
    }
  }

  lemma Swap36(a: nat, b: nat, k: nat)
    requires a < 36 && b < 36
    ensures (Part36(b, k) + Part36(a, k + 1) - Part36(a, k) - Part36(b, k + 1)) % 36 == 0
       <==> a == b || (a == 0 && b == 35) || (a == 35 && b == 0)
  {
    PartIs(a, k);
    PartIs(b, k);
    PartIs(a, k + 1);
    PartIs(b, k + 1);
    var ha, hb := if a < 18 then a else a - 35, if b < 18 then b else b - 35;
    var d := Part36(b, k) + Part36(a, k + 1) - Part36(a, k) - Part36(b, k + 1);
    assert d == if k % 2 == 0 then ha - hb else hb - ha;
    SmallMod(d);
  }

  predicate IsZeroZ(a: char, b: char) { (a == '0' && b == 'Z') || (a == 'Z' && b == '0') }

  lemma Sum36Swap(body: string, k: nat)
    requires AllAlnum(body) && k + 1 < |body|
    ensures AllAlnum(Swapped(body, k))
    ensures Sum36(Swapped(body, k), |body|) - Sum36(body, |body|)
         == Part36(Code(body[k + 1]), k) + Part36(Code(body[k]), k + 1)
            - Part36(Code(body[k]), k) - Part36(Code(body[k + 1]), k + 1)
  {
    Sum36Change(body, body[k + 1], k, |body|);
    Sum36Change(body[k := body[k + 1]], body[k], k + 1, |body|);
  }

  /// An exchange of neighbours before the check character is missed exactly for 0 and Z.
  lemma Luhn36CatchesSwap(s: string, k: nat)
    requires Luhn36Valid(s) && k + 2 < |s| && s[k] != s[k + 1]
    ensures Luhn36Valid(Swapped(s, k)) <==> IsZeroZ(s[k], s[k + 1])
  {
    var n := |s| - 1;
    var body, t := s[..n], Swapped(s, k);
    assert t[..n] == Swapped(body, k);
    SwapShift36(body, k);
    SameCheck36(Sum36(t[..n], n), Sum36(body, n));
  }

  lemma SwapShift36(body: string, k: nat)
    requires AllAlnum(body) && k + 1 < |body| && body[k] != body[k + 1]
    ensures AllAlnum(Swapped(body, k))
    ensures (Sum36(Swapped(body, k), |body|) - Sum36(body, |body|)) % 36 == 0 <==> IsZeroZ(body[k], body[k + 1])
  {
    Sum36Swap(body, k);
    Swap36(Code(body[k]), Code(body[k + 1]), k);
    ZeroZCodes(body[k], body[k + 1]);
  }

  lemma ZeroZCodes(c: char, d: char)
    requires IsAlnum(c) && IsAlnum(d) && c != d
    ensures IsZeroZ(c, d) <==> (Code(c) == 0 && Code(d) == 35) || (Code(c) == 35 && Code(d) == 0)
    ensures Code(c) != Code(d)
  {
  }

  // ---- weighted modulo 11 ----

  /// Weights 2, 3, 4 and so on from the right; the sum from position `k` on.
  function Sum11(s: string, k: nat): nat
    requires IsDigits(s) && k <= |s|
    decreases |s| - k
  {
    if k == |s| then 0 else DigitValue(s[k]) * Weight(s, k) + Sum11(s, k + 1)
  }

  function Weight(s: string, k: nat): nat
    requires k < |s|
  {
    |s| - 1 - k + 2
  }

  function Check11(sum: nat): char {
    var check := (11 - sum % 11) % 11;
    if check == 10 then 'X' else Digit(check)
  }

  predicate Mod11Valid(s: string) {
    s != "" && AllDigits(s[..|s| - 1]) && UpperChar(s[|s| - 1]) == Check11(Sum11(s[..|s| - 1], 0))
  }

  method Mod11(value: string) returns (r: bool)
    ensures r <==> Mod11Valid(value)
  {
    if value == "" { return false; }
    var body := value[..|value| - 1];
    if body == "" || !IsDigits(body) { return false; }
    var sum := 0;
    var i := 0;
    while i < |body|
      invariant i <= |body| && sum == Sum11(body, |body| - i)
    {
      sum := sum + DigitValue(body[|body| - 1 - i]) * (i + 2);
      i := i + 1;
    }
    var check := (11 - (sum % 11)) % 11;
    var last := UpperChar(value[|value| - 1]);
    r := if check == 10 then last == 'X' else last == Digit(check);
  }

  lemma {:induction false} Sum11Same(s: string, t: string, k: nat)
    requires IsDigits(s) && IsDigits(t) && |s| == |t| && k <= |s| && forall i :: k <= i < |s| ==> s[i] == t[i]
    ensures Sum11(s, k) == Sum11(t, k)
    decreases |s| - k
  {
    if k < |s| { Sum11Same(s, t, k + 1); }
  }

  lemma {:induction false} Sum11Change(s: string, c: char, k: nat, j: nat)
    requires IsDigits(s) && IsDigit(c) && j <= k < |s|
    ensures IsDigits(s[k := c])
    ensures Sum11(s[k := c], j) - Sum11(s, j) == (DigitValue(c) - DigitValue(s[k])) * Weight(s, k)
    decreases |s| - j
  {
    var t := s[k := c];
    assert IsDigits(t);
    if j < k {
      Sum11Change(s, c, k, j + 1);
    } else {
      Sum11Same(s, t, k + 1);
      Distribute(DigitValue(c), DigitValue(s[k]), Weight(s, k));
    }
  }

  lemma Distribute(a: int, b: int, w: int)
    ensures a * w - b * w == (a - b) * w
  {
  }

  lemma SameCheck11(a: nat, b: nat)
    ensures Check11(a) == Check11(b) <==> (a - b) % 11 == 0
  {
    var p, q := (11 - a % 11) % 11, (11 - b % 11) % 11;
    assert p < 10 ==> IsDigit(Check11(a)) && DigitValue(Check11(a)) == p;
    assert q < 10 ==> IsDigit(Check11(b)) && DigitValue(Check11(b)) == q;
  }

  /// Eleven is prime: it divides a product with a small factor only through the other.
  lemma EuclidEleven(d: int, w: nat)
    requires -10 <= d <= 10 && d != 0
    ensures (d * w) % 11 == 0 <==> w % 11 == 0
  {
    var q, r := w / 11, w % 11;
    assert d * w == 11 * (d * q) + d * r by { Expand(d, q, r); }
    ModShift(d * q, d * r);
    SmallProduct(d, r);
  }

  lemma Expand(d: int, q: int, r: int)
    ensures d * (11 * q + r) == 11 * (d * q) + d * r
  {
  }

  lemma ModShift(a: int, b: int)
    ensures (11 * a + b) % 11 == b % 11
  {
  }

  lemma SmallProduct(d: int, r: nat)
    requires -10 <= d <= 10 && d != 0 && r < 11
    ensures (d * r) % 11 == 0 <==> r == 0
  {
    if r == 0 {} else if r == 1 {} else if r == 2 {} else if r == 3 {} else if r == 4 {} else if r == 5 {}
    else if r == 6 {} else if r == 7 {} else if r == 8 {} else if r == 9 {} else {}
  }

  /// A change of one digit before the check character is missed exactly when its weight is a
  /// multiple of eleven.
  lemma Mod11CatchesChange(s: string, k: nat, c: char)
    requires Mod11Valid(s) && k < |s| - 1 && IsDigit(c) && c != s[k]
    ensures Mod11Valid(s[k := c]) <==> Weight(s[..|s| - 1], k) % 11 == 0
  {
    var n := |s| - 1;
    var body, t := s[..n], s[k := c];
    assert t[..n] == body[k := c];
    Sum11Change(body, c, k, 0);
    SameCheck11(Sum11(t[..n], 0), Sum11(body, 0));
    DigitsDiffer(c, s[k]);
    EuclidEleven(DigitValue(c) - DigitValue(s[k]), Weight(body, k));
  }

  lemma Sum11Swap(body: string, k: nat)
    requires IsDigits(body) && k + 1 < |body|
    ensures IsDigits(Swapped(body, k))
    ensures Sum11(Swapped(body, k), 0) - Sum11(body, 0) == DigitValue(body[k + 1]) - DigitValue(body[k])
  {
    SwapSums(body, body[k := body[k + 1]], Swapped(body, k), k, DigitValue(body[k]), DigitValue(body[k + 1]));
  }

  lemma SwapSums(body: string, mid: string, t: string, k: nat, a: nat, b: nat)
    requires IsDigits(body) && k + 1 < |body| && a == DigitValue(body[k]) && b == DigitValue(body[k + 1])
    requires mid == body[k := body[k + 1]] && t == mid[k + 1 := body[k]]
    ensures IsDigits(t) && Sum11(t, 0) - Sum11(body, 0) == b - a
  {
    var w := Weight(body, k);
    Change11By(body, body[k + 1], k, a, b, w);
    Change11By(mid, body[k], k + 1, b, a, w - 1);
    SumsDiffer(Sum11(body, 0), Sum11(mid, 0), Sum11(t, 0), a, b, w);
  }

  lemma SumsDiffer(x: int, y: int, z: int, a: int, b: int, w: int)
    requires y - x == (b - a) * w && z - y == (a - b) * (w - 1)
    ensures z - x == b - a
  {
  }

  lemma Change11By(s: string, c: char, k: nat, a: nat, b: nat, w: int)
    requires IsDigits(s) && IsDigit(c) && k < |s|
    requires a == DigitValue(s[k]) && b == DigitValue(c) && w == Weight(s, k)
    ensures IsDigits(s[k := c]) && Sum11(s[k := c], 0) - Sum11(s, 0) == (b - a) * w
  {
    Sum11Change(s, c, k, 0);
  }

  /// Every exchange of different neighbours before the check character is caught.
  lemma Mod11CatchesSwap(s: string, k: nat)
    requires Mod11Valid(s) && k + 2 < |s| && s[k] != s[k + 1]
    ensures !Mod11Valid(Swapped(s, k))
  {
    var n := |s| - 1;
    var body, t := s[..n], Swapped(s, k);
    assert t[..n] == Swapped(body, k);
    Sum11Swap(body, k);
    DigitsDiffer(s[k], s[k + 1]);
    CheckMoves(Sum11(body, 0), Sum11(t[..n], 0));
  }

  lemma CheckMoves(a: nat, b: nat)
    requires -10 <= b - a <= 10 && a != b
    ensures Check11(a) != Check11(b)
  {
    SameCheck11(a, b);
    SmallNoMultiple(a - b);
  }

  lemma SmallNoMultiple(d: int)
    requires -10 <= d <= 10 && d != 0
    ensures d % 11 != 0
  {
  }

  // ---- Verhoeff ----

  const D: seq<seq<nat>> := [
    [0, 1, 2, 3, 4, 5, 6, 7, 8, 9],
    [1, 2, 3, 4, 0, 6, 7, 8, 9, 5],
    [2, 3, 4, 0, 1, 7, 8, 9, 5, 6],
    [3, 4, 0, 1, 2, 8, 9, 5, 6, 7],
    [4, 0, 1, 2, 3, 9, 5, 6, 7, 8],
    [5, 9, 8, 7, 6, 0, 4, 3, 2, 1],
    [6, 5, 9, 8, 7, 1, 0, 4, 3, 2],
    [7, 6, 5, 9, 8, 2, 1, 0, 4, 3],
    [8, 7, 6, 5, 9, 3, 2, 1, 0, 4],
    [9, 8, 7, 6, 5, 4, 3, 2, 1, 0]]

  const P: seq<seq<nat>> := [
    [0, 1, 2, 3, 4, 5, 6, 7, 8, 9],
    [1, 5, 7, 6, 2, 8, 3, 0, 9, 4],
    [5, 8, 0, 3, 7, 9, 6, 1, 4, 2],
    [8, 9, 1, 6, 0, 4, 3, 5, 2, 7],
    [9, 4, 5, 3, 1, 2, 6, 8, 7, 0],
    [4, 2, 8, 6, 5, 7, 3, 9, 0, 1],
    [2, 7, 9, 3, 8, 0, 6, 4, 1, 5],
    [7, 0, 4, 6, 9, 1, 3, 2, 5, 8]]

  /// The dihedral group of the pentagon: 0 to 4 are rotations, 5 to 9 reflections.
  function Dihedral(a: nat, b: nat): (r: nat)
    requires a < 10 && b < 10
    ensures r < 10
  {
    if a < 5 && b < 5 then Wrap(a + b)
    else if a < 5 then 5 + Wrap(a + b - 5)
    else if b < 5 then 5 + Wrap(a - 5 - b)
    else Wrap(a - b)
  }

  /// The remainder by five of a number near it.
  function Wrap(n: int): (r: nat)
    requires -5 < n < 10
    ensures r < 5
  {
    if n < 0 then n + 5 else if n < 5 then n else n - 5
  }

  lemma TableD(a: nat, b: nat)
    requires a < 10 && b < 10
    ensures |D| == 10 && |D[a]| == 10 && D[a][b] == Dihedral(a, b)
  {
    if a == 0 { Row(D[0], 0, b); } else if a == 1 { Row(D[1], 1, b); } else if a == 2 { Row(D[2], 2, b); }
    else if a == 3 { Row(D[3], 3, b); } else if a == 4 { Row(D[4], 4, b); } else if a == 5 { Row(D[5], 5, b); }
    else if a == 6 { Row(D[6], 6, b); } else if a == 7 { Row(D[7], 7, b); } else if a == 8 { Row(D[8], 8, b); }
    else { Row(D[9], 9, b); }
  }

  lemma Row(row: seq<nat>, a: nat, b: nat)
    requires a < 10 && b < 10 && |row| == 10
    requires row[0] == Dihedral(a, 0) && row[1] == Dihedral(a, 1) && row[2] == Dihedral(a, 2)
    requires row[3] == Dihedral(a, 3) && row[4] == Dihedral(a, 4) && row[5] == Dihedral(a, 5)
    requires row[6] == Dihedral(a, 6) && row[7] == Dihedral(a, 7) && row[8] == Dihedral(a, 8)
    requires row[9] == Dihedral(a, 9)
    ensures row[b] == Dihedral(a, b)
  {
  }

  /// One step of the permutation.
  function Permuted(x: nat): (r: nat)
    requires x < 10
    ensures r < 10
  {
    if x == 0 then 1 else if x == 1 then 5 else if x == 2 then 7 else if x == 3 then 6 else if x == 4 then 2
    else if x == 5 then 8 else if x == 6 then 3 else if x == 7 then 0 else if x == 8 then 9 else 4
  }

  /// The permutation applied `i` times.
  function Power(i: nat, x: nat): (r: nat)
    requires x < 10
    ensures r < 10
  {
    if i == 0 then x else Permuted(Power(i - 1, x))
  }

  /// Each row of the table is the one above, permuted once more; after eight the first
  /// comes again.
  lemma TableP(i: nat, x: nat)
    requires i < 8 && x < 10
    ensures |P| == 8 && |P[i]| == 10 && P[i][x] == Power(i, x)
  {
    if i == 0 { PowerRow(P[0], 0, x); } else {
      TableP(i - 1, x);
      if i == 1 { NextRow(P[0], P[1], x); } else if i == 2 { NextRow(P[1], P[2], x); }
      else if i == 3 { NextRow(P[2], P[3], x); } else if i == 4 { NextRow(P[3], P[4], x); }
      else if i == 5 { NextRow(P[4], P[5], x); } else if i == 6 { NextRow(P[5], P[6], x); }
      else { NextRow(P[6], P[7], x); }
    }
  }

  lemma PowerRow(row: seq<nat>, i: nat, x: nat)
    requires |row| == 10 && i == 0 && x < 10
    requires row[0] == 0 && row[1] == 1 && row[2] == 2 && row[3] == 3 && row[4] == 4
    requires row[5] == 5 && row[6] == 6 && row[7] == 7 && row[8] == 8 && row[9] == 9
    ensures row[x] == Power(i, x)
  {
  }

  predicate Follows(row: seq<nat>, next: seq<nat>, x: nat)
    requires |row| == 10 && |next| == 10 && x < 10
  {
    row[x] < 10 && next[x] == Permuted(row[x])
  }

  lemma NextRow(row: seq<nat>, next: seq<nat>, x: nat)
    requires |row| == 10 && |next| == 10 && x < 10
    requires Follows(row, next, 0) && Follows(row, next, 1) && Follows(row, next, 2) && Follows(row, next, 3)
    requires Follows(row, next, 4) && Follows(row, next, 5) && Follows(row, next, 6) && Follows(row, next, 7)
    requires Follows(row, next, 8) && Follows(row, next, 9)
    ensures Follows(row, next, x)
  {
  }

  lemma {:induction false} PowerPlus(i: nat, j: nat, x: nat)
    requires x < 10
    ensures Power(i + j, x) == Power(i, Power(j, x))
  {
    if i > 0 { PowerPlus(i - 1, j, x); }
  }

  lemma Eight(x: nat)
    requires x < 10
    ensures Power(8, x) == x
  {
    TableP(7, x);
    if x == 0 {} else if x == 1 {} else if x == 2 {} else if x == 3 {} else if x == 4 {} else if x == 5 {}
    else if x == 6 {} else if x == 7 {} else if x == 8 {} else {}
  }

  lemma NextPower(i: nat, x: nat)
    requires x < 10
    ensures Power((i + 1) % 8, x) == Permuted(Power(i % 8, x))
  {
    var r := i % 8;
    NextRemainder(i);
    if r == 7 { Eight(x); }
    assert Power(r + 1, x) == Permuted(Power(r, x));
  }

  lemma NextRemainder(i: nat)
    ensures (i + 1) % 8 == if i % 8 == 7 then 0 else i % 8 + 1
  {
  }

  lemma PermutedDiffers(x: nat, y: nat)
    requires x < 10 && y < 10 && x != y
    ensures Permuted(x) != Permuted(y)
  {
  }

  lemma {:induction false} PowersDiffer(i: nat, x: nat, y: nat)
    requires x < 10 && y < 10 && x != y
    ensures Power(i, x) != Power(i, y)
  {
    if i > 0 {
      PowersDiffer(i - 1, x, y);
      PermutedDiffers(Power(i - 1, x), Power(i - 1, y));
    }
  }

  lemma Cancels(a: nat, b: nat, x: nat)
    requires a < 10 && b < 10 && x < 10 && a != b
    ensures Dihedral(a, x) != Dihedral(b, x) && Dihedral(x, a) != Dihedral(x, b)
  {
  }

  lemma Associative(a: nat, b: nat, c: nat)
    requires a < 10 && b < 10 && c < 10
    ensures Dihedral(Dihedral(a, b), c) == Dihedral(a, Dihedral(b, c))
  {
    if a < 5 { AfterRotation(a, b, c); } else { AfterReflection(a, b, c); }
  }

  lemma AfterRotation(a: nat, b: nat, c: nat)
    requires a < 5 && b < 10 && c < 10
    ensures Dihedral(Dihedral(a, b), c) == Dihedral(a, Dihedral(b, c))
  {
  }

  lemma AfterReflection(a: nat, b: nat, c: nat)
    requires 5 <= a < 10 && b < 10 && c < 10
    ensures Dihedral(Dihedral(a, b), c) == Dihedral(a, Dihedral(b, c))
  {
  }

  /// The permutation keeps neighbours from commuting.
  lemma NoExchange(x: nat, y: nat)
    requires x < 10 && y < 10 && x != y
    ensures Dihedral(x, Permuted(y)) != Dihedral(y, Permuted(x))
  {
  }

  /// The check value of the last `n` digits, from the right.
  function Checked(s: string, n: nat): (c: nat)
    requires IsDigits(s) && n <= |s|
    ensures c < 10
  {
    if n == 0 then 0 else Dihedral(Checked(s, n - 1), Turned(s, n))
  }

  /// The `n`th digit from the right, permuted for its place.
  function Turned(s: string, n: nat): (r: nat)
    requires IsDigits(s) && 0 < n <= |s|
    ensures r < 10
  {
    Power((n - 1) % 8, DigitValue(s[|s| - n]))
  }

  predicate VerhoeffValid(s: string) { AllDigits(s) && Checked(s, |s|) == 0 }

  method Verhoeff(value: string) returns (r: bool)
    ensures r <==> VerhoeffValid(value)
  {
    if value == "" || !IsDigits(value) { return false; }
    var c: nat := 0;
    var i := 0;
    while i < |value|
      invariant i <= |value| && c == Checked(value, i)
    {
      var digit := DigitValue(value[|value| - 1 - i]);
      TableP(i % 8, digit);
      TableD(c, P[i % 8][digit]);
      c := D[c][P[i % 8][digit]];
      i := i + 1;
    }
    r := c == 0;
  }

  lemma {:induction false} CheckedSame(s: string, t: string, n: nat)
    requires IsDigits(s) && IsDigits(t) && |s| == |t| && n <= |s|
    requires forall k :: |s| - n <= k < |s| ==> s[k] == t[k]
    ensures Checked(s, n) == Checked(t, n)
  {
    if n > 0 { CheckedSame(s, t, n - 1); }
  }

  /// Once the values differ, equal digits to the left keep them different.
  lemma {:induction false} StaysDifferent(s: string, t: string, m: nat, n: nat)
    requires IsDigits(s) && IsDigits(t) && |s| == |t| && m <= n <= |s| && Checked(s, m) != Checked(t, m)
    requires forall k :: 0 <= k < |s| - m ==> s[k] == t[k]
    ensures Checked(s, n) != Checked(t, n)
  {
    if m < n {
      StaysDifferent(s, t, m, n - 1);
      assert Turned(s, n) == Turned(t, n);
      Cancels(Checked(s, n - 1), Checked(t, n - 1), Turned(s, n));
    }
  }

  /// Every change of one digit is caught.
  lemma VerhoeffCatchesChange(s: string, k: nat, c: char)
    requires VerhoeffValid(s) && k < |s| && IsDigit(c) && c != s[k]
    ensures !VerhoeffValid(s[k := c])
  {
    var t := s[k := c];
    var n := |s| - k;
    assert IsDigits(t);
    CheckedSame(s, t, n - 1);
    DigitsDiffer(c, s[k]);
    PowersDiffer((n - 1) % 8, DigitValue(c), DigitValue(s[k]));
    Cancels(Turned(s, n), Turned(t, n), Checked(s, n - 1));
    StaysDifferent(s, t, n, |s|);
  }

  /// Every exchange of different neighbours is caught.
  lemma VerhoeffCatchesSwap(s: string, k: nat)
    requires VerhoeffValid(s) && k + 1 < |s| && s[k] != s[k + 1]
    ensures !VerhoeffValid(Swapped(s, k))
  {
    var t := Swapped(s, k);
    var n := |s| - k - 2;
    assert IsDigits(t);
    CheckedSame(s, t, n);
    DigitsDiffer(s[k], s[k + 1]);
    PairsDiffer(Checked(s, n), n, DigitValue(s[k + 1]), DigitValue(s[k]));
    CheckedPair(s, n);
    CheckedPair(t, n);
    StaysDifferent(s, t, n + 2, |s|);
  }

  /// The check value after two more digits.
  function Pair(c: nat, n: nat, x: nat, y: nat): nat
    requires c < 10 && x < 10 && y < 10
  {
    Dihedral(Dihedral(c, Power(n % 8, x)), Power((n + 1) % 8, y))
  }

  lemma CheckedPair(s: string, n: nat)
    requires IsDigits(s) && n + 2 <= |s|
    ensures Checked(s, n + 2) == Pair(Checked(s, n), n, DigitValue(s[|s| - n - 1]), DigitValue(s[|s| - n - 2]))
  {
    assert Checked(s, n + 1) == Dihedral(Checked(s, n), Turned(s, n + 1));
  }

  lemma PairsDiffer(c: nat, n: nat, x: nat, y: nat)
    requires c < 10 && x < 10 && y < 10 && x != y
    ensures Pair(c, n, x, y) != Pair(c, n, y, x)
  {
    var px, py := Power(n % 8, x), Power(n % 8, y);
    NextPower(n, x);
    NextPower(n, y);
    PowersDiffer(n % 8, x, y);
    NoExchange(px, py);
    Associative(c, px, Permuted(py));
    Associative(c, py, Permuted(px));
    Cancels(Dihedral(px, Permuted(py)), Dihedral(py, Permuted(px)), c);
  }
}
