/// Decimal text: writing numbers, reading them back, padding and splitting.

module Text {
  import opened Basics

  function Digit(d: nat): (c: char)
    requires d < 10
    ensures IsDigit(c) && DigitValue(c) == d
  {
    ('0' as int + d) as char
  }

  predicate IsDigit(c: char) { '0' <= c <= '9' }

  function DigitValue(c: char): nat
    requires IsDigit(c)
  {
    c as int - '0' as int
  }

  predicate IsDigits(s: string) { forall k :: 0 <= k < |s| ==> IsDigit(s[k]) }

  /// `String(n)` for a whole number.
  function Dec(n: nat): (s: string)
    ensures s != "" && IsDigits(s)
  {
    if n < 10 then [Digit(n)] else Dec(n / 10) + [Digit(n % 10)]
  }

  function DecInt(n: int): string {
    if n < 0 then "-" + Dec(-n) else Dec(n)
  }

  /// `Number(s)` for a text of digits.
  function Num(s: string): nat
    requires IsDigits(s)
  {
    if s == "" then 0 else 10 * Num(s[..|s| - 1]) + DigitValue(s[|s| - 1])
  }

  /// `Number(s)`; texts other than digits are not numbers in this model.
  function ToNumber(s: string): Option<nat> {
    if IsDigits(s) then Some(Num(s)) else None
  }

  function Zeros(n: nat): (s: string)
    ensures |s| == n && IsDigits(s)
  {
    if n == 0 then "" else "0" + Zeros(n - 1)
  }

  /// `s.padStart(width, '0')`.
  function Pad(s: string, width: nat): (r: string)
    ensures |r| == if |s| < width then width else |s|
    ensures IsDigits(s) ==> IsDigits(r)
  {
    if |s| < width then Zeros(width - |s|) + s else s
  }

  function Pad2(n: nat): (s: string)
    ensures IsDigits(s)
  {
    Pad(Dec(n), 2)
  }

  lemma {:induction false} NumDec(n: nat)
    ensures Num(Dec(n)) == n
  {
    if n >= 10 {
      NumDec(n / 10);
      var s := Dec(n);
      assert s[..|s| - 1] == Dec(n / 10);
    }
  }

  lemma {:induction false} NumZeros(k: nat, s: string)
    requires IsDigits(s)
    ensures IsDigits(Zeros(k) + s) && Num(Zeros(k) + s) == Num(s)
    decreases k + |s|
  {
    var t := Zeros(k) + s;
    if s != "" {
      assert t[..|t| - 1] == Zeros(k) + s[..|s| - 1];
      NumZeros(k, s[..|s| - 1]);
    } else if k > 0 {
      assert t == Zeros(k);
      ZerosEnd(k);
      NumZeros(k - 1, "");
      assert Zeros(k - 1) + "" == Zeros(k - 1);
    }
  }

  lemma {:induction false} ZerosEnd(k: nat)
    requires k > 0
    ensures Zeros(k) == Zeros(k - 1) + "0"
  {
    if k > 1 { ZerosEnd(k - 1); }
  }

  /// Padding does not change the number, so it can be read back.
  lemma NumPad(n: nat, width: nat)
    ensures Num(Pad(Dec(n), width)) == n
  {
    NumDec(n);
    if |Dec(n)| < width { NumZeros(width - |Dec(n)|, Dec(n)); }
  }

  lemma {:induction false} DecLength(n: nat, k: nat)
    requires k > 0 && (k == 1 || Pow10(k - 1) <= n) && n < Pow10(k)
    ensures |Dec(n)| == k
    decreases k
  {
    if k > 1 {
      assert Pow10(k) == 10 * Pow10(k - 1) && Pow10(k - 1) == 10 * Pow10(k - 2);
      PowPositive(k - 2);
      DecLength(n / 10, k - 1);
    } else {
      assert Pow10(1) == 10 * Pow10(0) == 10;
    }
  }

  function Pow10(k: nat): nat {
    if k == 0 then 1 else 10 * Pow10(k - 1)
  }

  lemma PowPositive(k: nat)
    ensures Pow10(k) >= 1
  {
  }

  lemma FourDigits(n: nat)
    requires 1000 <= n <= 9999
    ensures |Dec(n)| == 4
  {
    assert Pow10(4) == 10000 && Pow10(3) == 1000;
    DecLength(n, 4);
  }

  lemma TwoDigits(n: nat)
    requires n < 100
    ensures |Pad2(n)| == 2 && Num(Pad2(n)) == n
  {
    NumPad(n, 2);
    assert Pow10(2) == 100 && Pow10(1) == 10;
    if n >= 10 { DecLength(n, 2); } else { DecLength(n, 1); }
  }

  // ---- splitting ----

  predicate SepAt(s: string, i: nat, sep: string) {
    i + |sep| <= |s| && s[i..i + |sep|] == sep
  }

  /// `s.split(sep)`.
  function Split(s: string, sep: string): (parts: seq<string>)
    requires sep != ""
    ensures parts != []
    decreases |s|
  {
    SplitFrom(s, 0, sep)
  }

  function SplitFrom(s: string, i: nat, sep: string): (parts: seq<string>)
    requires sep != "" && i <= |s|
    ensures parts != []
    decreases |s|, |s| - i
  {
    if i == |s| then [s]
    else if SepAt(s, i, sep) then [s[..i]] + SplitFrom(s[i + |sep|..], 0, sep)
    else SplitFrom(s, i + 1, sep)
  }

  lemma SepStarts(s: string, i: nat, sep: string)
    requires sep != "" && i < |s|
    ensures SepAt(s, i, sep) ==> s[i] == sep[0]
  {
    if SepAt(s, i, sep) { assert s[i..i + |sep|][0] == s[i]; }
  }

  lemma {:induction false} SplitNone(s: string, i: nat, sep: string)
    requires sep != "" && i <= |s| && sep[0] !in s
    ensures SplitFrom(s, i, sep) == [s]
    decreases |s| - i
  {
    if i < |s| {
      SepStarts(s, i, sep);
      SplitNone(s, i + 1, sep);
    }
  }

  lemma {:induction false} SplitHead(a: string, b: string, sep: string, i: nat)
    requires sep != "" && sep[0] !in a && i <= |a|
    ensures SplitFrom(a + sep + b, i, sep) == [a] + SplitFrom(b, 0, sep)
    decreases |a| - i
  {
    var s := a + sep + b;
    if i < |a| {
      SepStarts(s, i, sep);
      assert s[i] == a[i];
      SplitHead(a, b, sep, i + 1);
    } else {
      assert s[i..i + |sep|] == sep && s[..i] == a && s[i + |sep|..] == b;
    }
  }

  lemma SplitPair(a: string, b: string, sep: string, i: nat)
    requires sep != "" && sep[0] !in a && sep[0] !in b && i <= |a|
    ensures SplitFrom(a + sep + b, i, sep) == [a, b]
  {
    SplitHead(a, b, sep, i);
    SplitNone(b, 0, sep);
  }
}
