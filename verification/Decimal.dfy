/** Decimal text: how the wire spells numbers, and how strtoull reads them back. */
module Decimal {

  type byte = b: int | 0 <= b < 256

  const TWO_TO_THE_64: nat := 0x1_0000_0000_0000_0000
  const TWO_TO_THE_32: nat := 0x1_0000_0000

  predicate IsDigit(b: byte) {
    48 <= b <= 57
  }

  predicate AllDigits(s: seq<byte>) {
    forall i :: 0 <= i < |s| ==> IsDigit(s[i])
  }

  /** What `%zu` prints. */
  function Digits(n: nat): (ds: seq<byte>)
    ensures |ds| >= 1 && AllDigits(ds)
  {
    if n < 10 then [48 + n] else Digits(n / 10) + [48 + n % 10]
  }

  function Zeros(n: nat): (zs: seq<byte>)
    ensures |zs| == n && AllDigits(zs)
  {
    seq(n, _ => 48)
  }

  /** What `snprintf(buf, width + 1, "%0<width>zu", n)` leaves in its first `width` bytes. */
  function Padded(n: nat, width: nat): (s: seq<byte>)
    ensures |s| == width && AllDigits(s)
  {
    var ds := Digits(n);
    if |ds| <= width then Zeros(width - |ds|) + ds else ds[..width]
  }

  function Pow10(k: nat): (p: nat)
    ensures p >= 1
  {
    if k == 0 then 1 else 10 * Pow10(k - 1)
  }

  function ValueOf(ds: seq<byte>): nat
    requires AllDigits(ds)
  {
    if ds == [] then 0 else 10 * ValueOf(ds[..|ds| - 1]) + (ds[|ds| - 1] - 48)
  }

  /** The end of the run of digits that starts at `i`. */
  function RunEnd(s: seq<byte>, i: nat): (j: nat)
    requires i <= |s|
    ensures i <= j <= |s| && AllDigits(s[i..j])
    ensures j < |s| ==> !IsDigit(s[j])
    decreases |s| - i
  {
    if i < |s| && IsDigit(s[i]) then
      var j := RunEnd(s, i + 1);
      assert s[i..j] == [s[i]] + s[i + 1..j];
      j
    else i
  }

  predicate IsSpace(b: byte) {
    b == 32 || 9 <= b <= 13
  }

  function SkipSpace(s: seq<byte>, i: nat): (j: nat)
    requires i <= |s|
    ensures i <= j <= |s|
    decreases |s| - i
  {
    if i < |s| && IsSpace(s[i]) then SkipSpace(s, i + 1) else i
  }

  /** A strtoull result: the value, where `endptr` points, and whether errno was set. */
  datatype Number = Number(value: nat, end: nat, overflow: bool)

  /** strtoull(s, &end, 10): blanks, an optional sign, digits; saturation sets errno and a
      minus sign negates modulo 2^64. */
  function StrToULL(s: seq<byte>): (r: Number)
    ensures r.end <= |s| && r.value < TWO_TO_THE_64
  {
    var signAt := SkipSpace(s, 0);
    var signed := signAt < |s| && (s[signAt] == 43 || s[signAt] == 45);
    var start := if signed then signAt + 1 else signAt;
    var stop := RunEnd(s, start);
    if stop == start then Number(0, 0, false)
    else
      var v := ValueOf(s[start..stop]);
      if v >= TWO_TO_THE_64 then Number(TWO_TO_THE_64 - 1, stop, true)
      else if signed && s[signAt] == 45 then Number((TWO_TO_THE_64 - v) % TWO_TO_THE_64, stop, false)
      else Number(v, stop, false)
  }

  lemma {:induction false} ValueOfDigits(n: nat)
    ensures ValueOf(Digits(n)) == n
  {
    if n >= 10 {
      ValueOfDigits(n / 10);
      assert Digits(n)[..|Digits(n)| - 1] == Digits(n / 10);
    }
  }

  lemma {:induction false} ValueOfPadded(zeros: nat, n: nat)
    ensures ValueOf(Zeros(zeros) + Digits(n)) == n
    decreases zeros + n
  {
    var s := Zeros(zeros) + Digits(n);
    var front := s[..|s| - 1];
    if n >= 10 {
      assert front == Zeros(zeros) + Digits(n / 10);
      ValueOfPadded(zeros, n / 10);
    } else {
      assert front == Zeros(zeros);
      ValueOfZeros(zeros);
    }
  }

  lemma {:induction false} ValueOfZeros(k: nat)
    ensures ValueOf(Zeros(k)) == 0
  {
    if k > 0 {
      assert Zeros(k)[..k - 1] == Zeros(k - 1);
      ValueOfZeros(k - 1);
    }
  }

  lemma {:induction false} RunEndOfRun(ds: seq<byte>, rest: seq<byte>, i: nat)
    requires AllDigits(ds) && i <= |ds|
    requires rest == [] || !IsDigit(rest[0])
    ensures RunEnd(ds + rest, i) == |ds|
    decreases |ds| - i
  {
    if i < |ds| {
      RunEndOfRun(ds, rest, i + 1);
    }
  }

  /** strtoull reads a run of digits up to the first byte that is not one. */
  lemma {:induction false} StrToULLOfRun(ds: seq<byte>, rest: seq<byte>)
    requires ds != [] && AllDigits(ds) && ValueOf(ds) < TWO_TO_THE_64
    requires rest == [] || !IsDigit(rest[0])
    ensures StrToULL(ds + rest) == Number(ValueOf(ds), |ds|, false)
  {
    var s := ds + rest;
    assert IsDigit(s[0]);
    assert SkipSpace(s, 0) == 0;
    assert RunEnd(s, 0) == |ds| by {
      RunEndOfRun(ds, rest, 0);
    }
    assert s[0..|ds|] == ds;
    hide ValueOf, RunEnd, SkipSpace;
  }

  lemma {:induction false} SkipsBlanks(s: seq<byte>, i: nat, n: nat)
    requires i <= n <= |s| && (forall k :: i <= k < n ==> s[k] == 32 || 9 <= s[k] <= 13)
    requires n < |s| ==> s[n] != 32 && !(9 <= s[n] <= 13)
    ensures SkipSpace(s, i) == n
    decreases n - i
  {
    if i < n {
      SkipsBlanks(s, i + 1, n);
    }
  }

  lemma {:induction false} RunsTo(s: seq<byte>, i: nat, n: nat)
    requires i <= n <= |s| && (forall k :: i <= k < n ==> 48 <= s[k] <= 57)
    requires n < |s| ==> !(48 <= s[n] <= 57)
    ensures RunEnd(s, i) == n
    decreases n - i
  {
    if i < n {
      RunsTo(s, i + 1, n);
    }
  }

  /** strtoull on every text: behind blanks and at most one sign, the digits count up to the
      first byte that is none; too large a number saturates, and a minus sign wraps. */
  lemma {:induction false} StrToULLExactly(blanks: seq<byte>, sign: seq<byte>, ds: seq<byte>, rest: seq<byte>)
    requires forall k :: 0 <= k < |blanks| ==> blanks[k] == 32 || 9 <= blanks[k] <= 13
    requires sign == [] || sign == [43] || sign == [45]
    requires AllDigits(ds) && (rest == [] || !(48 <= rest[0] <= 57))
    requires ds == [] && sign == [] && rest != [] ==>
               rest[0] != 32 && !(9 <= rest[0] <= 13) && rest[0] != 43 && rest[0] != 45
    ensures var v, end := ValueOf(ds), |blanks| + |sign| + |ds|;
      StrToULL(blanks + (sign + (ds + rest))) ==
        if ds == [] then Number(0, 0, false)
        else if v >= 0x1_0000_0000_0000_0000 then Number(0xffff_ffff_ffff_ffff, end, true)
        else if sign == [45] && v > 0 then Number(0x1_0000_0000_0000_0000 - v, end, false)
        else Number(v, end, false)
  {
    hide ValueOf, RunEnd, SkipSpace;
    var s := blanks + (sign + (ds + rest));
    var start := |blanks| + |sign|;
    assert s[start..start + |ds|] == ds;
    SkipsBlanks(s, 0, |blanks|);
    RunsTo(s, start, start + |ds|);
  }

  lemma StrToULLOfDigits(n: nat, rest: seq<byte>)
    requires n < TWO_TO_THE_64
    requires rest == [] || !IsDigit(rest[0])
    ensures StrToULL(Digits(n) + rest) == Number(n, |Digits(n)|, false)
  {
    ValueOfDigits(n);
    StrToULLOfRun(Digits(n), rest);
  }

  lemma StrToULLOfPadded(n: nat, width: nat, rest: seq<byte>)
    requires n < TWO_TO_THE_64 && |Digits(n)| <= width
    requires rest == [] || !IsDigit(rest[0])
    ensures StrToULL(Padded(n, width) + rest) == Number(n, width, false)
  {
    ValueOfPadded(width - |Digits(n)|, n);
    StrToULLOfRun(Padded(n, width), rest);
  }

  /** `n` has `d` digits exactly when it lies between consecutive powers of ten. */
  lemma {:induction false} DigitsLength(n: nat, d: nat)
    requires d >= 1
    ensures |Digits(n)| == d <==> n < Pow10(d) && (d == 1 || Pow10(d - 1) <= n)
  {
    if n >= 10 && d > 1 {
      DigitsLength(n / 10, d - 1);
    }
  }

  lemma {:induction false} DigitsAtMost(n: nat, d: nat)
    requires d >= 1
    ensures |Digits(n)| <= d <==> n < Pow10(d)
  {
    if d > 1 && n >= 10 {
      DigitsAtMost(n / 10, d - 1);
    }
  }

  /** _bw2_num_digits: counts by repeated division. */
  method NumDigits(x: nat) returns (count: nat)
    ensures count == |Digits(x)|
  {
    count := 1;
    var rest := x;
    while rest >= 10
      invariant count + |Digits(rest)| == 1 + |Digits(x)|
    {
      rest := rest / 10;
      count := count + 1;
    }
  }
}
