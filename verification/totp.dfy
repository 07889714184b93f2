/** Time-based one-time passwords of auth/totp.go: the branch-free scan of VerifyAndConsume against "the earliest
    matching step", replay rejection over whole runs (section 5.2 of RFC 6238), the truncation of section 5.3 of
    RFC 4226 in 32-bit arithmetic, and single-use recovery codes. Steps are int64; the HMAC is a function from steps to
    digests. */
module Totp {
  import opened Words

  // ---------------------------------------------------------------- 64-bit words

  /** The two's complement bits of an int64, as a number. */
  function Bits(x: Int64): (n: nat)
    ensures n < TWO_64
  {
    x % TWO_64
  }

  function And(a: nat, b: nat, width: nat): nat {
    if width == 0 then 0 else (if a % 2 == 1 && b % 2 == 1 then 1 else 0) + 2 * And(a / 2, b / 2, width - 1)
  }

  function Or(a: nat, b: nat, width: nat): nat {
    if width == 0 then 0 else (if a % 2 == 1 || b % 2 == 1 then 1 else 0) + 2 * Or(a / 2, b / 2, width - 1)
  }

  function Not(a: nat): nat
    requires a < TWO_64
  {
    TWO_64 - 1 - a
  }

  lemma {:induction false} AndOnes(a: nat, width: nat)
    requires a < Pow2(width)
    ensures And(a, Pow2(width) - 1, width) == a
  {
    if width > 0 {
      assert (Pow2(width) - 1) / 2 == Pow2(width - 1) - 1 && (Pow2(width) - 1) % 2 == 1;
      AndOnes(a / 2, width - 1);
    }
  }

  lemma {:induction false} AndZero(a: nat, width: nat)
    ensures And(a, 0, width) == 0
  {
    if width > 0 {
      AndZero(a / 2, width - 1);
    }
  }

  lemma {:induction false} OrZero(a: nat, width: nat)
    requires a < Pow2(width)
    ensures Or(a, 0, width) == a && Or(0, a, width) == a
  {
    if width > 0 {
      OrZero(a / 2, width - 1);
    }
  }

  lemma Pow2Of64()
    ensures Pow2(64) == TWO_64
  {
    assert Pow2(8) == 256;
    Pow2Adds(8, 8);
    Pow2Adds(16, 16);
    Pow2Adds(32, 32);
  }

  /** The bits of a where mask is set, and those of b where it is not. */
  function Blend(a: nat, b: nat, mask: nat): nat
    requires mask < TWO_64
  {
    Or(And(a, mask, 64), And(b, Not(mask), 64), 64)
  }

  lemma BlendOnes(a: nat, b: nat)
    requires a < TWO_64
    ensures Blend(a, b, TWO_64 - 1) == a
  {
    Pow2Of64();
    AndOnes(a, 64);
    AndZero(b, 64);
    OrZero(a, 64);
  }

  lemma BlendZero(a: nat, b: nat)
    requires b < TWO_64
    ensures Blend(a, b, 0) == b
  {
    Pow2Of64();
    AndZero(a, 64);
    AndOnes(b, 64);
    OrZero(b, 64);
  }

  /** The mask of a choice: all ones for 1, all zeros for 0, by arithmetic alone. */
  function Mask(v: nat): Int64 {
    -(v % 2)
  }

  lemma MaskBits()
    ensures Bits(Mask(1)) == TWO_64 - 1 && Bits(Mask(0)) == 0
  {
    assert -1 % TWO_64 == TWO_64 - 1;
  }

  /** constantTimeSelectInt64: no branch on v. */
  function ConstantTimeSelect(v: nat, x: Int64, y: Int64): Int64 {
    Wrap64(Blend(Bits(x), Bits(y), Bits(Mask(v))))
  }

  lemma SelectChooses(v: nat, x: Int64, y: Int64)
    requires v <= 1
    ensures ConstantTimeSelect(v, x, y) == if v == 1 then x else y
  {
    MaskBits();
    BlendOnes(Bits(x), Bits(y));
    BlendZero(Bits(x), Bits(y));
    WrapBits(x);
    WrapBits(y);
  }

  lemma WrapBits(x: Int64)
    ensures Wrap64(Bits(x)) == x
  {
    if x < 0 {
      assert Bits(x) == x + TWO_64;
    }
  }

  // ---------------------------------------------------------------- the scan

  /** What the generator answers for each step, for one secret. */
  type Codes = Int64 -> string

  /** The step at an offset from the current one. */
  function StepAt(current: Int64, offset: int): Int64 {
    Wrap64(current + offset)
  }

  /** The offset of the earliest step, from offset to the end of the window, whose code was supplied. */
  function Earliest(codes: Codes, code: string, current: Int64, offset: int, skew: int): (o: int)
    requires offset <= skew + 1
    ensures offset <= o <= skew + 1
    ensures o <= skew ==> codes(StepAt(current, o)) == code
    ensures forall k :: offset <= k < o ==> codes(StepAt(current, k)) != code
    decreases skew - offset
  {
    if offset > skew || codes(StepAt(current, offset)) == code then offset
    else Earliest(codes, code, current, offset + 1, skew)
  }

  /** The verdict on a supplied code: the earliest match, if it is later than the last step used. */
  function Verdict(codes: Codes, code: string, current: Int64, skew: int, last: Int64): (bool, Int64)
    requires skew >= 0
  {
    var o := Earliest(codes, code, current, -skew, skew);
    if code != "" && o <= skew && StepAt(current, o) > last then (true, StepAt(current, o)) else (false, 0)
  }

  /** subtle.ConstantTimeCompare behind its length guard. */
  function Same(a: string, b: string): (bit: nat)
    ensures bit <= 1 && (bit == 1 <==> a == b)
  {
    if |a| == |b| && a == b then 1 else 0
  }

  /** VerifyAndConsume, for a secret that decodes. */
  method VerifyAndConsume(codes: Codes, code: string, current: Int64, skew: int, last: Int64)
    returns (matched: bool, step: Int64)
    requires skew >= 0
    ensures (matched, step) == Verdict(codes, code, current, skew, last)
  {
    if |code| == 0 {
      return false, 0;
    }
    var matchedBit: nat, matchedStep: Int64 := 0, 0;
    var offset: int := -skew;
    while offset <= skew
      invariant -skew <= offset <= skew + 1 && matchedBit <= 1
      invariant matchedBit == 0 ==> Earliest(codes, code, current, -skew, skew) >= offset
      invariant matchedBit == 1 ==> Earliest(codes, code, current, -skew, skew) < offset
      invariant matchedBit == 1 ==> matchedStep == StepAt(current, Earliest(codes, code, current, -skew, skew))
    {
      var candidate := StepAt(current, offset);
      var eq := Same(codes(candidate), code);
      var notYet := 1 - matchedBit;
      var updateNow := if eq == 1 && notYet == 1 then 1 else 0;
      SelectChooses(updateNow, candidate, matchedStep);
      matchedStep := ConstantTimeSelect(updateNow, candidate, matchedStep);
      matchedBit := if matchedBit == 1 || eq == 1 then 1 else 0;
      offset := offset + 1;
    }
    if matchedBit != 1 {
      return false, 0;
    }
    if matchedStep <= last {
      return false, 0;
    }
    return true, matchedStep;
  }

  /** Away from the ends of int64 a code is accepted exactly when it is that of a step of the window after the last one
      used and of no step of the window up to it. */
  lemma AcceptedIff(codes: Codes, code: string, current: Int64, skew: int, last: Int64)
    requires skew >= 0 && code != "" && -TWO_63 <= current - skew && current + skew < TWO_63
    ensures Verdict(codes, code, current, skew, last).0 <==>
      && (exists step: Int64 :: current - skew <= step <= current + skew && codes(step) == code && step > last)
      && (forall step: Int64 :: current - skew <= step <= current + skew && codes(step) == code ==> step > last)
  {
    var o := Earliest(codes, code, current, -skew, skew);
    forall step: Int64 | current - skew <= step <= current + skew && codes(step) == code
      ensures o <= skew && current + o <= step
    {
      assert step == StepAt(current, step - current);
    }
    if o <= skew {
      assert codes(StepAt(current, o)) == code;
    }
  }

  /** And it can go wrong: when steps 99 and 100 have the same code and step 99 was used, the code of the present step
      100 is refused, because the scan meets step 99 first. */
  lemma CollidingCodeIsRefused(codes: Codes, code: string)
    requires code != "" && codes(99) == code && codes(100) == code
    ensures !Verdict(codes, code, 100, 1, 99).0
  {
    AcceptedIff(codes, code, 100, 1, 99);
  }

  // ---------------------------------------------------------------- runs

  /** One attempt: the code supplied and the step the clock shows. */
  datatype Attempt = Attempt(code: string, current: Int64)

  /** The steps accepted when the caller stores each one returned. */
  function Accepted(codes: Codes, attempts: seq<Attempt>, skew: int, last: Int64): seq<Int64>
    requires skew >= 0
  {
    if attempts == [] then []
    else
      var v := Verdict(codes, attempts[0].code, attempts[0].current, skew, last);
      if v.0 then [v.1] + Accepted(codes, attempts[1..], skew, v.1) else Accepted(codes, attempts[1..], skew, last)
  }

  ghost predicate IncreasingFrom(steps: seq<Int64>, last: Int64) {
    (forall i :: 0 <= i < |steps| ==> steps[i] > last) && (forall i, j :: 0 <= i < j < |steps| ==> steps[i] < steps[j])
  }

  lemma LaterStepFirst(step: Int64, rest: seq<Int64>, last: Int64)
    requires step > last && IncreasingFrom(rest, step)
    ensures IncreasingFrom([step] + rest, last)
  {
  }

  /** Accepted steps strictly increase, whatever the clock does, so none is accepted twice. */
  lemma {:induction false} AcceptedStepsIncrease(codes: Codes, attempts: seq<Attempt>, skew: int, last: Int64)
    requires skew >= 0
    ensures IncreasingFrom(Accepted(codes, attempts, skew, last), last)
  {
    if attempts != [] {
      var v := Verdict(codes, attempts[0].code, attempts[0].current, skew, last);
      if v.0 {
        AcceptedStepsIncrease(codes, attempts[1..], skew, v.1);
        LaterStepFirst(v.1, Accepted(codes, attempts[1..], skew, v.1), last);
      } else {
        AcceptedStepsIncrease(codes, attempts[1..], skew, last);
      }
    }
  }

  /** The last step the caller has stored after these attempts. */
  function LastUsed(codes: Codes, attempts: seq<Attempt>, skew: int, last: Int64): Int64
    requires skew >= 0
  {
    var steps := Accepted(codes, attempts, skew, last);
    if steps == [] then last else steps[|steps| - 1]
  }

  lemma {:induction false} OneMoreAttempt(codes: Codes, attempts: seq<Attempt>, a: Attempt, skew: int, last: Int64)
    requires skew >= 0
    ensures var v := Verdict(codes, a.code, a.current, skew, LastUsed(codes, attempts, skew, last));
      Accepted(codes, attempts + [a], skew, last) ==
      Accepted(codes, attempts, skew, last) + if v.0 then [v.1] else []
    decreases |attempts|
  {
    var all := attempts + [a];
    if attempts == [] {
      assert all[1..] == [];
    } else {
      assert all[1..] == attempts[1..] + [a];
      var v := Verdict(codes, attempts[0].code, attempts[0].current, skew, last);
      OneMoreAttempt(codes, attempts[1..], a, skew, if v.0 then v.1 else last);
    }
  }

  /** After any attempts, one more (away from the ends of int64) is accepted exactly when its code is that of a step of
      the window after the last one accepted, and of none up to it; the step is then the earliest of that code. */
  lemma NextAttemptIff(codes: Codes, attempts: seq<Attempt>, a: Attempt, skew: int, last: Int64)
    requires skew >= 0 && a.code != "" && -TWO_63 <= a.current - skew && a.current + skew < TWO_63
    ensures var before, after := Accepted(codes, attempts, skew, last), Accepted(codes, attempts + [a], skew, last);
      var used := if before == [] then last else before[|before| - 1];
      && before <= after && |after| <= |before| + 1
      && (|after| == |before| + 1 <==>
            && (exists step: Int64 ::
                  a.current - skew <= step <= a.current + skew && codes(step) == a.code && step > used)
            && (forall step: Int64 :: a.current - skew <= step <= a.current + skew && codes(step) == a.code ==>
                  step > used))
      && (|after| == |before| + 1 ==>
            var taken := after[|before|];
            && a.current - skew <= taken <= a.current + skew && codes(taken) == a.code
            && (forall step: Int64 :: a.current - skew <= step < taken ==> codes(step) != a.code))
  {
    var used := LastUsed(codes, attempts, skew, last);
    OneMoreAttempt(codes, attempts, a, skew, last);
    AcceptedIff(codes, a.code, a.current, skew, used);
    if Verdict(codes, a.code, a.current, skew, used).0 {
      EarliestIsTaken(codes, a.code, a.current, skew, used);
    }
  }

  lemma EarliestIsTaken(codes: Codes, code: string, current: Int64, skew: int, last: Int64)
    requires skew >= 0 && code != "" && -TWO_63 <= current - skew && current + skew < TWO_63
    requires Verdict(codes, code, current, skew, last).0
    ensures var taken := Verdict(codes, code, current, skew, last).1;
      && current - skew <= taken <= current + skew && codes(taken) == code
      && (forall step: Int64 :: current - skew <= step < taken ==> codes(step) != code)
  {
    var o := Earliest(codes, code, current, -skew, skew);
    forall step: Int64 | current - skew <= step < StepAt(current, o)
      ensures codes(step) != code
    {
      assert step == StepAt(current, step - current);
    }
  }

  /** A code once accepted is refused while its step is in the window, however often it is sent. */
  lemma ReplayIsRefused(codes: Codes, code: string, current: Int64, later: Int64, skew: int, last: Int64, stored: Int64)
    requires skew >= 0 && Verdict(codes, code, current, skew, last).0
    requires Verdict(codes, code, current, skew, last).1 <= stored
    requires -TWO_63 <= current - skew && current + skew < TWO_63 && -TWO_63 <= later - skew && later + skew < TWO_63
    requires later - skew <= Verdict(codes, code, current, skew, last).1 <= later + skew
    ensures Verdict(codes, code, later, skew, stored) == (false, 0)
  {
    AcceptedIff(codes, code, later, skew, stored);
  }

  // ---------------------------------------------------------------- truncation

  const TWO_32 := 0x1_0000_0000

  function Pow10(n: nat): (p: nat)
    ensures p > 0
  {
    if n == 0 then 1 else 10 * Pow10(n - 1)
  }

  type Byte = b: int | 0 <= b < 256

  /** The 31-bit number dynamic truncation takes from a digest. */
  function Truncated(sum: seq<Byte>): (n: nat)
    requires |sum| == 20
    ensures n < 0x8000_0000
  {
    var o := sum[19] % 16;
    var b0: int, b1: int, b2: int, b3: int := sum[o] % 128, sum[o + 1], sum[o + 2], sum[o + 3];
    b0 * 0x100_0000 + b1 * 0x1_0000 + b2 * 0x100 + b3
  }

  /** n is what dynamic truncation takes from the digest: with o the low four bits of the last byte, its base-256
      digits, most significant first, are byte o without its top bit, and bytes o+1, o+2 and o+3 (section 5.3 of RFC
      4226). */
  ghost predicate IsTruncation(sum: seq<Byte>, n: nat)
    requires |sum| == 20
  {
    var o := sum[19] % 16;
    && n / 0x100_0000 == sum[o] % 128
    && n / 0x1_0000 % 256 == sum[o + 1]
    && n / 0x100 % 256 == sum[o + 2]
    && n % 256 == sum[o + 3]
  }

  lemma TruncatedIs(sum: seq<Byte>, n: nat)
    requires |sum| == 20
    ensures n == Truncated(sum) <==> IsTruncation(sum, n)
  {
    var o := sum[19] % 16;
    FourDigits(sum[o] % 128, sum[o + 1], sum[o + 2], sum[o + 3], n);
  }

  lemma LowDigit(q: int, r: int, n: nat)
    requires 0 <= q && 0 <= r < 256
    ensures n == q * 256 + r <==> n / 256 == q && n % 256 == r
  {
  }

  lemma ShiftsCompose(n: nat)
    ensures n / 0x1_0000 == n / 0x100 / 256 && n / 0x100_0000 == n / 0x100 / 256 / 256
  {
  }

  lemma FourDigits(b0: int, b1: int, b2: int, b3: int, n: nat)
    requires 0 <= b0 < 128 && 0 <= b1 < 256 && 0 <= b2 < 256 && 0 <= b3 < 256
    ensures n == b0 * 0x100_0000 + b1 * 0x1_0000 + b2 * 0x100 + b3 <==>
      n / 0x100_0000 == b0 && n / 0x1_0000 % 256 == b1 && n / 0x100 % 256 == b2 && n % 256 == b3
  {
    var q1 := b0 * 256 + b1;
    var q2 := q1 * 256 + b2;
    assert b0 * 0x100_0000 + b1 * 0x1_0000 + b2 * 0x100 + b3 == q2 * 256 + b3;
    LowDigit(q2, b3, n);
    LowDigit(q1, b2, n / 0x100);
    LowDigit(b0, b1, n / 0x100 / 256);
    ShiftsCompose(n);
  }

  /** The number a string of decimal digits writes. */
  function ReadDigits(s: seq<nat>): nat {
    if s == [] then 0 else 10 * ReadDigits(s[..|s| - 1]) + s[|s| - 1]
  }

  /** The loop computing a power of ten in a uint32. */
  method PowerOfTen(digits: nat) returns (mod: nat)
    ensures mod == Pow10(digits) % TWO_32
  {
    mod := 1;
    for i := 0 to digits
      invariant mod == Pow10(i) % TWO_32
    {
      TimesTen(Pow10(i));
      mod := (mod * 10) % TWO_32;
    }
  }

  /** The loop writing the digits, last first, with leading zeros. */
  method WriteDigits(number: nat, digits: nat) returns (code: seq<nat>)
    ensures |code| == digits && (forall i :: 0 <= i < digits ==> code[i] < 10)
    ensures ReadDigits(code) == number % Pow10(digits)
  {
    var value := number;
    code := [];
    for i := 0 to digits
      invariant |code| == i && forall k :: 0 <= k < i ==> code[k] < 10
      invariant Splits(number, value, Pow10(i), ReadDigits(code))
    {
      Prepended(value % 10, code);
      SplitFurther(number, value, Pow10(i), ReadDigits(code));
      code := [value % 10] + code;
      value := value / 10;
    }
    Remainder(number, value, Pow10(digits), ReadDigits(code));
  }

  /** generateCode, from the digest on; it panics where the wrapped power of ten is zero. */
  method GenerateCode(sum: seq<Byte>, digits: nat) returns (code: seq<nat>, panics: bool)
    requires |sum| == 20
    ensures panics <==> Pow10(digits) % TWO_32 == 0
    ensures !panics ==> |code| == digits && (forall i :: 0 <= i < digits ==> code[i] < 10)
    ensures !panics ==> forall n: nat | IsTruncation(sum, n) ::
      ReadDigits(code) == n % (Pow10(digits) % TWO_32) % Pow10(digits)
    ensures IsTruncation(sum, Truncated(sum))
  {
    TruncatedIs(sum, Truncated(sum));
    forall n: nat | IsTruncation(sum, n)
      ensures n == Truncated(sum)
    {
      TruncatedIs(sum, n);
    }
    var mod := PowerOfTen(digits);
    if mod == 0 {
      return [], true;
    }
    code := WriteDigits(Truncated(sum) % mod, digits);
    panics := false;
  }

  lemma TimesTen(p: nat)
    ensures (p % TWO_32 * 10) % TWO_32 == (10 * p) % TWO_32
  {
    assert 10 * p == p % TWO_32 * 10 + (p / TWO_32 * 10) * TWO_32;
  }

  ghost predicate Splits(number: nat, q: nat, m: nat, rest: nat) {
    number == q * m + rest && rest < m
  }

  lemma SplitFurther(number: nat, q: nat, m: nat, rest: nat)
    requires Splits(number, q, m, rest)
    ensures Splits(number, q / 10, 10 * m, q % 10 * m + rest)
  {
    assert q == q / 10 * 10 + q % 10;
    assert q * m == q / 10 * (10 * m) + q % 10 * m;
    Times(q % 10, 9, m);
  }

  lemma Times(a: nat, b: nat, p: nat)
    requires a <= b
    ensures a * p <= b * p
  {
  }

  lemma {:induction false} Prepended(d: nat, s: seq<nat>)
    ensures ReadDigits([d] + s) == d * Pow10(|s|) + ReadDigits(s)
  {
    if s == [] {
      assert [d] + s == [d];
      assert ReadDigits([d]) == 10 * ReadDigits([]) + d by {
        assert [d][..0] == [];
      }
    } else {
      Prepended(d, s[..|s| - 1]);
      assert ([d] + s)[..|s|] == [d] + s[..|s| - 1];
    }
  }

  lemma Remainder(number: nat, q: nat, m: nat, rest: nat)
    requires Splits(number, q, m, rest)
    ensures number % m == rest
  {
    var q' := number / m;
    assert number == q' * m + number % m;
    if q < q' {
      Times(q + 1, q', m);
    } else if q' < q {
      Times(q' + 1, q, m);
    }
  }

  lemma Small(n: nat, m: nat)
    requires n < m
    ensures n % m == n
  {
  }

  /** Up to nine digits the code is the truncated number modulo a power of ten, as section 5.3 of RFC 4226 has it. */
  lemma NineDigitsExact(sum: seq<Byte>, digits: nat)
    requires |sum| == 20 && digits <= 9
    ensures Pow10(digits) % TWO_32 == Pow10(digits)
    ensures IsTruncation(sum, Truncated(sum))
    ensures Truncated(sum) % (Pow10(digits) % TWO_32) % Pow10(digits) == Truncated(sum) % Pow10(digits)
  {
    TruncatedIs(sum, Truncated(sum));
    Pow10Grows(digits, 9);
    assert Pow10(9) == 1_000_000_000;
    Small(Pow10(digits), TWO_32);
    Small(Truncated(sum) % Pow10(digits), Pow10(digits));
  }

  /** From ten digits on the power of ten wraps around, and the code is right exactly for numbers below what is left. */
  lemma TenDigitsExactIff(sum: seq<Byte>, digits: nat)
    requires |sum| == 20 && digits >= 10 && Pow10(digits) % TWO_32 > 0
    ensures Truncated(sum) % (Pow10(digits) % TWO_32) % Pow10(digits) == Truncated(sum) % Pow10(digits)
       <==> Truncated(sum) < Pow10(digits) % TWO_32
  {
    Pow10Grows(10, digits);
    assert Pow10(10) == 10_000_000_000;
    WrappedModulus(Truncated(sum), Pow10(digits) % TWO_32, Pow10(digits));
  }

  lemma WrappedModulus(n: nat, m: nat, p: nat)
    requires 0 < m < p && n < p
    ensures n % m % p == n % p <==> n < m
  {
    Small(n % m, p);
    Small(n, p);
    if n < m {
      Small(n, m);
    }
  }

  lemma SixDigits(n: nat)
    requires n == 0x50ef7f19
    ensures n % (Pow10(6) % TWO_32) % Pow10(6) == 872921
  {
    assert Pow10(6) == 1_000_000;
  }

  /** The worked example of section 5.4 of RFC 4226. */
  lemma RfcExample(sum: seq<Byte>)
    requires sum == [0x1f, 0x86, 0x98, 0x69, 0x0e, 0x02, 0xca, 0x16, 0x61, 0x85,
                     0x50, 0xef, 0x7f, 0x19, 0xda, 0x8e, 0x94, 0x5b, 0x55, 0x5a]
    ensures Truncated(sum) == 0x50ef7f19 && Truncated(sum) % (Pow10(6) % TWO_32) % Pow10(6) == 872921
  {
    assert sum[19] % 16 == 10;
    assert sum[10] == 0x50 && sum[11] == 0xef && sum[12] == 0x7f && sum[13] == 0x19;
    SixDigits(Truncated(sum));
  }

  /** A digest whose ten-digit code is wrong. */
  lemma TenDigitsCanBeWrong(sum: seq<Byte>)
    requires sum == [0x7F, 0xFF, 0xFF, 0xFF] + seq(16, i => 0)
    ensures Truncated(sum) == 2147483647
    ensures Truncated(sum) % (Pow10(10) % TWO_32) % Pow10(10) == 737418239 != Truncated(sum) % Pow10(10)
  {
    assert Pow10(10) == 10_000_000_000 && Pow10(10) % TWO_32 == 1410065408;
  }

  lemma {:induction false} ZeroFrom32(digits: nat)
    requires digits >= 32
    ensures Pow10(digits) % TWO_32 == 0
  {
    if digits == 32 {
      assert Pow10(8) == 100_000_000 && Pow10(16) == 10_000_000_000_000_000;
      assert Pow10(24) == 1_000_000_000_000_000_000_000_000;
      assert Pow10(32) == 100_000_000_000_000_000_000_000_000_000_000;
    } else {
      ZeroFrom32(digits - 1);
      TimesTen(Pow10(digits - 1));
    }
  }

  /** Once the modulus is zero it stays zero, so not being zero at 31 digits it is not zero before. */
  lemma {:induction false} NonZeroBelow32(digits: nat)
    requires digits <= 31
    ensures Pow10(digits) % TWO_32 != 0
    decreases 31 - digits
  {
    if digits == 31 {
      assert Pow10(8) == 100_000_000 && Pow10(16) == 10_000_000_000_000_000;
      assert Pow10(24) == 1_000_000_000_000_000_000_000_000;
      assert Pow10(31) == 10_000_000_000_000_000_000_000_000_000_000;
    } else {
      NonZeroBelow32(digits + 1);
      TimesTen(Pow10(digits));
    }
  }

  /** The generator divides by zero exactly from 32 digits on, whatever the digest. */
  lemma PanicsFrom32(digits: nat)
    ensures Pow10(digits) % TWO_32 == 0 <==> digits >= 32
  {
    if digits >= 32 {
      ZeroFrom32(digits);
    } else {
      NonZeroBelow32(digits);
    }
  }

  lemma {:induction false} Pow10Grows(m: nat, n: nat)
    requires m <= n
    ensures Pow10(m) <= Pow10(n)
  {
    if m < n {
      Pow10Grows(m, n - 1);
    }
  }

  // ---------------------------------------------------------------- recovery codes

  /** ConsumeRecoveryCode: the first match is removed and nothing else moves. */
  method ConsumeRecoveryCode(stored: seq<string>, supplied: string) returns (consumed: bool, remaining: seq<string>)
    ensures consumed <==> supplied != "" && supplied in stored
    ensures !consumed ==> remaining == stored
    ensures consumed ==> exists k :: 0 <= k < |stored| && stored[k] == supplied && supplied !in stored[..k]
                                     && remaining == stored[..k] + stored[k + 1..]
    ensures consumed ==> multiset(remaining) == multiset(stored) - multiset{supplied}
  {
    if |stored| == 0 || supplied == "" {
      return false, stored;
    }
    var matchIndex, matched := -1, 0;
    for i := 0 to |stored|
      invariant 0 <= matched <= 1
      invariant matched == 0 ==> supplied !in stored[..i]
      invariant matched == 1 ==> 0 <= matchIndex < i && stored[matchIndex] == supplied
      invariant matched == 1 ==> supplied !in stored[..matchIndex]
    {
      var eq := Same(stored[i], supplied);
      var notYet := 1 - matched;
      matchIndex := if eq == 1 && notYet == 1 then i else matchIndex;
      matched := if matched == 1 || eq == 1 then 1 else 0;
    }
    assert stored[..|stored|] == stored;
    if matched != 1 {
      return false, stored;
    }
    assert stored == stored[..matchIndex] + [supplied] + stored[matchIndex + 1..];
    return true, stored[..matchIndex] + stored[matchIndex + 1..];
  }
}
