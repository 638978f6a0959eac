/** Base58 as the audit script writes it (analysis/audit_pump_amm_coverage.py). Both
    directions are one change of base that carries the leading zeros over. */
module Base58 {
  import opened Prelude

  const ALPHABET: string := "123456789" + "ABCDEFGH" + "JKLMN" + "PQRSTUVWXYZ" + "abcdefghijk" + "mnopqrstuvwxyz"

  // ----- numbers in a base, most significant digit first -----

  ghost predicate DigitsOf(d: seq<nat>, base: nat) {
    forall i :: 0 <= i < |d| ==> d[i] < base
  }

  function Eval(d: seq<nat>, base: nat): nat {
    if d == [] then 0 else Eval(d[..|d| - 1], base) * base + d[|d| - 1]
  }

  /** The digits of `n` without leading zeros. */
  function Digits(n: nat, base: nat): (d: seq<nat>)
    requires base >= 2
    decreases n
  {
    if n == 0 then []
    else
      QuotientSmaller(n, base);
      Digits(n / base, base) + [n % base]
  }

  lemma {:induction false} QuotientSmaller(n: nat, base: nat)
    requires base >= 2 && n > 0
    ensures n / base < n
  {
    assert n == n / base * base + n % base;
    assert n / base * base >= n / base * 2;
  }

  function LeadingZeros(d: seq<nat>): (z: nat)
    ensures z <= |d|
    ensures z < |d| ==> d[z] != 0
    ensures forall i :: 0 <= i < z ==> d[i] == 0
  {
    if d == [] || d[0] != 0 then 0 else 1 + LeadingZeros(d[1..])
  }

  function Zeros(n: nat): seq<nat> {
    seq(n, i => 0)
  }

  lemma {:induction false} MultipleSize(k: int, base: nat)
    ensures k >= 1 ==> k * base >= base
    ensures k <= -1 ==> -(k * base) >= base
  {
    assert k >= 1 ==> (k - 1) * base >= 0;
    assert k <= -1 ==> (-k - 1) * base >= 0;
  }

  lemma {:induction false} DivModOf(q: nat, r: nat, base: nat)
    requires r < base
    ensures (q * base + r) / base == q && (q * base + r) % base == r
  {
    var n := q * base + r;
    assert n == n / base * base + n % base;
    var dq := n / base - q;
    assert dq * base == r - n % base;
    MultipleSize(dq, base);
  }

  lemma {:induction false} DivMod(n: nat, base: nat)
    requires base >= 2
    ensures n / base * base + n % base == n && n % base < base
    ensures n / base == 0 ==> n % base == n
  {
  }

  lemma {:induction false} EvalPush(d: seq<nat>, last: nat, base: nat)
    ensures Eval(d + [last], base) == Eval(d, base) * base + last
  {
    assert (d + [last])[..|d|] == d;
  }

  lemma {:induction false} EvalOfDigits(n: nat, base: nat)
    requires base >= 2
    ensures Eval(Digits(n, base), base) == n && DigitsOf(Digits(n, base), base)
    ensures n > 0 ==> Digits(n, base) != [] && Digits(n, base)[0] != 0
    decreases n
  {
    if n > 0 {
      QuotientSmaller(n, base);
      EvalOfDigits(n / base, base);
      DivMod(n, base);
      EvalPush(Digits(n / base, base), n % base, base);
    }
  }

  lemma {:induction false} EvalPositive(d: seq<nat>, base: nat)
    requires base >= 2 && d != [] && d[0] != 0
    ensures Eval(d, base) > 0
  {
    if |d| > 1 {
      EvalPositive(d[..|d| - 1], base);
      assert Eval(d[..|d| - 1], base) * base >= base;
    }
  }

  lemma {:induction false} DigitsOfEval(d: seq<nat>, base: nat)
    requires base >= 2 && DigitsOf(d, base) && (d == [] || d[0] != 0)
    ensures Digits(Eval(d, base), base) == d
  {
    if d != [] {
      var init, last := d[..|d| - 1], d[|d| - 1];
      EvalPositive(d, base);
      DivModOf(Eval(init, base), last, base);
      DigitsOfEval(init, base);
      assert d == init + [last];
    }
  }

  lemma {:induction false} EvalPadded(z: nat, d: seq<nat>, base: nat)
    ensures Eval(Zeros(z) + d, base) == Eval(d, base)
  {
    var padded := Zeros(z) + d;
    if d != [] {
      assert padded[..|padded| - 1] == Zeros(z) + d[..|d| - 1];
      EvalPadded(z, d[..|d| - 1], base);
    } else if z > 0 {
      assert padded[..|padded| - 1] == Zeros(z - 1) + d;
      EvalPadded(z - 1, d, base);
    }
  }

  lemma {:induction false} LeadingZerosPadded(z: nat, d: seq<nat>)
    requires d == [] || d[0] != 0
    ensures LeadingZeros(Zeros(z) + d) == z
  {
    var padded := Zeros(z) + d;
    assert forall i :: 0 <= i < z ==> padded[i] == 0;
    assert d != [] ==> padded[z] == d[0];
  }

  // ----- changing base -----

  /** The same number in another base, with the same number of leading zeros. */
  function Recode(d: seq<nat>, from: nat, to: nat): seq<nat>
    requires to >= 2
  {
    Zeros(LeadingZeros(d)) + Digits(Eval(d, from), to)
  }

  lemma {:induction false} RecodeDigits(d: seq<nat>, from: nat, to: nat)
    requires to >= 2
    ensures DigitsOf(Recode(d, from, to), to)
    ensures LeadingZeros(Recode(d, from, to)) == LeadingZeros(d)
    ensures Eval(Recode(d, from, to), to) == Eval(d, from)
  {
    var n, z := Eval(d, from), LeadingZeros(d);
    EvalOfDigits(n, to);
    LeadingZerosPadded(z, Digits(n, to));
    EvalPadded(z, Digits(n, to), to);
  }

  /** Changing base and back loses nothing, leading zeros included. */
  lemma {:induction false} RecodeRoundTrip(d: seq<nat>, from: nat, to: nat)
    requires from >= 2 && to >= 2 && DigitsOf(d, from)
    ensures Recode(Recode(d, from, to), to, from) == d
  {
    var z := LeadingZeros(d);
    RecodeDigits(d, from, to);
    assert d == Zeros(z) + d[z..];
    EvalPadded(z, d[z..], from);
    DigitsOfEval(d[z..], from);
  }

  // ----- characters -----

  /** The character codes of the alphabet, run by run. */
  function CodeAt(i: nat): nat
    requires i < 58
  {
    if i < 9 then 49 + i else if i < 17 then 56 + i else if i < 22 then 57 + i
    else if i < 33 then 58 + i else if i < 44 then 64 + i else 65 + i
  }

  lemma {:induction false} AlphabetCode(i: nat)
    requires i < 58
    ensures |ALPHABET| == 58 && ALPHABET[i] as int == CodeAt(i)
  {
  }

  lemma {:induction false} AlphabetDistinct(i: nat, j: nat)
    requires i < 58 && j < 58
    ensures |ALPHABET| == 58 && (ALPHABET[i] == ALPHABET[j] <==> i == j)
  {
    AlphabetCode(i);
    AlphabetCode(j);
  }

  /** `ALPHABET.index(c)` from position `at` on, None where it raises. */
  function IndexOf(c: char, at: nat): (r: Option<nat>)
    ensures r.Some? ==> at <= r.value < |ALPHABET| && ALPHABET[r.value] == c
    ensures r.None? ==> forall i :: at <= i < |ALPHABET| ==> ALPHABET[i] != c
    decreases |ALPHABET| - at
  {
    if at >= |ALPHABET| then None else if ALPHABET[at] == c then Some(at) else IndexOf(c, at + 1)
  }

  predicate InAlphabet(s: string) {
    forall i :: 0 <= i < |s| ==> IndexOf(s[i], 0).Some?
  }

  function Indexes(s: string): (d: seq<nat>)
    requires InAlphabet(s)
    ensures |d| == |s|
    ensures forall i :: 0 <= i < |d| ==> d[i] == IndexOf(s[i], 0).value
  {
    seq(|s|, i requires 0 <= i < |s| => IndexOf(s[i], 0).value)
  }

  function Chars(d: seq<nat>): (s: string)
    requires forall i :: 0 <= i < |d| ==> d[i] < |ALPHABET|
    ensures |s| == |d|
    ensures forall i :: 0 <= i < |s| ==> s[i] == ALPHABET[d[i]]
  {
    seq(|d|, i requires 0 <= i < |d| => ALPHABET[d[i]])
  }

  lemma {:induction false} AlphabetSize()
    ensures |ALPHABET| == 58
  {
  }

  lemma {:induction false} CharsOfIndexes(s: string)
    requires InAlphabet(s)
    ensures DigitsOf(Indexes(s), 58) && Chars(Indexes(s)) == s
  {
    AlphabetSize();
  }

  lemma {:induction false} IndexesOfChars(d: seq<nat>)
    requires DigitsOf(d, 58)
    ensures |ALPHABET| == 58 && InAlphabet(Chars(d)) && Indexes(Chars(d)) == d
  {
    AlphabetSize();
    forall i | 0 <= i < |d| ensures IndexOf(Chars(d)[i], 0) == Some(d[i]) {
      var r := IndexOf(ALPHABET[d[i]], 0);
      if r.Some? {
        AlphabetDistinct(r.value, d[i]);
      }
    }
  }

  // ----- to_bytes -----

  function BitLength(n: nat): nat {
    if n == 0 then 0 else 1 + BitLength(n / 2)
  }

  /** `n.to_bytes(width, "big")` for an `n` that fits. */
  function ToBytes(n: nat, width: nat): seq<nat> {
    if width == 0 then [] else ToBytes(n / 256, width - 1) + [n % 256]
  }

  lemma {:induction false} HalvingEightTimes(n: nat)
    ensures n / 2 / 2 / 2 / 2 / 2 / 2 / 2 / 2 == n / 256
  {
  }

  lemma {:induction false} BitLengthOfByte(n: nat)
    requires 0 < n < 256
    ensures 1 <= BitLength(n) <= 8
  {
    assert BitLength(n / 128) <= 1;
    assert BitLength(n / 64) <= 2;
    assert BitLength(n / 32) <= 3;
    assert BitLength(n / 16) <= 4;
    assert BitLength(n / 8) <= 5;
    assert BitLength(n / 4) <= 6;
    assert BitLength(n / 2) <= 7;
  }

  lemma {:induction false} BitLengthPerByte(n: nat)
    requires n >= 256
    ensures BitLength(n) == 8 + BitLength(n / 256)
  {
    var a := n / 2;
    var b := a / 2;
    var c := b / 2;
    var d := c / 2;
    var e := d / 2;
    var f := e / 2;
    var g := f / 2;
    HalvingEightTimes(n);
    assert BitLength(g) == 1 + BitLength(n / 256);
    assert BitLength(e) == 2 + BitLength(g);
    assert BitLength(c) == 2 + BitLength(e);
    assert BitLength(a) == 2 + BitLength(c);
  }

  /** The width the decoder computes is exactly the number of base-256 digits. */
  lemma {:induction false} MinimalBytes(n: nat)
    ensures ToBytes(n, (BitLength(n) + 7) / 8) == Digits(n, 256)
    decreases n
  {
    if n >= 256 {
      BitLengthPerByte(n);
      MinimalBytes(n / 256);
    } else if n > 0 {
      BitLengthOfByte(n);
      assert Digits(n / 256, 256) == [];
      assert ToBytes(n / 256, 0) == [];
    }
  }

  // ----- the two functions -----

  /** What decoding gives; None where the script raises ValueError. */
  function Decoded(value: string): Option<seq<nat>> {
    if InAlphabet(value) then Some(Recode(Indexes(value), 58, 256)) else None
  }

  /** What encoding gives for a byte string. */
  ghost function Encoded(raw: seq<nat>): string {
    RecodeDigits(raw, 256, 58);
    AlphabetSize();
    Chars(Recode(raw, 256, 58))
  }

  method CountLeading<T(==)>(s: seq<T>, c: T) returns (n: nat)
    ensures n <= |s| && (n < |s| ==> s[n] != c) && forall i :: 0 <= i < n ==> s[i] == c
  {
    n := 0;
    while n < |s| && s[n] == c
      invariant n <= |s| && forall i :: 0 <= i < n ==> s[i] == c
    {
      n := n + 1;
    }
  }

  lemma {:induction false} DecodeStep(value: string, k: nat)
    requires k < |value| && InAlphabet(value[..k]) && IndexOf(value[k], 0).Some?
    ensures InAlphabet(value[..k + 1])
    ensures Eval(Indexes(value[..k + 1]), 58) == Eval(Indexes(value[..k]), 58) * 58 + IndexOf(value[k], 0).value
  {
    var index := IndexOf(value[k], 0).value;
    assert Indexes(value[..k + 1]) == Indexes(value[..k]) + [index];
    EvalPush(Indexes(value[..k]), index, 58);
  }

  method DecodeNumber(value: string) returns (number: Option<nat>)
    ensures number == if InAlphabet(value) then Some(Eval(Indexes(value), 58)) else None
  {
    var total := 0;
    for k := 0 to |value|
      invariant InAlphabet(value[..k]) && total == Eval(Indexes(value[..k]), 58)
    {
      var index := IndexOf(value[k], 0);
      if index.None? {
        return None;
      }
      DecodeStep(value, k);
      total := total * 58 + index.value;
    }
    assert value[..|value|] == value;
    return Some(total);
  }

  method B58Decode(value: string) returns (raw: Option<seq<nat>>)
    ensures raw == Decoded(value)
  {
    var number := DecodeNumber(value);
    if number.None? {
      return None;
    }
    var n := number.value;
    MinimalBytes(n);
    var bytes := if n > 0 then ToBytes(n, (BitLength(n) + 7) / 8) else [];
    var ones := CountLeading(value, '1');
    OnesAreZeros(value, ones);
    return Some(Zeros(ones) + bytes);
  }

  lemma {:induction false} OnesAreZeros(value: string, ones: nat)
    requires InAlphabet(value) && ones <= |value|
    requires forall i :: 0 <= i < ones ==> value[i] == '1'
    requires ones < |value| ==> value[ones] != '1'
    ensures LeadingZeros(Indexes(value)) == ones
  {
    AlphabetCode(0);
    assert ALPHABET[0] == '1';
    var d := Indexes(value);
    forall i | 0 <= i < |d| ensures d[i] == 0 <==> value[i] == '1' {
      AlphabetDistinct(d[i], 0);
    }
  }

  lemma {:induction false} EncodeStep(number: nat, tail: seq<nat>)
    requires number > 0 && DigitsOf(tail, 58)
    ensures |ALPHABET| == 58 && number / 58 < number && DigitsOf([number % 58] + tail, 58)
    ensures Digits(number, 58) + tail == Digits(number / 58, 58) + ([number % 58] + tail)
    ensures Chars([number % 58] + tail) == [ALPHABET[number % 58]] + Chars(tail)
  {
    DigitsStep(number, tail);
    PushChar(number % 58, tail);
  }

  lemma {:induction false} DigitsStep(number: nat, tail: seq<nat>)
    requires number > 0
    ensures number / 58 < number && Digits(number, 58) + tail == Digits(number / 58, 58) + ([number % 58] + tail)
  {
    QuotientSmaller(number, 58);
    Assoc(Digits(number / 58, 58), [number % 58], tail);
  }

  lemma {:induction false} PushChar(digit: nat, tail: seq<nat>)
    requires digit < 58 && DigitsOf(tail, 58)
    ensures |ALPHABET| == 58 && DigitsOf([digit] + tail, 58) && Chars([digit] + tail) == [ALPHABET[digit]] + Chars(tail)
  {
    CharsAppend([digit], tail);
  }

  method EncodeNumber(n: nat) returns (encoded: string)
    ensures |ALPHABET| == 58 && DigitsOf(Digits(n, 58), 58) && encoded == Chars(Digits(n, 58))
  {
    AlphabetSize();
    EvalOfDigits(n, 58);
    var number := n;
    ghost var tail: seq<nat> := [];
    encoded := "";
    while number > 0
      invariant DigitsOf(tail, 58) && Digits(n, 58) == Digits(number, 58) + tail && encoded == Chars(tail)
      decreases number
    {
      var remainder := number % 58;
      EncodeStep(number, tail);
      encoded := [ALPHABET[remainder]] + encoded;
      tail := [remainder] + tail;
      number := number / 58;
    }
    assert Digits(0, 58) + tail == tail;
  }

  method B58Encode(raw: seq<nat>) returns (s: string)
    requires DigitsOf(raw, 256)
    ensures s == Encoded(raw)
  {
    var encoded := EncodeNumber(Eval(raw, 256));
    var zeros := CountLeading(raw, 0);
    CharsOfPadded(raw, zeros);
    s := seq(zeros, i => '1') + encoded;
  }

  lemma {:induction false} CharsOfPadded(raw: seq<nat>, zeros: nat)
    requires zeros <= |raw| && (zeros < |raw| ==> raw[zeros] != 0) && forall i :: 0 <= i < zeros ==> raw[i] == 0
    ensures |ALPHABET| == 58 && DigitsOf(Digits(Eval(raw, 256), 58), 58)
    ensures Encoded(raw) == seq(zeros, i => '1') + Chars(Digits(Eval(raw, 256), 58))
  {
    var digits := Digits(Eval(raw, 256), 58);
    RecodePadded(raw, zeros);
    CharsAppend(Zeros(zeros), digits);
    CharsOfZeros(zeros);
  }

  lemma {:induction false} RecodePadded(raw: seq<nat>, zeros: nat)
    requires zeros <= |raw| && (zeros < |raw| ==> raw[zeros] != 0) && forall i :: 0 <= i < zeros ==> raw[i] == 0
    ensures DigitsOf(Digits(Eval(raw, 256), 58), 58) && DigitsOf(Zeros(zeros), 58)
    ensures Recode(raw, 256, 58) == Zeros(zeros) + Digits(Eval(raw, 256), 58)
  {
    EvalOfDigits(Eval(raw, 256), 58);
    FirstNonZero(raw, zeros);
  }

  lemma {:induction false} FirstNonZero(d: seq<nat>, z: nat)
    requires z <= |d| && (z < |d| ==> d[z] != 0) && forall i :: 0 <= i < z ==> d[i] == 0
    ensures LeadingZeros(d) == z
  {
  }

  lemma {:induction false} CharsAppend(a: seq<nat>, b: seq<nat>)
    requires DigitsOf(a, 58) && DigitsOf(b, 58)
    ensures |ALPHABET| == 58 && DigitsOf(a + b, 58) && Chars(a + b) == Chars(a) + Chars(b)
  {
    AlphabetSize();
  }

  lemma {:induction false} CharsOfZeros(z: nat)
    ensures |ALPHABET| == 58 && Chars(Zeros(z)) == seq(z, i => '1')
  {
    AlphabetCode(0);
    assert ALPHABET[0] == '1';
  }

  /** Decoding inverts encoding on every byte string, leading zero bytes included. */
  lemma {:induction false} DecodeOfEncode(raw: seq<nat>)
    requires DigitsOf(raw, 256)
    ensures Decoded(Encoded(raw)) == Some(raw)
  {
    RecodeDigits(raw, 256, 58);
    IndexesOfChars(Recode(raw, 256, 58));
    RecodeRoundTrip(raw, 256, 58);
  }

  /** Encoding inverts decoding on every string over the alphabet, leading '1's included. */
  lemma {:induction false} EncodeOfDecode(value: string)
    requires InAlphabet(value)
    ensures Encoded(Decoded(value).value) == value
  {
    CharsOfIndexes(value);
    RecodeRoundTrip(Indexes(value), 58, 256);
  }
}
