/**
  The text form of a job id's hash (crates/coordinator/src/job_id.rs, lines 59-103): a big-endian byte
  string becomes a number, the number becomes base-56 digits, and leading zero bytes become leading '1's.
  The repository has no decoder; `Decode` is the one that inverts the encoder. Hashing and the serialised
  input are left out.
*/
module Base56 {
  type Byte = b: int | 0 <= b < 256

  // ---- positional numbers, most significant digit first ----

  function Number(base: nat, digits: seq<nat>): nat
    decreases |digits|
  {
    if digits == [] then 0 else Number(base, digits[..|digits| - 1]) * base + digits[|digits| - 1]
  }

  function Digits(base: nat, n: nat): seq<nat>
    requires base >= 2
    decreases n
  {
    if n == 0 then [] else Digits(base, n / base) + [n % base]
  }

  predicate DigitsBelow(base: nat, digits: seq<nat>) {
    forall i :: 0 <= i < |digits| ==> digits[i] < base
  }

  lemma NumberAdd(base: nat, digits: seq<nat>, d: nat)
    ensures Number(base, digits + [d]) == Number(base, digits) * base + d
  {
    assert (digits + [d])[..|digits|] == digits;
  }

  lemma MulLess(x: nat, y: nat, base: nat)
    requires x < y
    ensures x * base + base <= y * base
  {
    assert (x + 1) * base <= y * base;
  }

  lemma DivideUnique(base: nat, q: nat, r: nat, q': nat, r': nat)
    requires r < base && r' < base && q * base + r == q' * base + r'
    ensures q == q' && r == r'
  {
    if q < q' {
      MulLess(q, q', base);
    } else if q' < q {
      MulLess(q', q, base);
    }
  }

  lemma Divide(base: nat, n: nat)
    requires base >= 2
    ensures n / base * base + n % base == n && n % base < base
    ensures n > 0 ==> n / base < n
  {
  }

  lemma DivideStep(base: nat, q: nat, r: nat)
    requires base >= 2 && r < base
    ensures (q * base + r) / base == q && (q * base + r) % base == r
  {
    var n := q * base + r;
    Divide(base, n);
    DivideUnique(base, n / base, n % base, q, r);
  }

  /** The digits of a number stand for it, are below the base and do not start with zero. */
  lemma {:induction false} DigitsNumber(base: nat, n: nat)
    requires base >= 2
    ensures Number(base, Digits(base, n)) == n && DigitsBelow(base, Digits(base, n))
    ensures n > 0 ==> Digits(base, n) != [] && Digits(base, n)[0] > 0
    decreases n
  {
    if n > 0 {
      Divide(base, n);
      var q, r := n / base, n % base;
      DigitsNumber(base, q);
      assert Digits(base, n) == Digits(base, q) + [r];
      NumberAdd(base, Digits(base, q), r);
      if q == 0 {
        assert q * base == 0;
        assert Digits(base, q) == [];
      }
    }
  }

  /** Without a leading zero there is only one way to write a number. */
  lemma {:induction false} NumberDigits(base: nat, digits: seq<nat>)
    requires base >= 2 && DigitsBelow(base, digits) && (digits == [] || digits[0] > 0)
    ensures Digits(base, Number(base, digits)) == digits
    ensures digits != [] ==> Number(base, digits) > 0
    decreases |digits|
  {
    if digits != [] {
      var front, last := digits[..|digits| - 1], digits[|digits| - 1];
      NumberDigits(base, front);
      DivideStep(base, Number(base, front), last);
      if front == [] {
        assert Number(base, digits) == last;
      } else {
        MulLess(0, Number(base, front), base);
      }
      assert front + [last] == digits;
    }
  }

  // ---- changing the base, leading zeros kept ----

  function LeadingZeros(digits: seq<nat>): nat {
    if digits == [] || digits[0] != 0 then 0 else 1 + LeadingZeros(digits[1..])
  }

  function Zeros(count: nat): seq<nat> {
    if count == 0 then [] else [0] + Zeros(count - 1)
  }

  function Recode(source: nat, target: nat, digits: seq<nat>): seq<nat>
    requires target >= 2
  {
    Zeros(LeadingZeros(digits)) + Digits(target, Number(source, digits))
  }

  lemma {:induction false} SplitZeros(digits: seq<nat>)
    ensures LeadingZeros(digits) <= |digits|
    ensures digits == Zeros(LeadingZeros(digits)) + digits[LeadingZeros(digits)..]
    ensures LeadingZeros(digits) < |digits| ==> digits[LeadingZeros(digits)] != 0
  {
    if digits != [] && digits[0] == 0 {
      SplitZeros(digits[1..]);
    }
  }

  lemma {:induction false} ZerosInFront(count: nat, digits: seq<nat>)
    requires digits == [] || digits[0] != 0
    ensures LeadingZeros(Zeros(count) + digits) == count && |Zeros(count)| == count
    decreases count
  {
    if count == 0 {
      assert Zeros(0) + digits == digits;
    } else {
      ZerosInFront(count - 1, digits);
      assert (Zeros(count) + digits)[1..] == Zeros(count - 1) + digits;
    }
  }

  lemma {:induction false} ZerosAddNothing(base: nat, count: nat, digits: seq<nat>)
    ensures Number(base, Zeros(count) + digits) == Number(base, digits)
    decreases count + |digits|
  {
    if digits != [] {
      var front, last := digits[..|digits| - 1], digits[|digits| - 1];
      ZerosAddNothing(base, count, front);
      assert Zeros(count) + digits == (Zeros(count) + front) + [last];
      NumberAdd(base, Zeros(count) + front, last);
    } else if count > 0 {
      ZerosAddNothing(base, count - 1, []);
      ZerosEnd(count - 1);
      NumberAdd(base, Zeros(count - 1), 0);
      assert Zeros(count) + [] == Zeros(count) && Zeros(count - 1) + [] == Zeros(count - 1);
    }
  }

  lemma {:induction false} ZerosEnd(count: nat)
    ensures Zeros(count + 1) == Zeros(count) + [0]
    decreases count
  {
    if count > 0 {
      ZerosEnd(count - 1);
    }
  }

  /** Changing the base and changing back gives the same digits, leading zeros included. */
  lemma RecodeBack(source: nat, target: nat, digits: seq<nat>)
    requires source >= 2 && target >= 2 && DigitsBelow(source, digits)
    ensures Recode(target, source, Recode(source, target, digits)) == digits
  {
    var count := LeadingZeros(digits);
    SplitZeros(digits);
    var rest := digits[count..];
    var n := Number(source, digits);
    ZerosAddNothing(source, count, rest);
    NumberDigits(source, rest);
    DigitsNumber(target, n);
    ZerosInFront(count, Digits(target, n));
    ZerosAddNothing(target, count, Digits(target, n));
  }

  lemma {:induction false} ZerosBelow(base: nat, count: nat)
    requires base > 0
    ensures DigitsBelow(base, Zeros(count))
    decreases count
  {
    if count > 0 {
      ZerosBelow(base, count - 1);
    }
  }

  lemma RecodeBelow(source: nat, target: nat, digits: seq<nat>)
    requires target >= 2
    ensures DigitsBelow(target, Recode(source, target, digits))
    ensures digits != [] && source >= 2 && DigitsBelow(source, digits) ==> Recode(source, target, digits) != []
  {
    ZerosBelow(target, LeadingZeros(digits));
    DigitsNumber(target, Number(source, digits));
    if digits != [] && source >= 2 && DigitsBelow(source, digits) {
      RecodeBack(source, target, digits);
      assert Recode(target, source, []) == [];
    }
  }

  // ---- the alphabet ----

  /** Fifty-seven symbols; a base-56 digit never reaches the last one. */
  function Alphabet(): string {
    "123456789" + "ABCDEFGHJKLMNPQRSTUVWXYZ" + "abcdefghijkmnpqrstuvwxyz"
  }

  predicate Ascending(s: string) {
    forall i :: 0 <= i < |s| - 1 ==> s[i] < s[i + 1]
  }

  lemma AscendingConcat(s: string, t: string)
    requires Ascending(s) && Ascending(t) && s != [] && t != [] && s[|s| - 1] < t[0]
    ensures Ascending(s + t)
  {
  }

  lemma AlphabetAscending()
    ensures Ascending(Alphabet())
  {
    AscendingConcat("123456789", "ABCDEFGHJKLMNPQRSTUVWXYZ");
    AscendingConcat("123456789" + "ABCDEFGHJKLMNPQRSTUVWXYZ", "abcdefghijkmnpqrstuvwxyz");
  }

  lemma {:induction false} AscendingOrder(s: string, i: nat, j: nat)
    requires Ascending(s) && i < j < |s|
    ensures s[i] < s[j]
    decreases j
  {
    if i < j - 1 {
      AscendingOrder(s, i, j - 1);
    }
  }

  function Symbols(alphabet: string, digits: seq<nat>): string
    requires |alphabet| > 56 && DigitsBelow(56, digits)
  {
    seq(|digits|, i requires 0 <= i < |digits| => alphabet[digits[i]])
  }

  function Find(s: string, c: char): nat
    requires c in s
  {
    if s[0] == c then 0 else 1 + Find(s[1..], c)
  }

  lemma {:induction false} FindFirst(s: string, c: char)
    requires c in s
    ensures Find(s, c) < |s| && s[Find(s, c)] == c
  {
    if s[0] != c {
      FindFirst(s[1..], c);
    }
  }

  /** Every symbol is one of the first fifty-six. */
  predicate Spelled(alphabet: string, s: string)
    requires |alphabet| > 56
  {
    forall i :: 0 <= i < |s| ==> s[i] in alphabet[..56]
  }

  lemma FindSymbol(alphabet: string, d: nat)
    requires |alphabet| > 56 && Ascending(alphabet) && d < 56
    ensures alphabet[d] in alphabet[..56] && Find(alphabet[..56], alphabet[d]) == d
  {
    var s := alphabet[..56];
    assert s[d] == alphabet[d];
    FindFirst(s, s[d]);
    var k := Find(s, s[d]);
    if k < d {
      AscendingOrder(alphabet, k, d);
    } else if d < k {
      AscendingOrder(alphabet, d, k);
    }
  }

  function DigitsOf(alphabet: string, s: string): seq<nat>
    requires |alphabet| > 56 && Spelled(alphabet, s)
  {
    seq(|s|, i requires 0 <= i < |s| => Find(alphabet[..56], s[i]))
  }

  lemma DigitsOfSymbols(alphabet: string, digits: seq<nat>)
    requires |alphabet| > 56 && Ascending(alphabet) && DigitsBelow(56, digits)
    ensures Spelled(alphabet, Symbols(alphabet, digits))
    ensures DigitsOf(alphabet, Symbols(alphabet, digits)) == digits
  {
    var s := Symbols(alphabet, digits);
    forall i | 0 <= i < |digits|
      ensures s[i] in alphabet[..56] && Find(alphabet[..56], s[i]) == digits[i]
    {
      FindSymbol(alphabet, digits[i]);
    }
  }

  lemma SymbolsOfDigits(alphabet: string, s: string)
    requires |alphabet| > 56 && Spelled(alphabet, s)
    ensures DigitsBelow(56, DigitsOf(alphabet, s)) && Symbols(alphabet, DigitsOf(alphabet, s)) == s
  {
    forall i | 0 <= i < |s|
      ensures DigitsOf(alphabet, s)[i] < 56 && alphabet[DigitsOf(alphabet, s)[i]] == s[i]
    {
      FindFirst(alphabet[..56], s[i]);
    }
  }

  // ---- the encoder and its inverse ----

  function Encode(data: seq<Byte>): string {
    RecodeBelow(256, 56, data);
    if data == [] then "1" else Symbols(Alphabet(), Recode(256, 56, data))
  }

  /** A text the encoder could have produced: not empty, and of the first 56 symbols only. */
  predicate Valid(s: string) {
    s != [] && Spelled(Alphabet(), s)
  }

  function Decode(s: string): seq<Byte>
    requires Valid(s)
  {
    var data := Recode(56, 256, DigitsOf(Alphabet(), s));
    RecodeBelow(56, 256, DigitsOf(Alphabet(), s));
    data
  }

  /** Every non-empty byte string is recovered, and its text has only the first 56 symbols. */
  lemma DecodeEncode(data: seq<Byte>)
    requires data != []
    ensures Valid(Encode(data)) && Decode(Encode(data)) == data
  {
    AlphabetAscending();
    RecodeBelow(256, 56, data);
    DigitsOfSymbols(Alphabet(), Recode(256, 56, data));
    RecodeBack(256, 56, data);
  }

  /** Every text over the first 56 symbols is the text of exactly one non-empty byte string. */
  lemma EncodeDecode(s: string)
    requires Valid(s)
    ensures Decode(s) != [] && Encode(Decode(s)) == s
  {
    SymbolsOfDigits(Alphabet(), s);
    RecodeBelow(56, 256, DigitsOf(Alphabet(), s));
    RecodeBack(56, 256, DigitsOf(Alphabet(), s));
  }

  /** The empty string and a single zero byte share a text; nothing else does. */
  lemma EncodeInjective(a: seq<Byte>, b: seq<Byte>)
    ensures Encode(a) == Encode(b) <==> a == b || (a in {[], [0]} && b in {[], [0]})
  {
    EncodeZero();
    DecodeEncode([0]);
    if a != [] {
      DecodeEncode(a);
    }
    if b != [] {
      DecodeEncode(b);
    }
  }

  lemma RecodeZero()
    ensures Recode(256, 56, [0]) == [0]
  {
    NumberAdd(256, [], 0);
    assert [] + [0] == [0];
    assert [0][1..] == [];
    assert Zeros(1) == [0] + Zeros(0);
  }

  lemma EncodeZero()
    ensures Encode([0]) == Encode([]) == "1"
  {
    RecodeZero();
    assert Alphabet()[0] == '1';
  }

  // ---- what a text looks like ----

  /** The digits and letters without zero, `O`, `I`, `l` and `o`; `z` is in the alphabet and never used. */
  predicate Readable(c: char) {
    || '1' <= c <= '9'
    || ('A' <= c <= 'Z' && c != 'I' && c != 'O')
    || ('a' <= c <= 'y' && c != 'l' && c != 'o')
  }

  lemma FirstReadable(d: nat)
    requires d < 56
    ensures Readable(Alphabet()[d])
  {
    var digits, upper, lower := "123456789", "ABCDEFGHJKLMNPQRSTUVWXYZ", "abcdefghijkmnpqrstuvwxyz";
    assert forall i :: 0 <= i < |digits| ==> Readable(digits[i]);
    assert forall i :: 0 <= i < |upper| ==> Readable(upper[i]);
    assert forall i :: 0 <= i < |lower| - 1 ==> Readable(lower[i]);
  }

  /** A text has no symbol that could be taken for another. */
  lemma TextIsReadable(data: seq<Byte>)
    ensures forall i :: 0 <= i < |Encode(data)| ==> Readable(Encode(data)[i])
  {
    RecodeBelow(256, 56, data);
    if data != [] {
      var digits := Recode(256, 56, data);
      forall i | 0 <= i < |Encode(data)|
        ensures Readable(Encode(data)[i])
      {
        FirstReadable(digits[i]);
      }
    }
  }

  lemma {:induction false} ZerosAre(count: nat)
    ensures |Zeros(count)| == count && forall i :: 0 <= i < count ==> Zeros(count)[i] == 0
  {
    if count > 0 {
      ZerosAre(count - 1);
    }
  }

  /** Zero bytes alone become as many `1`s. */
  lemma ZerosBecomeOnes(data: seq<Byte>)
    requires data != [] && forall i :: 0 <= i < |data| ==> data[i] == 0
    ensures |Encode(data)| == |data| && forall i :: 0 <= i < |data| ==> Encode(data)[i] == '1'
  {
    AllZeros(data);
    RecodeBelow(256, 56, data);
    assert Recode(256, 56, data) == Zeros(|data|);
    ZerosAre(|data|);
    assert Alphabet()[0] == '1';
  }

  lemma {:induction false} AllZeros(digits: seq<nat>)
    requires forall i :: 0 <= i < |digits| ==> digits[i] == 0
    ensures LeadingZeros(digits) == |digits|
    ensures Number(256, digits) == 0
    decreases |digits|
  {
    if digits != [] {
      AllZeros(digits[1..]);
      AllZeros(digits[..|digits| - 1]);
    }
  }

  // ---- length ----

  function Power(b: nat, e: nat): nat
    decreases e
  {
    if e == 0 then 1 else b * Power(b, e - 1)
  }

  lemma {:induction false} PowerPositive(b: nat, e: nat)
    requires b > 0
    ensures Power(b, e) > 0
    decreases e
  {
    if e > 0 {
      PowerPositive(b, e - 1);
    }
  }

  lemma MulAssociates(x: nat, y: nat, z: nat)
    ensures x * (y * z) == x * y * z
  {
  }

  lemma {:induction false} PowerAdd(b: nat, x: nat, y: nat)
    ensures Power(b, x + y) == Power(b, x) * Power(b, y)
    decreases x
  {
    if x > 0 {
      PowerAdd(b, x - 1, y);
      MulAssociates(b, Power(b, x - 1), Power(b, y));
    }
  }

  lemma {:induction false} PowerMul(b: nat, x: nat, y: nat)
    ensures Power(Power(b, x), y) == Power(b, x * y)
    decreases y
  {
    if y > 0 {
      PowerMul(b, x, y - 1);
      PowerAdd(b, x, x * (y - 1));
      assert x + x * (y - 1) == x * y;
    } else {
      assert x * y == 0;
    }
  }

  lemma MulBoth(a: nat, b: nat, x: nat, y: nat)
    requires a <= b && x <= y
    ensures a * x <= b * y
    ensures a < b && y > 0 ==> a * x < b * y
  {
    assert a * x <= a * y;
    if a < b {
      MulLess(a, b, y);
    }
  }

  lemma {:induction false} PowerBase(a: nat, b: nat, e: nat)
    requires a <= b
    ensures Power(a, e) <= Power(b, e)
    ensures a < b && e > 0 ==> Power(a, e) < Power(b, e)
    decreases e
  {
    if e > 0 {
      PowerBase(a, b, e - 1);
      if b > 0 {
        PowerPositive(b, e - 1);
      }
      MulBoth(a, b, Power(a, e - 1), Power(b, e - 1));
    }
  }

  lemma {:induction false} PowerExponent(b: nat, x: nat, y: nat)
    requires b >= 2 && x <= y
    ensures Power(b, x) <= Power(b, y)
    decreases y
  {
    if x < y {
      PowerExponent(b, x, y - 1);
      MulBoth(1, b, Power(b, y - 1), Power(b, y - 1));
    }
  }

  lemma PowerStep(base: nat, e: nat, q: nat, n: nat)
    requires Power(base, e) <= q && q * base <= n
    ensures Power(base, e + 1) <= n
  {
    MulBoth(base, base, Power(base, e), q);
  }

  /** A number with `m` digits is at least the base to the power of `m - 1`. */
  lemma {:induction false} DigitsLarge(base: nat, n: nat)
    requires base >= 2 && n > 0
    ensures |Digits(base, n)| >= 1 && Power(base, |Digits(base, n)| - 1) <= n
    decreases n
  {
    Divide(base, n);
    var q := n / base;
    assert |Digits(base, n)| == |Digits(base, q)| + 1;
    if q == 0 {
      assert Digits(base, q) == [];
    } else {
      DigitsLarge(base, q);
      PowerStep(base, |Digits(base, q)| - 1, q, n);
    }
  }

  lemma {:induction false} NumberSmall(base: nat, digits: seq<nat>)
    requires base >= 2 && DigitsBelow(base, digits)
    ensures Number(base, digits) < Power(base, |digits|)
    decreases |digits|
  {
    if digits != [] {
      var front := digits[..|digits| - 1];
      NumberSmall(base, front);
      var p := Power(base, |front|);
      MulLess(Number(base, front), p, base);
      assert Power(base, |digits|) == base * p == p * base;
    }
  }

  lemma FiftySixToTheFifth()
    ensures Power(56, 5) >= Power(2, 29) && Power(2, 8) == 256
  {
    assert Power(2, 8) == 256;
    PowerAdd(2, 8, 8);
    PowerAdd(2, 16, 8);
    PowerAdd(2, 24, 5);
    assert Power(2, 5) == 32;
    assert Power(56, 2) == 3136;
    PowerAdd(56, 2, 2);
    assert Power(56, 5) == 56 * Power(56, 4);
  }

  /** 56^k below 256^n forces 29 k < 40 n, because 56^5 is at least 2^29. */
  lemma ExponentRatio(k: nat, n: nat)
    requires Power(56, k) < Power(256, n)
    ensures 29 * k < 40 * n
  {
    FiftySixToTheFifth();
    PowerBase(Power(56, k), Power(256, n), 5);
    PowerMul(56, k, 5);
    PowerMul(56, 5, k);
    assert k * 5 == 5 * k;
    PowerBase(Power(2, 29), Power(56, 5), k);
    PowerMul(2, 29, k);
    PowerMul(2, 8, n);
    PowerMul(2, 8 * n, 5);
    assert 8 * n * 5 == 40 * n;
    assert Power(2, 29 * k) < Power(2, 40 * n);
    if 29 * k >= 40 * n {
      PowerExponent(2, 40 * n, 29 * k);
    }
  }

  /** The number of base-56 digits of a number written with `n` bytes. */
  lemma DigitCount(data: seq<nat>)
    requires DigitsBelow(256, data) && Number(256, data) > 0
    ensures 29 * (|Digits(56, Number(256, data))| - 1) < 40 * |data|
  {
    var v := Number(256, data);
    NumberSmall(256, data);
    DigitsLarge(56, v);
    ExponentRatio(|Digits(56, v)| - 1, |data|);
  }

  lemma RecodedLength(data: seq<nat>)
    requires data != [] && DigitsBelow(256, data)
    ensures 29 * (|Recode(256, 56, data)| - 1) < 40 * |data|
  {
    var count := LeadingZeros(data);
    SplitZeros(data);
    var rest := data[count..];
    ZerosAddNothing(256, count, rest);
    ZerosInFront(count, []);
    if Number(256, rest) > 0 {
      DigitCount(rest);
    }
  }

  /** The text of n bytes is shorter than 40 n / 29 + 1 symbols: at most 45 for a 32-byte hash. */
  lemma EncodedLength(data: seq<Byte>)
    requires data != []
    ensures 29 * (|Encode(data)| - 1) < 40 * |data|
    ensures |data| == 32 ==> |Encode(data)| <= 45
  {
    RecodedLength(data);
  }

  // ---- the encoder's loops ----

  function Reversed(s: string): string {
    if s == [] then [] else Reversed(s[1..]) + [s[0]]
  }

  lemma ReversedAdd(s: string, c: char)
    ensures Reversed(s + [c]) == [c] + Reversed(s)
  {
    if s != [] {
      ReversedAdd(s[1..], c);
      assert (s + [c])[1..] == s[1..] + [c];
    }
  }

  lemma SymbolsConcat(alphabet: string, x: seq<nat>, y: seq<nat>)
    requires |alphabet| > 56 && DigitsBelow(56, x) && DigitsBelow(56, y)
    ensures DigitsBelow(56, x + y) && Symbols(alphabet, x + y) == Symbols(alphabet, x) + Symbols(alphabet, y)
  {
  }

  lemma SymbolsSplit(alphabet: string, num: nat, temp: string)
    requires |alphabet| > 56 && num > 0
    ensures DigitsBelow(56, Digits(56, num)) && DigitsBelow(56, Digits(56, num / 56))
    ensures Symbols(alphabet, Digits(56, num)) + Reversed(temp)
         == Symbols(alphabet, Digits(56, num / 56)) + Reversed(temp + [alphabet[num % 56]])
  {
    DigitsNumber(56, num);
    DigitsNumber(56, num / 56);
    SymbolsConcat(alphabet, Digits(56, num / 56), [num % 56]);
    ReversedAdd(temp, alphabet[num % 56]);
  }

  /** The symbols of a number, found from the last to the first and then reversed. */
  method NumberToText(alphabet: string, value: nat) returns (text: string)
    requires |alphabet| > 56
    ensures DigitsBelow(56, Digits(56, value)) && text == Symbols(alphabet, Digits(56, value))
  {
    var num := value;
    var temp := "";
    DigitsNumber(56, value);
    while num > 0
      invariant DigitsBelow(56, Digits(56, num))
      invariant Symbols(alphabet, Digits(56, value)) == Symbols(alphabet, Digits(56, num)) + Reversed(temp)
    {
      SymbolsSplit(alphabet, num, temp);
      var remainder := num % 56;
      temp := temp + [alphabet[remainder]];
      num := num / 56;
    }
    text := Reversed(temp);
  }

  method CountLeadingZeros(data: seq<Byte>) returns (count: nat)
    ensures count == LeadingZeros(data)
  {
    count := 0;
    for i := 0 to |data|
      invariant count == i && LeadingZeros(data) == i + LeadingZeros(data[i..])
    {
      if data[i] == 0 {
        count := count + 1;
        assert data[i..][1..] == data[i + 1..];
      } else {
        break;
      }
    }
  }

  method Ones(alphabet: string, count: nat) returns (text: string)
    requires |alphabet| > 56
    ensures DigitsBelow(56, Zeros(count)) && text == Symbols(alphabet, Zeros(count))
  {
    text := "";
    for i := 0 to count
      invariant DigitsBelow(56, Zeros(i)) && text == Symbols(alphabet, Zeros(i))
    {
      ZerosEnd(i);
      SymbolsConcat(alphabet, Zeros(i), [0]);
      text := text + [alphabet[0]];
    }
  }

  method EncodeBase56(data: seq<Byte>) returns (result: string)
    ensures result == Encode(data)
  {
    var alphabet := Alphabet();
    var num := Number(256, data);
    var leadingZeroCount := CountLeadingZeros(data);
    result := Ones(alphabet, leadingZeroCount);
    RecodeBelow(256, 56, data);
    if num == 0 {
      if leadingZeroCount == 0 {
        OnlyEmptyIsZero(data);
        result := result + [alphabet[0]];
      } else {
        assert Zeros(leadingZeroCount) + [] == Zeros(leadingZeroCount);
      }
    } else {
      var text := NumberToText(alphabet, num);
      SymbolsConcat(alphabet, Zeros(leadingZeroCount), Digits(56, num));
      result := result + text;
    }
  }

  /** A number with no leading zero byte is zero only when there are no bytes. */
  lemma OnlyEmptyIsZero(data: seq<Byte>)
    requires LeadingZeros(data) == 0 && Number(256, data) == 0
    ensures data == []
  {
    NumberDigits(256, data);
  }
}
