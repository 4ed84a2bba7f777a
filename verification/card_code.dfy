/**
 * Card codes (stringId in src/lib/utils.ts): a sequence number is written as a fixed-width
 * base-36 numeral over the symbols a-z (digits 0-25) and 0-9 (digits 26-35), most significant
 * symbol first and padded with 'a'. Numbers below 36^4 take four symbols; from 36^4 on, 36^4
 * is subtracted first and five symbols are written.
 */
module CardCode {

  /** The symbol table of the encoder: symbol d stands for digit d. */
  const Alphabet: string := "abcdefghijklmnopqrstuvwxyz0123456789"

  /** 36^4, the first sequence number written with five symbols. */
  const FiveSymbolStart: nat := 1679616

  /** 36^4 + 36^5: the first sequence number whose five-symbol code loses a digit. */
  const EncodableLimit: nat := 1679616 + 60466176

  function Pow36(k: nat): (r: nat)
    ensures r > 0
  {
    if k == 0 then 1 else 36 * Pow36(k - 1)
  }

  /** The symbol of digit d, computed from the layout of the alphabet. */
  function DigitChar(d: nat): char
    requires d < 36
  {
    if d < 26 then ('a' as int + d) as char else ('0' as int + d - 26) as char
  }

  /** The digit a symbol stands for (0 for a character outside the alphabet). */
  function DigitOf(c: char): nat
  {
    if 'a' <= c <= 'z' then c as int - 'a' as int
    else if '0' <= c <= '9' then c as int - '0' as int + 26
    else 0
  }

  /** The alphabet is laid out as DigitChar says, so DigitOf inverts indexing into it. */
  lemma {:induction false} AlphabetAt(d: nat)
    requires d < 36
    ensures Alphabet[d] == DigitChar(d)
    ensures DigitOf(Alphabet[d]) == d
  {
    assert Alphabet == seq(36, i requires 0 <= i < 36 => DigitChar(i));
  }

  /** The w low-order base-36 digits of n as symbols, most significant first. */
  function Digits(n: nat, w: nat): (s: string)
    ensures |s| == w
  {
    if w == 0 then [] else Digits(n / 36, w - 1) + [Alphabet[n % 36]]
  }

  /** The code stringId produces for a sequence number. */
  function Encode(id: nat): string
  {
    if id >= FiveSymbolStart then Digits(id - FiveSymbolStart, 5) else Digits(id, 4)
  }

  /** The base-36 value of a string of symbols, most significant first. */
  function ValueOf(s: string): nat
  {
    if s == [] then 0 else 36 * ValueOf(s[..|s| - 1]) + DigitOf(s[|s| - 1])
  }

  /** The inverse of Encode: the value of the code, plus 36^4 for a five-symbol code. */
  function Decode(code: string): nat
  {
    ValueOf(code) + if |code| == 5 then FiveSymbolStart else 0
  }

  /** `split('').reverse().join('')`. */
  function Reverse(s: string): (r: string)
    ensures |r| == |s|
  {
    if s == [] then [] else Reverse(s[1..]) + [s[0]]
  }

  /** The digits in the order the loop of stringId appends them: least significant first. */
  function LowFirst(n: nat, w: nat): string
  {
    if w == 0 then [] else [Alphabet[n % 36]] + LowFirst(n / 36, w - 1)
  }

  /**
   * stringId: append the low digit and divide, `length` times, then reverse.
   * The result is the code Encode specifies.
   */
  method StringId(id: nat) returns (code: string)
    ensures code == Encode(id)
  {
    var n: nat := id;
    var length := 4;
    if id >= FiveSymbolStart {
      length := 5;
      n := id - FiveSymbolStart;
    }
    ghost var n0 := n;
    var appended := "";
    var i := 0;
    while i < length
      invariant 0 <= i <= length
      invariant appended + LowFirst(n, length - i) == LowFirst(n0, length)
    {
      appended := appended + [Alphabet[n % 36]];
      n := n / 36;
      i := i + 1;
    }
    assert appended == LowFirst(n0, length);
    code := Reverse(appended);
    ReverseLowFirst(n0, length);
    assert code == Digits(n0, length);
  }

  lemma {:induction false} ReverseLowFirst(n: nat, w: nat)
    ensures Reverse(LowFirst(n, w)) == Digits(n, w)
  {
    if w > 0 {
      var s := LowFirst(n, w);
      assert s[0] == Alphabet[n % 36] && s[1..] == LowFirst(n / 36, w - 1);
      ReverseLowFirst(n / 36, w - 1);
    }
  }

  /** Four symbols below 36^4, five from there on. */
  lemma {:induction false} EncodeLength(id: nat)
    ensures |Encode(id)| == if id < FiveSymbolStart then 4 else 5
  {
  }

  lemma {:induction false} DigitsInAlphabet(n: nat, w: nat)
    ensures forall i :: 0 <= i < w ==> Digits(n, w)[i] in Alphabet
  {
    if w > 0 {
      DigitsInAlphabet(n / 36, w - 1);
      var s := Digits(n, w);
      assert s == Digits(n / 36, w - 1) + [Alphabet[n % 36]];
      forall i | 0 <= i < w ensures s[i] in Alphabet {
        if i < w - 1 {
          assert s[i] == Digits(n / 36, w - 1)[i];
        }
      }
    }
  }

  /** Every symbol of a code is one of the 36 symbols of the alphabet. */
  lemma {:induction false} EncodeInAlphabet(id: nat)
    ensures forall i :: 0 <= i < |Encode(id)| ==> Encode(id)[i] in Alphabet
  {
    if id >= FiveSymbolStart {
      DigitsInAlphabet(id - FiveSymbolStart, 5);
    } else {
      DigitsInAlphabet(id, 4);
    }
  }

  lemma {:induction false} DivModUnique(n: int, d: int, q: int, r: int)
    requires d > 0 && 0 <= r < d && n == d * q + r
    ensures n / d == q && n % d == r
  {
    var k := q - n / d;
    assert d * k == n % d - r;
    MulBound(d, k);
  }

  lemma {:induction false} MulBound(d: int, k: int)
    requires d > 0
    ensures k >= 1 ==> d * k >= d
    ensures k <= -1 ==> d * k <= -d
  {
    assert d * k - d == d * (k - 1);
    assert d * k + d == d * (k + 1);
  }

  lemma {:induction false} DivModNested(n: nat, p: nat)
    requires p > 0
    ensures n % (36 * p) == 36 * ((n / 36) % p) + n % 36
  {
    var q, r := n / 36, n % 36;
    var a, b := q / p, q % p;
    assert q == p * a + b;
    assert n == (36 * p) * a + (36 * b + r);
    DivModUnique(n, 36 * p, a, 36 * b + r);
  }

  /** Reading the digits back gives the number modulo 36^w: the digits are exactly n's low digits. */
  lemma {:induction false} ValueOfDigits(n: nat, w: nat)
    ensures ValueOf(Digits(n, w)) == n % Pow36(w)
  {
    if w == 0 {
    } else {
      var s := Digits(n, w);
      assert s[..|s| - 1] == Digits(n / 36, w - 1);
      assert s[|s| - 1] == Alphabet[n % 36];
      ValueOfDigits(n / 36, w - 1);
      AlphabetAt(n % 36);
      DivModNested(n, Pow36(w - 1));
    }
  }

  lemma {:induction false} Pow36Values()
    ensures Pow36(4) == FiveSymbolStart
    ensures Pow36(5) == 60466176
  {
    assert Pow36(1) == 36;
    assert Pow36(2) == 1296;
    assert Pow36(3) == 46656;
  }

  /** Digits loses nothing when the number fits in w digits. */
  lemma {:induction false} ValueOfDigitsInRange(n: nat, w: nat)
    requires n < Pow36(w)
    ensures ValueOf(Digits(n, w)) == n
  {
    ValueOfDigits(n, w);
    DivModUnique(n, Pow36(w), 0, n);
  }

  /** Round trip: decoding the code of every number below 36^4 + 36^5 gives the number back. */
  lemma {:induction false} DecodeEncode(id: nat)
    requires id < EncodableLimit
    ensures Decode(Encode(id)) == id
  {
    Pow36Values();
    var code := Encode(id);
    if id >= FiveSymbolStart {
      var n := id - FiveSymbolStart;
      assert code == Digits(n, 5);
      ValueOfDigitsInRange(n, 5);
      assert |code| == 5;
    } else {
      assert code == Digits(id, 4);
      ValueOfDigitsInRange(id, 4);
      assert |code| == 4;
    }
  }

  /** Distinct numbers in the encodable range get distinct codes; 4- and 5-symbol codes never collide. */
  lemma {:induction false} EncodeInjective(a: nat, b: nat)
    requires a < EncodableLimit && b < EncodableLimit && a != b
    ensures Encode(a) != Encode(b)
  {
    DecodeEncode(a);
    DecodeEncode(b);
  }

  /** The first four- and the first five-symbol codes. */
  lemma {:induction false} FirstCodes()
    ensures Encode(0) == "aaaa"
    ensures Encode(FiveSymbolStart) == "aaaaa"
  {
    assert Digits(0, 4) == "aaaa";
    assert Digits(0, 5) == "aaaaa";
  }
}
