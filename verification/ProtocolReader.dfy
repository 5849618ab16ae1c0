/**
 The bounded reader that pre-checks protocol messages (src/protocol.rs:131-188), and the unsigned
 LEB128 integers it reads (section 7.6 of DWARF Version 5).
 */
module ProtocolReader {
  import opened Wrappers
  import opened Bytes

  datatype DecodeError = Truncated | LengthOverflow

  const MAX_LEB_BYTES: nat := 10

  function Pow2(n: nat): (r: nat)
    ensures r >= 1
  {
    if n == 0 then 1 else 2 * Pow2(n - 1)
  }

  /** Bitwise or of two naturals. */
  function Or(a: nat, b: nat): nat
    decreases a + b
  {
    if a == 0 then b
    else if b == 0 then a
    else 2 * Or(a / 2, b / 2) + if a % 2 == 1 || b % 2 == 1 then 1 else 0
  }

  /** A 64-bit shift: bits pushed past the top are lost. */
  function ShiftLeft(x: nat, n: nat): U64 {
    x * Pow2(n) % TWO_64
  }

  lemma {:induction false} OrIsSum(a: nat, x: nat, n: nat)
    requires a < Pow2(n)
    ensures Or(a, x * Pow2(n)) == a + x * Pow2(n)
    decreases n
  {
    if n > 0 && a > 0 && x > 0 {
      var p := Pow2(n - 1);
      assert x * Pow2(n) == 2 * (x * p) by { DoubleInside(x, p); }
      assert x * p >= 1 by { Positive(x, p); }
      OrIsSum(a / 2, x, n - 1);
      if a / 2 == 0 {
        assert Or(0, x * p) == x * p;
      }
    } else if n > 0 || a == 0 {
      Zero(x, Pow2(n));
    }
  }

  lemma DoubleInside(x: nat, p: nat)
    ensures x * (2 * p) == 2 * (x * p)
  {
  }

  lemma Positive(x: nat, p: nat)
    requires x > 0 && p > 0
    ensures x * p > 0
  {
  }

  lemma Zero(x: nat, p: nat)
    ensures x == 0 ==> x * p == 0
  {
  }

  lemma {:induction false} PowValues(k: nat)
    requires k <= 9
    ensures Pow2(7 * k + 7) == 128 * Pow2(7 * k)
    ensures Pow2(63) == 0x8000_0000_0000_0000
    ensures k < 9 ==> Pow2(7 * k) <= 0x100_0000_0000_0000
    ensures k == 9 ==> Pow2(7 * k) == 0x8000_0000_0000_0000
  {
    hide Pow2;
    SevenMore(7 * k);
    SevenMore(0);
    SevenMore(7);
    SevenMore(14);
    SevenMore(21);
    SevenMore(28);
    SevenMore(35);
    SevenMore(42);
    SevenMore(49);
    SevenMore(56);
    PowZero();
  }

  lemma PowZero()
    ensures Pow2(0) == 1
  {
  }

  lemma SevenMore(n: nat)
    ensures Pow2(n + 7) == 128 * Pow2(n)
  {
    assert Pow2(n + 7) == 2 * Pow2(n + 6) == 4 * Pow2(n + 5) == 8 * Pow2(n + 4);
    assert Pow2(n + 4) == 2 * Pow2(n + 3) == 4 * Pow2(n + 2) == 8 * Pow2(n + 1);
  }

  // ---------------------------------------------------------------- what the format means

  datatype Leb = Leb(value: nat, length: nat)

  /** The integer at the start of the input, of any size: seven bits a byte, lowest first, until a byte without the top bit. */
  function Meaning(s: seq<byte>): Option<Leb> {
    if s == [] then None
    else if s[0] < 128 then Some(Leb(s[0], 1))
    else
      match Meaning(s[1..])
      case None => None
      case Some(l) => Some(Leb(s[0] - 128 + 128 * l.value, l.length + 1))
  }

  /** 128 to the power i: the weight of byte i. */
  function Weight(i: nat): (r: nat)
    ensures r >= 1
  {
    if i == 0 then 1 else 128 * Weight(i - 1)
  }

  /** Digit i of v to the base 128. */
  function Digit(v: nat, i: nat): nat {
    v / Weight(i) % 128
  }

  /**
   The first n bytes are an encoding of v: all but the last have their top bit set, and the low seven
   bits of byte i are digit i of v to the base 128, of which there are no more.
   */
  predicate Digits(s: seq<byte>, n: nat, v: nat) {
    && 0 < n <= |s| && s[n - 1] < 128
    && (forall i :: 0 <= i < n - 1 ==> s[i] >= 128)
    && v < Weight(n)
    && forall i :: 0 <= i < n ==> Digit(v, i) == s[i] % 128
  }

  lemma LowestDigit(v: nat)
    ensures Digit(v, 0) == v % 128
  {
  }

  lemma HigherDigit(v: nat, i: nat)
    ensures Digit(v, i + 1) == Digit(v / 128, i)
  {
    DivideTwice(v, 128, Weight(i));
  }

  lemma DigitsFirst(s: seq<byte>, v: nat)
    requires s != []
    ensures Digits(s, 1, v) <==> s[0] < 128 && v == s[0]
  {
    hide Digit;
    assert Weight(0) == 1 && Weight(1) == 128;
    LowestDigit(v);
  }

  /** A continuation byte is the lowest digit, and the rest encodes what is above it. */
  lemma DigitsRest(s: seq<byte>, n: nat, v: nat)
    requires 1 < n <= |s|
    ensures Digits(s, n, v) <==> s[0] >= 128 && v % 128 == s[0] - 128 && Digits(s[1..], n - 1, v / 128)
  {
    hide Digit, Digits;
    if Digits(s, n, v) { DigitsDown(s, n, v); }
    if s[0] >= 128 && v % 128 == s[0] - 128 && Digits(s[1..], n - 1, v / 128) { DigitsUp(s, n, v); }
  }

  lemma DigitsDown(s: seq<byte>, n: nat, v: nat)
    requires 1 < n <= |s| && Digits(s, n, v)
    ensures s[0] >= 128 && v % 128 == s[0] - 128 && Digits(s[1..], n - 1, v / 128)
  {
    hide Digit;
    LowestDigit(v);
    assert Weight(n) == 128 * Weight(n - 1);
    forall i | 0 <= i < n - 1 ensures Digit(v / 128, i) == s[1..][i] % 128 {
      HigherDigit(v, i);
    }
  }

  lemma DigitsUp(s: seq<byte>, n: nat, v: nat)
    requires 1 < n <= |s| && s[0] >= 128 && v % 128 == s[0] - 128 && Digits(s[1..], n - 1, v / 128)
    ensures Digits(s, n, v)
  {
    hide Digit;
    LowestDigit(v);
    var t := s[1..];
    assert Weight(n) == 128 * Weight(n - 1);
    forall i | 0 <= i < n ensures Digit(v, i) == s[i] % 128 && (i < n - 1 ==> s[i] >= 128) {
      if i > 0 {
        HigherDigit(v, i - 1);
        assert Digit(v / 128, i - 1) == t[i - 1] % 128;
      }
    }
  }

  /** The meaning of the input is v in n bytes exactly if its first n bytes are the digits of v. */
  lemma {:induction false} MeaningDigits(s: seq<byte>, n: nat, v: nat)
    ensures Meaning(s) == Some(Leb(v, n)) <==> Digits(s, n, v)
    decreases |s|
  {
    hide Digits;
    MeaningBounds(s);
    if s == [] || n == 0 {
      NoDigits(s, n, v);
    } else if n == 1 {
      DigitsFirst(s, v);
      FirstByte(s);
      MeaningBounds(s[1..]);
    } else if n <= |s| {
      DigitsRest(s, n, v);
      MeaningDigits(s[1..], n - 1, v / 128);
    } else {
      NoDigits(s, n, v);
    }
  }

  lemma NoDigits(s: seq<byte>, n: nat, v: nat)
    requires n == 0 || n > |s|
    ensures !Digits(s, n, v)
  {
  }

  /** The shortest encoding. */
  function Minimal(v: nat): seq<byte> {
    if v < 128 then [v] else [v % 128 + 128] + Minimal(v / 128)
  }

  lemma {:induction false} MinimalMeans(v: nat, tail: seq<byte>)
    ensures Meaning(Minimal(v) + tail) == Some(Leb(v, |Minimal(v)|))
  {
    var s := Minimal(v) + tail;
    if v >= 128 {
      MinimalMeans(v / 128, tail);
      assert s[1..] == Minimal(v / 128) + tail;
    }
  }

  /** No encoding of a value is shorter than the minimal one, and one as short is the minimal one. */
  lemma {:induction false} MinimalIsShortest(s: seq<byte>)
    requires Meaning(s).Some?
    ensures var l := Meaning(s).value;
            && |Minimal(l.value)| <= l.length <= |s|
            && (l.length == |Minimal(l.value)| <==> s[..l.length] == Minimal(l.value))
  {
    var l := Meaning(s).value;
    if s[0] < 128 {
      assert s[..1] == [s[0]];
    } else {
      MinimalIsShortest(s[1..]);
      var rest := Meaning(s[1..]).value;
      assert s[..l.length] == [s[0]] + s[1..][..rest.length];
      if l.value >= 128 {
        assert l.value / 128 == rest.value && l.value % 128 + 128 == s[0];
        assert s[1..][..rest.length] == s[..l.length][1..];
        assert Minimal(l.value)[1..] == Minimal(rest.value);
      } else {
        assert rest.length >= 1;
      }
    }
  }

  lemma {:induction false} MinimalLength(v: nat, n: nat)
    requires v < Pow2(7 * n) && n > 0
    ensures |Minimal(v)| <= n
    decreases n
  {
    SevenMore(7 * (n - 1));
    if n == 1 {
      assert Pow2(0) == 1;
    } else if v >= 128 {
      MinimalLength(v / 128, n - 1);
    }
  }

  /** Every 64-bit value has an encoding of at most ten bytes. */
  lemma TenBytesSuffice(v: U64)
    ensures |Minimal(v)| <= MAX_LEB_BYTES
  {
    PowValues(9);
    assert v < Pow2(7 * 10);
    MinimalLength(v, 10);
  }

  // ---------------------------------------------------------------- the reader

  /** What reading an integer must return: the exact value of a 64-bit encoding of at most ten bytes. */
  function Expected(s: seq<byte>): Result<U64, DecodeError> {
    match Meaning(s)
    case Some(l) => if l.length <= MAX_LEB_BYTES && l.value < TWO_64 then Success(l.value) else Failure(LengthOverflow)
    case None => if |s| < MAX_LEB_BYTES then Failure(Truncated) else Failure(LengthOverflow)
  }

  lemma {:induction false} MeaningBounds(s: seq<byte>)
    ensures Meaning(s).Some? ==> 1 <= Meaning(s).value.length <= |s|
    ensures Meaning(s).None? <==> forall i :: 0 <= i < |s| ==> s[i] >= 128
  {
    if s != [] {
      MeaningBounds(s[1..]);
      if s[0] >= 128 && (forall i :: 0 <= i < |s[1..]| ==> s[1..][i] >= 128) {
        forall i | 0 <= i < |s| ensures s[i] >= 128 {
          if i > 0 { assert s[1..][i - 1] >= 128; }
        }
      }
    }
  }

  /**
   The answer is a value exactly if at most ten bytes encode it and it has 64 bits; truncated exactly if
   fewer than ten bytes, all of them continuation bytes, are all there is; and an overflow otherwise.
   */
  ghost predicate ReadsDigits(s: seq<byte>, r: Result<U64, DecodeError>) {
    && (forall v: U64 :: r == Success(v) <==> exists n: nat :: n <= 10 && Digits(s, n, v))
    && (r == Failure(Truncated) <==> |s| < 10 && forall i :: 0 <= i < |s| ==> s[i] >= 128)
  }

  lemma ExpectedDigits(s: seq<byte>)
    ensures ReadsDigits(s, Expected(s))
    ensures Expected(s).Success? ==> Meaning(s).Some? && Digits(s, Meaning(s).value.length, Expected(s).value)
  {
    hide Digits, Meaning;
    MeaningBounds(s);
    if Meaning(s).Some? {
      MeaningDigits(s, Meaning(s).value.length, Meaning(s).value.value);
    }
    forall v: U64 ensures Expected(s) == Success(v) <==> exists n: nat :: n <= 10 && Digits(s, n, v) {
      if n: nat :| n <= 10 && Digits(s, n, v) {
        MeaningDigits(s, n, v);
      }
    }
  }

  /** What k continuation bytes already read contribute. */
  function Above(rest: Option<Leb>, result: nat, k: nat): Option<Leb> {
    match rest
    case None => None
    case Some(l) => Some(Leb(result + Pow2(7 * k) * l.value, k + l.length))
  }

  /** One more continuation byte. */
  lemma AboveStep(s: seq<byte>, result: nat, k: nat)
    requires s != [] && s[0] >= 128
    ensures Above(Meaning(s), result, k) == Above(Meaning(s[1..]), result + (s[0] - 128) * Pow2(7 * k), k + 1)
  {
    SevenMore(7 * k);
    match Meaning(s[1..])
    case None =>
    case Some(l) => Distribute(Pow2(7 * k), s[0] - 128, l.value);
  }

  lemma Distribute(p: nat, x: nat, v: nat)
    ensures p * (x + 128 * v) == x * p + (128 * p) * v
  {
  }

  /** Seven more bits fit below the next position and lose nothing to the 64-bit shift. */
  lemma NoBitLost(result: nat, x: nat, k: nat)
    requires k <= 9 && result < Pow2(7 * k) && x < 128 && (k == 9 ==> x < 2)
    ensures Or(result, ShiftLeft(x, 7 * k)) == result + x * Pow2(7 * k)
    ensures result + x * Pow2(7 * k) < TWO_64
    ensures result + x * Pow2(7 * k) < Pow2(7 * k + 7)
  {
    hide Pow2, Or, ShiftLeft;
    PowValues(k);
    Below(x, Pow2(7 * k));
    ShiftExact(x, 7 * k);
    OrIsSum(result, x, 7 * k);
  }

  lemma ShiftExact(x: nat, n: nat)
    ensures x * Pow2(n) < TWO_64 ==> ShiftLeft(x, n) == x * Pow2(n)
  {
    hide Pow2;
  }

  lemma Below(x: nat, p: nat)
    requires x < 128
    ensures x * p <= 127 * p && (x < 2 ==> x * p <= p)
  {
  }

  lemma AboveNothing(s: seq<byte>)
    ensures Above(Meaning(s), 0, 0) == Meaning(s)
  {
    hide Meaning;
    PowZero();
  }

  /** The first byte decides whether the integer ends there. */
  lemma FirstByte(s: seq<byte>)
    ensures s == [] ==> Meaning(s).None?
    ensures s != [] && s[0] < 128 ==> Meaning(s) == Some(Leb(s[0], 1))
    ensures s != [] && s[0] >= 128 ==> (Meaning(s).None? <==> Meaning(s[1..]).None?)
    ensures s != [] && s[0] >= 128 && Meaning(s).Some? ==> Meaning(s).value.length == Meaning(s[1..]).value.length + 1
  {
  }

  /** Bits beyond the sixty-fourth. */
  lemma LastTooLarge(b: byte, result: nat)
    requires b % 128 >= 2
    ensures b < 128 ==> result + Pow2(63) * b >= TWO_64
  {
    PowValues(9);
  }

  /** After k continuation bytes, `result` holds their bits and the rest of the input decides. */
  ghost predicate ReadSoFar(s: seq<byte>, k: nat, result: nat) {
    k <= |s| && k <= 9 && result < Pow2(7 * k) && Meaning(s) == Above(Meaning(s[k..]), result, k)
  }

  lemma NothingRead(s: seq<byte>)
    ensures ReadSoFar(s, 0, 0)
  {
    hide Meaning;
    AboveNothing(s);
    assert s[0..] == s;
  }

  lemma EndOfInput(s: seq<byte>, k: nat, result: nat)
    requires ReadSoFar(s, k, result) && k == |s|
    ensures Expected(s) == Failure(Truncated)
  {
    hide Pow2;
    assert s[k..] == [];
  }

  /** What the next byte settles. */
  lemma NextByte(s: seq<byte>, k: nat, result: nat)
    requires ReadSoFar(s, k, result) && k < |s|
    ensures var (b, next) := (s[k], Or(result, ShiftLeft(s[k] % 128, 7 * k)));
            if k == 9 && b % 128 >= 2 then Expected(s) == Failure(LengthOverflow)
            else
              && next < TWO_64
              && if b < 128 then Expected(s) == Success(next) && Meaning(s).Some? && Meaning(s).value.length == k + 1
                 else if k == 9 then Expected(s) == Failure(LengthOverflow)
                 else ReadSoFar(s, k + 1, next)
  {
    hide Pow2, Or, ShiftLeft, Meaning;
    var b := s[k];
    FirstByte(s[k..]);
    MeaningBounds(s[k..]);
    assert s[k..][1..] == s[k + 1..];
    MeaningBounds(s[k + 1..]);
    PowValues(k);
    if k == 9 && b % 128 >= 2 {
      LastTooLarge(b, result);
    } else {
      NoBitLost(result, b % 128, k);
      if b < 128 {
        assert Pow2(7 * k) * b == b * Pow2(7 * k);
      } else {
        AboveStep(s[k..], result, k);
      }
    }
  }

  class Reader {
    const input: seq<byte>
    var cursor: nat

    ghost predicate Valid()
      reads this
    {
      cursor <= |input|
    }

    constructor (input: seq<byte>)
      ensures Valid() && this.input == input && cursor == 0
    {
      this.input := input;
      cursor := 0;
    }

    method Take(length: nat) returns (r: Result<seq<byte>, DecodeError>)
      requires Valid()
      modifies this`cursor
      ensures Valid()
      ensures r.Success? <==> length <= |input| - old(cursor)
      ensures r.Success? ==> cursor == old(cursor) + length && r.value == input[old(cursor)..cursor]
      ensures r.Failure? ==> cursor == old(cursor) && r.error == Truncated
    {
      var end := cursor + length;
      if end > |input| { return Failure(Truncated); }
      r := Success(input[cursor..end]);
      cursor := end;
    }

    method Byte() returns (r: Result<byte, DecodeError>)
      requires Valid()
      modifies this`cursor
      ensures Valid()
      ensures r.Success? <==> old(cursor) < |input|
      ensures r.Success? ==> cursor == old(cursor) + 1 && r.value == input[old(cursor)]
      ensures r.Failure? ==> cursor == old(cursor) && r.error == Truncated
    {
      var bytes :- Take(1);
      r := Success(bytes[0]);
    }

    /** Reads one integer: its exact value, or the exact reason why there is none. */
    method Uleb128() returns (r: Result<U64, DecodeError>)
      requires Valid()
      modifies this`cursor
      ensures Valid() && cursor - old(cursor) <= MAX_LEB_BYTES
      ensures r == Expected(input[old(cursor)..])
      ensures r.Success? ==> cursor == old(cursor) + Meaning(input[old(cursor)..]).value.length
      ensures ReadsDigits(input[old(cursor)..], r)
      ensures r.Success? ==> Digits(input[old(cursor)..], cursor - old(cursor), r.value)
    {
      hide Or, ShiftLeft, Meaning, Expected, ReadSoFar, Digits, ReadsDigits;
      ExpectedDigits(input[cursor..]);
      ghost var s := input[cursor..];
      var result: U64 := 0;
      var shift: nat := 0;
      ghost var k: nat := 0;
      NothingRead(s);
      while true
        invariant shift == 7 * k && cursor == old(cursor) + k && k <= 9 && k <= |s|
        invariant ReadSoFar(s, k, result)
        decreases 9 - k
      {
        if k == |s| {
          EndOfInput(s, k, result);
        } else {
          NextByte(s, k, result);
        }
        var byte :- Byte();
        assert byte == s[k];
        if shift == 63 && byte % 128 >= 2 {
          return Failure(LengthOverflow);
        }
        result := Or(result, ShiftLeft(byte % 128, shift));
        if byte < 128 {
          return Success(result);
        }
        shift := shift + 7;
        if shift > 63 {
          return Failure(LengthOverflow);
        }
        k := k + 1;
      }
    }

    method VarLen() returns (r: Result<nat, DecodeError>)
      requires Valid()
      modifies this`cursor
      ensures Valid()
      ensures r == Expected(input[old(cursor)..])
      ensures r.Success? ==> cursor == old(cursor) + Meaning(input[old(cursor)..]).value.length
    {
      var length :- Uleb128();
      r := Success(length);
    }

    /** A length and that many bytes. */
    method VarBytes() returns (r: Result<seq<byte>, DecodeError>)
      requires Valid()
      modifies this`cursor
      ensures Valid()
      ensures var s := input[old(cursor)..];
              match Expected(s)
              case Failure(e) => r == Failure(e)
              case Success(n) =>
                Meaning(s).Some? && if Meaning(s).value.length + n <= |s| then r.Success? else r == Failure(Truncated)
      ensures r.Success? ==>
                && Expected(input[old(cursor)..]) == Success(|r.value|)
                && cursor == old(cursor) + Meaning(input[old(cursor)..]).value.length + |r.value|
                && r.value == input[cursor - |r.value|..cursor]
    {
      var length :- VarLen();
      r := Take(length);
    }
  }

  /** Reading a minimal encoding returns the value and stops right after it. */
  lemma MinimalRoundTrip(v: U64, tail: seq<byte>)
    ensures Expected(Minimal(v) + tail) == Success(v)
    ensures Meaning(Minimal(v) + tail).Some? && Meaning(Minimal(v) + tail).value.length == |Minimal(v)|
  {
    hide Meaning, Minimal;
    MinimalMeans(v, tail);
    TenBytesSuffice(v);
  }
}
