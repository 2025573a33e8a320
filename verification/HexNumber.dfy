/**
 strtol(buffer, 0, 16), narrowed to int: how the size of a chunk is read from its header line.
 */
module HexNumber {

  import opened Common

  predicate IsSpace(b: Byte) { b == 32 || 9 <= b <= 13 }

  predicate IsHex(b: Byte) { 48 <= b <= 57 || 65 <= b <= 70 || 97 <= b <= 102 }

  function HexDigit(b: Byte): (v: nat)
    requires IsHex(b)
    ensures v < 16
  {
    if b <= 57 then b - 48 else if b <= 70 then b - 55 else b - 87
  }

  function SkipSpace(s: seq<Byte>): seq<Byte>
  {
    if s != [] && IsSpace(s[0]) then SkipSpace(s[1..]) else s
  }

  /** The value of the longest run of hexadecimal digits at the start of `s`, continuing `acc`. */
  function HexRun(s: seq<Byte>, acc: nat): nat
  {
    if s != [] && IsHex(s[0]) then HexRun(s[1..], 16 * acc + HexDigit(s[0])) else acc
  }

  function HexMagnitude(s: seq<Byte>): nat
  {
    if |s| >= 3 && s[0] == 48 && (s[1] == 120 || s[1] == 88) && IsHex(s[2])
    then HexRun(s[2..], 0) else HexRun(s, 0)
  }

  const LONG_MAX: int := 0x7fff_ffff_ffff_ffff

  function ClampLong(v: int): int
  {
    if v > LONG_MAX then LONG_MAX else if v < -LONG_MAX - 1 then -LONG_MAX - 1 else v
  }

  function ToInt32(v: int): int
  {
    var r := v % 0x1_0000_0000;
    if r >= 0x8000_0000 then r - 0x1_0000_0000 else r
  }

  /** What `chunk_size` becomes when the header loop finds the end of a header line. */
  function ChunkSize(buffer: seq<Byte>): int
  {
    var s := SkipSpace(buffer);
    if s != [] && s[0] == 45 then ToInt32(ClampLong(0 - HexMagnitude(s[1..]) as int))
    else if s != [] && s[0] == 43 then ToInt32(ClampLong(HexMagnitude(s[1..])))
    else ToInt32(ClampLong(HexMagnitude(s)))
  }

  // ----- what spells a number -----

  const LOWER: seq<Byte> := [48, 49, 50, 51, 52, 53, 54, 55, 56, 57, 97, 98, 99, 100, 101, 102]
  const UPPER: seq<Byte> := [48, 49, 50, 51, 52, 53, 54, 55, 56, 57, 65, 66, 67, 68, 69, 70]

  /** The digits spell `n`: the last one is its remainder by sixteen, those before it spell the
      quotient, in letters of either case and with any zeros in front. */
  predicate Spells(digits: seq<Byte>, n: nat)
    decreases |digits|
  {
    if digits == [] then n == 0
    else
      var b := digits[|digits| - 1];
      (b == LOWER[n % 16] || b == UPPER[n % 16]) && Spells(digits[..|digits| - 1], n / 16)
  }

  /** The shortest text of a number. */
  function HexText(n: nat): (text: seq<Byte>)
    ensures text != []
  {
    (if n < 16 then [] else HexText(n / 16)) + [LOWER[n % 16]]
  }

  lemma {:induction false} HexTextSpells(n: nat)
    ensures Spells(HexText(n), n)
  {
    var text := HexText(n);
    if n < 16 {
      assert text[..|text| - 1] == [];
    } else {
      HexTextSpells(n / 16);
      assert text[..|text| - 1] == HexText(n / 16);
    }
  }

  predicate AllHex(digits: seq<Byte>) {
    forall i :: 0 <= i < |digits| ==> IsHex(digits[i])
  }

  lemma DigitValue(b: Byte, d: nat)
    requires d < 16
    ensures b == LOWER[d] || b == UPPER[d] <==> IsHex(b) && HexDigit(b) == d
  {
  }

  lemma {:induction false} SpellsHex(digits: seq<Byte>, n: nat)
    requires Spells(digits, n)
    ensures AllHex(digits)
    decreases |digits|
  {
    hide IsHex;
    if digits != [] {
      DigitValue(digits[|digits| - 1], n % 16);
      SpellsHex(digits[..|digits| - 1], n / 16);
      assert forall i :: 0 <= i < |digits| - 1 ==> digits[..|digits| - 1][i] == digits[i];
    }
  }

  lemma {:induction false} HexRunSnoc(digits: seq<Byte>, b: Byte, acc: nat)
    requires AllHex(digits) && IsHex(b)
    ensures HexRun(digits + [b], acc) == 16 * HexRun(digits, acc) + HexDigit(b)
    decreases |digits|
  {
    hide IsHex, HexDigit;
    if digits == [] {
      assert digits + [b] == [b] && [b][1..] == [];
    } else {
      assert (digits + [b])[1..] == digits[1..] + [b];
      HexRunSnoc(digits[1..], b, 16 * acc + HexDigit(digits[0]));
    }
  }

  /** Digits are read as the one number they spell. */
  lemma {:induction false} HexRunReads(digits: seq<Byte>, n: nat)
    requires AllHex(digits)
    ensures HexRun(digits, 0) == n <==> Spells(digits, n)
    decreases |digits|
  {
    hide HexDigit, IsHex;
    if digits != [] {
      var init, b := digits[..|digits| - 1], digits[|digits| - 1];
      assert digits == init + [b];
      HexRunSnoc(init, b, 0);
      DigitValue(b, n % 16);
      HexRunReads(init, n / 16);
      Digits(HexRun(init, 0), HexDigit(b), n);
    }
  }

  lemma Digits(front: nat, d: nat, n: nat)
    requires d < 16
    ensures 16 * front + d == n <==> front == n / 16 && d == n % 16
  {
  }

  lemma {:induction false} HexRunStops(digits: seq<Byte>, rest: seq<Byte>, acc: nat)
    requires AllHex(digits) && (rest != [] ==> !IsHex(rest[0]))
    ensures HexRun(digits + rest, acc) == HexRun(digits, acc)
    decreases |digits|
  {
    hide IsHex, HexDigit;
    if digits == [] {
      assert digits + rest == rest;
    } else {
      assert (digits + rest)[1..] == digits[1..] + rest;
      HexRunStops(digits[1..], rest, 16 * acc + HexDigit(digits[0]));
    }
  }

  lemma {:induction false} SpaceSkipped(spaces: seq<Byte>, s: seq<Byte>)
    requires forall i :: 0 <= i < |spaces| ==> IsSpace(spaces[i])
    requires s != [] ==> !IsSpace(s[0])
    ensures SkipSpace(spaces + s) == s
    decreases |spaces|
  {
    if spaces == [] {
      assert spaces + s == s;
    } else {
      assert (spaces + s)[1..] == spaces[1..] + s;
      SpaceSkipped(spaces[1..], s);
    }
  }

  /** What may stand before the digits. */
  predicate IsPrefix(prefix: seq<Byte>) {
    prefix == [] || prefix == [48, 120] || prefix == [48, 88]
  }

  lemma MagnitudeReads(prefix: seq<Byte>, digits: seq<Byte>, rest: seq<Byte>, n: nat)
    requires IsPrefix(prefix) && digits != [] && Spells(digits, n)
    requires rest != [] ==> !IsHex(rest[0]) && rest[0] != 120 && rest[0] != 88
    ensures HexMagnitude(prefix + digits + rest) == n
  {
    SpellsHex(digits, n);
    HexRunReads(digits, n);
    HexRunStops(digits, rest, 0);
    var s := prefix + digits + rest;
    hide HexRun, Spells;
    if prefix == [] {
      assert s == digits + rest;
    } else {
      assert s[2..] == digits + rest && s[2] == digits[0];
    }
  }

  /**
   A number behind any space, sign and prefix is read as the digits spell it: exactly when it fits
   int, and else as the int that differs from it by a multiple of two to the power of 32.
   */
  lemma NumberReads(spaces: seq<Byte>, sign: seq<Byte>, prefix: seq<Byte>, digits: seq<Byte>, rest: seq<Byte>, n: nat)
    requires forall i :: 0 <= i < |spaces| ==> IsSpace(spaces[i])
    requires (sign == [] || sign == [43] || sign == [45]) && IsPrefix(prefix)
    requires digits != [] && Spells(digits, n) && n <= LONG_MAX
    requires rest != [] ==> !IsHex(rest[0]) && rest[0] != 120 && rest[0] != 88
    ensures var size := ChunkSize(spaces + (sign + (prefix + digits + rest)));
      var v := if sign == [45] then -(n as int) else n;
      && -0x8000_0000 <= size < 0x8000_0000 && (size - v) % 0x1_0000_0000 == 0
      && (-0x8000_0000 <= v < 0x8000_0000 ==> size == v)
  {
    var number := prefix + digits + rest;
    MagnitudeReads(prefix, digits, rest, n);
    SpellsHex(digits, n);
    assert IsHex(digits[0]) && number[0] == if prefix == [] then digits[0] else 48;
    var s := sign + number;
    if sign == [] {
      assert s == number;
    } else {
      assert s[1..] == number;
    }
    SpaceSkipped(spaces, s);
    Narrowed(n);
    Narrowed(-(n as int));
  }

  lemma Narrowed(v: int)
    ensures -0x8000_0000 <= ToInt32(v) < 0x8000_0000 && (ToInt32(v) - v) % 0x1_0000_0000 == 0
    ensures -0x8000_0000 <= v < 0x8000_0000 ==> ToInt32(v) == v
  {
  }
}
