/** Variable-length numbers, as exception tables hold them (section 7.6 of DWARF 3). */
module Leb128 {

  type Byte = x: int | 0 <= x < 256

  const TWO_63: int := 0x8000_0000_0000_0000
  const TWO_64: int := 0x1_0000_0000_0000_0000

  /** The readers shift an int, which is exact for the seven bits of each of the first four bytes. */
  const MAX_BYTES: nat := 4

  function Pow128(n: nat): (r: nat)
    ensures r > 0
  {
    if n == 0 then 1 else 128 * Pow128(n - 1)
  }

  /** The number that the low seven bits of the bytes make, least significant first. */
  function UValue(s: seq<Byte>): (r: nat)
    ensures r < Pow128(|s|)
  {
    if s == [] then 0 else s[0] % 128 + 128 * UValue(s[1..])
  }

  /** The same as a two's complement number of as many bits. */
  function SValue(s: seq<Byte>): int
    requires s != []
  {
    if s[|s| - 1] % 128 >= 64 then UValue(s) - Pow128(|s|) else UValue(s)
  }

  function ToInt64(u: int): int {
    if u < TWO_63 then u else u - TWO_64
  }

  /** Where the number that starts at pos ends. */
  function End(data: seq<Byte>, pos: nat): (e: nat)
    ensures e > pos
    decreases |data| - pos
  {
    if pos < |data| && data[pos] >= 128 then End(data, pos + 1) else pos + 1
  }

  predicate NumberAt(data: seq<Byte>, pos: nat) {
    End(data, pos) <= |data| && End(data, pos) <= pos + MAX_BYTES
  }

  function BytesAt(data: seq<Byte>, pos: nat): (s: seq<Byte>)
    requires NumberAt(data, pos)
    ensures s != []
  {
    data[pos..End(data, pos)]
  }

  // ----- Readers -----------------------------------------------------------------------------

  /** Reads an unsigned number. The source ors disjoint bits where this adds. */
  method ReadULEB128(data: seq<Byte>, pos: nat) returns (result: int, next: nat)
    requires NumberAt(data, pos)
    ensures next == End(data, pos) && result == UValue(BytesAt(data, pos))
  {
    result, next := ReadGroups(data, pos);
  }

  /** Reads a signed number into an unsigned word, with the sign bits filled in. */
  method ReadSLEB128(data: seq<Byte>, pos: nat) returns (result: int, next: nat)
    requires NumberAt(data, pos)
    ensures next == End(data, pos) && 0 <= result < TWO_64 && ToInt64(result) == SValue(BytesAt(data, pos))
  {
    result, next := ReadGroups(data, pos);
    var shift := 7 * (next - pos);
    var b := data[next - 1];
    assert BytesAt(data, pos)[next - pos - 1] == b;
    FourGroups(next - pos);
    EndIsLow(data, pos);
    if b % 128 >= 64 && shift < 64 {
      result := result + TWO_64 - Pow128(next - pos);
    }
  }

  method ReadGroups(data: seq<Byte>, pos: nat) returns (result: int, next: nat)
    requires NumberAt(data, pos)
    ensures next == End(data, pos) && result == UValue(BytesAt(data, pos))
  {
    result := 0;
    var shifted := 1;
    next := pos;
    while true
      invariant pos <= next < End(data, pos) && End(data, next) == End(data, pos)
      invariant shifted == Pow128(next - pos)
      invariant result + shifted * UValue(data[next..End(data, pos)]) == UValue(data[pos..End(data, pos)])
      decreases End(data, pos) - next
    {
      ghost var before := next;
      var b := data[next];
      next := next + 1;
      SplitsOff(data[before..End(data, pos)], shifted);
      assert data[before..End(data, pos)][1..] == data[next..End(data, pos)];
      result := result + (b % 128) * shifted;
      shifted := shifted * 128;
      if b < 128 {
        break;
      }
    }
  }

  lemma SplitsOff(s: seq<Byte>, f: nat)
    requires s != []
    ensures f * UValue(s) == (s[0] % 128) * f + (f * 128) * UValue(s[1..])
  {
    hide UValue;
    Unfolds(s);
    var a, u, v := s[0] % 128, UValue(s[1..]), UValue(s);
    Distributes(f, a, u);
    assert f * v == f * (a + 128 * u);
  }

  lemma Unfolds(s: seq<Byte>)
    requires s != []
    ensures UValue(s) == s[0] % 128 + 128 * UValue(s[1..])
  {
  }

  lemma Distributes(f: int, a: int, u: int)
    ensures f * (a + 128 * u) == a * f + (f * 128) * u
  {
    assert f * (a + 128 * u) == f * a + f * (128 * u);
    assert f * (128 * u) == (f * 128) * u;
  }

  lemma FourGroups(n: nat)
    requires 0 < n <= MAX_BYTES
    ensures 128 <= Pow128(n) <= 0x1000_0000
  {
    assert Pow128(1) == 128 && Pow128(2) == 16384 && Pow128(3) == 2097152 && Pow128(4) == 0x1000_0000;
  }

  lemma ThirdPower()
    ensures Pow128(3) == 0x20_0000
  {
    assert Pow128(1) == 128 && Pow128(2) == 16384;
  }

  lemma {:induction false} EndIsLow(data: seq<Byte>, pos: nat)
    requires End(data, pos) <= |data|
    ensures data[End(data, pos) - 1] < 128
    decreases |data| - pos
  {
    if pos < |data| && data[pos] >= 128 {
      EndIsLow(data, pos + 1);
    }
  }

  // ----- Encoders -----------------------------------------------------------------------------

  function EncodeU(n: nat): (s: seq<Byte>)
    ensures s != []
  {
    if n < 128 then [n] else [128 + n % 128] + EncodeU(n / 128)
  }

  function EncodeS(n: int): (s: seq<Byte>)
    ensures s != []
    decreases if n >= 0 then n else -n
  {
    var low, rest := n % 128, n / 128;
    if (rest == 0 && low < 64) || (rest == -1 && low >= 64) then [low] else [128 + low] + EncodeS(rest)
  }

  /** Bytes that are one number and nothing more. */
  ghost predicate IsNumber(s: seq<Byte>) {
    s != [] && s[|s| - 1] < 128 && forall k :: 0 <= k < |s| - 1 ==> s[k] >= 128
  }

  lemma {:induction false} EncodedU(n: nat)
    ensures IsNumber(EncodeU(n)) && UValue(EncodeU(n)) == n
  {
    if n >= 128 {
      EncodedU(n / 128);
      assert EncodeU(n)[1..] == EncodeU(n / 128);
    } else {
      assert EncodeU(n)[1..] == [];
    }
  }

  lemma {:induction false} LengthU(n: nat, k: nat)
    requires n < 128 * Pow128(k)
    ensures |EncodeU(n)| <= k + 1
    decreases k
  {
    if n >= 128 {
      LengthU(n / 128, k - 1);
    }
  }

  lemma {:induction false} EncodedS(n: int)
    ensures IsNumber(EncodeS(n)) && SValue(EncodeS(n)) == n
    decreases if n >= 0 then n else -n
  {
    var low, rest := n % 128, n / 128;
    if (rest == 0 && low < 64) || (rest == -1 && low >= 64) {
      OneByte(low);
    } else {
      EncodedS(rest);
      OneMore(low, EncodeS(rest));
    }
  }

  lemma OneByte(low: nat)
    requires low < 128
    ensures IsNumber([low]) && SValue([low]) == if low >= 64 then low - 128 else low
  {
    assert [low][1..] == [] && Pow128(1) == 128;
  }

  lemma OneMore(low: nat, t: seq<Byte>)
    requires low < 128 && t != [] && IsNumber(t)
    ensures IsNumber([128 + low] + t) && SValue([128 + low] + t) == low + 128 * SValue(t)
  {
    var s := [128 + low] + t;
    assert s[1..] == t && s[|s| - 1] == t[|t| - 1];
    assert Pow128(|s|) == 128 * Pow128(|t|);
  }

  lemma {:induction false} LengthS(n: int, k: nat)
    requires -(64 * Pow128(k)) <= n < 64 * Pow128(k)
    ensures |EncodeS(n)| <= k + 1
    decreases k
  {
    var low, rest := n % 128, n / 128;
    if !((rest == 0 && low < 64) || (rest == -1 && low >= 64)) {
      assert k > 0 by {
        assert Pow128(0) == 1;
      }
      LengthS(rest, k - 1);
    }
  }

  lemma {:induction false} EndsThere(s: seq<Byte>, before: seq<Byte>, rest: seq<Byte>)
    requires IsNumber(s)
    ensures End(before + s + rest, |before|) == |before| + |s|
    decreases |s|
  {
    var data := before + s + rest;
    assert data[|before|] == s[0];
    if |s| > 1 {
      assert IsNumber(s[1..]) by {
        assert forall k :: 0 <= k < |s| - 2 ==> s[1..][k] == s[k + 1];
      }
      EndsThere(s[1..], before + [s[0]], rest);
      assert before + [s[0]] + s[1..] + rest == data;
    }
  }

  /** Wherever in the data it is, the reader reads back an encoded number below 2^28 and stops right behind it. */
  lemma UnsignedRoundTrip(n: nat, before: seq<Byte>, rest: seq<Byte>)
    requires n < 0x1000_0000
    ensures var data := before + EncodeU(n) + rest;
            NumberAt(data, |before|) && End(data, |before|) == |before| + |EncodeU(n)| && UValue(BytesAt(data, |before|)) == n
  {
    hide Pow128, EncodeU, UValue, IsNumber, End;
    ThirdPower();
    EncodedU(n);
    LengthU(n, 3);
    EndsThere(EncodeU(n), before, rest);
    var data := before + EncodeU(n) + rest;
    assert data[|before|..|before| + |EncodeU(n)|] == EncodeU(n);
  }

  lemma SignedRoundTrip(n: int, before: seq<Byte>, rest: seq<Byte>)
    requires -0x800_0000 <= n < 0x800_0000
    ensures var data := before + EncodeS(n) + rest;
            NumberAt(data, |before|) && End(data, |before|) == |before| + |EncodeS(n)| && SValue(BytesAt(data, |before|)) == n
  {
    hide Pow128, EncodeS, UValue, IsNumber, End;
    ThirdPower();
    EncodedS(n);
    LengthS(n, 3);
    EndsThere(EncodeS(n), before, rest);
    var data := before + EncodeS(n) + rest;
    assert data[|before|..|before| + |EncodeS(n)|] == EncodeS(n);
  }
}
