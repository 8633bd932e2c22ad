/** Schoolbook long division of bit strings by x^8 + x^2 + x + 1, the reference the checksum is
    compared with. */
module LongDivision {
  import opened Crc8

  /** The coefficient of x^(7 - i). */
  function Coefficient(o: Octet, i: nat): bool {
    if i == 0 then o.c7 else if i == 1 then o.c6 else if i == 2 then o.c5 else if i == 3 then o.c4
    else if i == 4 then o.c3 else if i == 5 then o.c2 else if i == 6 then o.c1 else o.c0
  }

  function Bits(o: Octet): (bits: seq<bool>)
    ensures |bits| == 8
  {
    seq(8, i requires 0 <= i < 8 => Coefficient(o, i))
  }

  function Flatten(data: seq<Octet>): seq<bool> {
    if data == [] then [] else Flatten(data[..|data| - 1]) + Bits(data[|data| - 1])
  }

  /** One row of the division: the next coefficient `z` is brought down, and when the leading
      coefficient of the row is 1 the generator is subtracted. */
  function DivideRow(w: Octet, z: bool): Octet {
    if w.c7 then Octet(w.c6, w.c5, w.c4, w.c3, w.c2, !w.c1, !w.c0, !z)
    else Octet(w.c6, w.c5, w.c4, w.c3, w.c2, w.c1, w.c0, z)
  }

  /** The remainder of a polynomial given by its coefficients, most significant first. */
  function Remainder(bits: seq<bool>): Octet {
    if bits == [] then ZERO else DivideRow(Remainder(bits[..|bits| - 1]), bits[|bits| - 1])
  }

  function ShiftIn(e: Octet, z: bool): Octet {
    Octet(e.c6, e.c5, e.c4, e.c3, e.c2, e.c1, e.c0, z)
  }

  /** The first `k` coefficients of `d`, at the low end. */
  function Leading(d: Octet, k: nat): Octet
    requires k <= 8
  {
    if k == 0 then ZERO else ShiftIn(Leading(d, k - 1), Coefficient(d, k - 1))
  }

  lemma {:induction false} LeadingCoefficient(d: Octet, k: nat, i: nat)
    requires k <= 8 && i < 8
    ensures Coefficient(Leading(d, k), i) == (8 - k <= i && Coefficient(d, i - (8 - k)))
  {
    if k > 0 && i < 7 {
      LeadingCoefficient(d, k - 1, i + 1);
    }
  }

  lemma LeadingAll(d: Octet)
    ensures Leading(d, 8) == d
  {
    var e := Leading(d, 8);
    forall i: nat | i < 8
      ensures Coefficient(e, i) == Coefficient(d, i)
    {
      LeadingCoefficient(d, 8, i);
    }
    SameCoefficients(e, d);
  }

  lemma SameCoefficients(a: Octet, b: Octet)
    requires forall i: nat | i < 8 :: Coefficient(a, i) == Coefficient(b, i)
    ensures a == b
  {
    assert Coefficient(a, 0) == Coefficient(b, 0) && Coefficient(a, 1) == Coefficient(b, 1);
    assert Coefficient(a, 2) == Coefficient(b, 2) && Coefficient(a, 3) == Coefficient(b, 3);
    assert Coefficient(a, 4) == Coefficient(b, 4) && Coefficient(a, 5) == Coefficient(b, 5);
    assert Coefficient(a, 6) == Coefficient(b, 6) && Coefficient(a, 7) == Coefficient(b, 7);
  }

  lemma DivideRowOfSum(u: Octet, e: Octet, z: bool)
    requires !e.c7
    ensures DivideRow(Add(u, e), z) == Add(TimesX(u), ShiftIn(e, z))
  {
  }

  lemma DivideNextBit(bits: seq<bool>, z: bool, u: Octet, e: Octet)
    requires Remainder(bits) == Add(u, e) && !e.c7
    ensures Remainder(bits + [z]) == Add(TimesX(u), ShiftIn(e, z))
  {
    hide Add, TimesX, DivideRow, ShiftIn;
    RemainderAppend(bits, z);
    DivideRowOfSum(u, e, z);
  }

  lemma AddZero(a: Octet)
    ensures Add(a, ZERO) == a
  {
  }

  lemma {:induction false} DivideBits(prefix: seq<bool>, d: Octet, k: nat)
    requires k <= 8
    ensures Remainder(prefix + Bits(d)[..k]) == Add(TimesXPower(Remainder(prefix), k), Leading(d, k))
  {
    hide Add, TimesX, DivideRow, ShiftIn;
    if k == 0 {
      assert prefix + Bits(d)[..0] == prefix;
      AddZero(Remainder(prefix));
    } else {
      DivideBits(prefix, d, k - 1);
      assert prefix + Bits(d)[..k] == prefix + Bits(d)[..k - 1] + [Bits(d)[k - 1]];
      LeadingCoefficient(d, k - 1, 0);
      assert Bits(d)[k - 1] == Coefficient(d, k - 1);
      DivideNextBit(prefix + Bits(d)[..k - 1], Bits(d)[k - 1], TimesXPower(Remainder(prefix), k - 1), Leading(d, k - 1));
    }
  }

  lemma RemainderAppend(bits: seq<bool>, z: bool)
    ensures Remainder(bits + [z]) == DivideRow(Remainder(bits), z)
  {
    assert (bits + [z])[..|bits|] == bits;
  }

  lemma DivideOctet(data: seq<Octet>, d: Octet)
    ensures Remainder(Flatten(data + [d])) == Add(TimesXPower(Remainder(Flatten(data)), 8), d)
  {
    hide Add, TimesX, DivideRow, ShiftIn;
    assert (data + [d])[..|data|] == data;
    assert Bits(d)[..8] == Bits(d);
    DivideBits(Flatten(data), d, 8);
    LeadingAll(d);
  }

  lemma {:induction false} ChecksumOfRemainder(data: seq<Octet>)
    ensures Checksum(data) == TimesXPower(Remainder(Flatten(data)), 8)
  {
    hide Add, TimesX, DivideRow, ShiftIn;
    if data == [] {
      TimesXPowerZero(ZERO, 8);
    } else {
      var n := |data| - 1;
      ChecksumOfRemainder(data[..n]);
      assert data == data[..n] + [data[n]];
      DivideOctet(data[..n], data[n]);
    }
  }

  /** The checksum is the remainder of the data, times x^8, on division by the generator; a word
      is divisible by the generator exactly when its last byte is the checksum of the others. */
  lemma ChecksumIsRemainder(data: seq<Octet>, crc: Octet)
    ensures Remainder(Flatten(data + [ZERO])) == Checksum(data)
    ensures Remainder(Flatten(data + [crc])) == ZERO <==> crc == Checksum(data)
  {
    ChecksumOfRemainder(data);
    DivideOctet(data, ZERO);
    DivideOctet(data, crc);
  }
}
