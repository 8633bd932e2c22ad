/** The checksum of the UART frames: CRC-8 with generator x^8 + x^2 + x + 1 and initial value 0,
    computed bit by bit. A byte is read as the polynomial over GF(2) whose coefficients are its bits. */
module Crc8 {
  import opened Bytes

  datatype Octet = Octet(c7: bool, c6: bool, c5: bool, c4: bool, c3: bool, c2: bool, c1: bool, c0: bool)

  const ZERO := Octet(false, false, false, false, false, false, false, false)

  function ToOctet(b: bv8): Octet {
    Octet(Bit(b, 0x80), Bit(b, 0x40), Bit(b, 0x20), Bit(b, 0x10),
          Bit(b, 0x08), Bit(b, 0x04), Bit(b, 0x02), Bit(b, 0x01))
  }

  /** Addition of polynomials over GF(2). */
  function Add(a: Octet, b: Octet): Octet {
    Octet(a.c7 != b.c7, a.c6 != b.c6, a.c5 != b.c5, a.c4 != b.c4,
          a.c3 != b.c3, a.c2 != b.c2, a.c1 != b.c1, a.c0 != b.c0)
  }

  /** Multiplication by x modulo the generator. */
  function TimesX(a: Octet): Octet {
    Octet(a.c6, a.c5, a.c4, a.c3, a.c2, a.c1 != a.c7, a.c0 != a.c7, a.c7)
  }

  function TimesXPower(a: Octet, n: nat): Octet {
    if n == 0 then a else TimesX(TimesXPower(a, n - 1))
  }

  function Checksum(data: seq<Octet>): Octet {
    if data == [] then ZERO
    else TimesXPower(Add(Checksum(data[..|data| - 1]), data[|data| - 1]), 8)
  }

  function Octets(data: seq<Byte>): (octets: seq<Octet>)
    ensures |octets| == |data|
  {
    seq(|data|, i requires 0 <= i < |data| => ToOctet(data[i] as bv8))
  }

  predicate Bit(a: bv8, mask: bv8) {
    a & mask != 0
  }

  lemma XorHighBits(a: bv8, b: bv8)
    ensures Bit(a ^ b, 0x80) == (Bit(a, 0x80) != Bit(b, 0x80))
    ensures Bit(a ^ b, 0x40) == (Bit(a, 0x40) != Bit(b, 0x40))
    ensures Bit(a ^ b, 0x20) == (Bit(a, 0x20) != Bit(b, 0x20))
    ensures Bit(a ^ b, 0x10) == (Bit(a, 0x10) != Bit(b, 0x10))
  {
  }

  lemma XorLowBits(a: bv8, b: bv8)
    ensures Bit(a ^ b, 0x08) == (Bit(a, 0x08) != Bit(b, 0x08))
    ensures Bit(a ^ b, 0x04) == (Bit(a, 0x04) != Bit(b, 0x04))
    ensures Bit(a ^ b, 0x02) == (Bit(a, 0x02) != Bit(b, 0x02))
    ensures Bit(a ^ b, 0x01) == (Bit(a, 0x01) != Bit(b, 0x01))
  {
  }

  lemma XorIsAdd(a: bv8, b: bv8)
    ensures ToOctet(a ^ b) == Add(ToOctet(a), ToOctet(b))
  {
    XorHighBits(a, b);
    XorLowBits(a, b);
  }

  lemma OctetsDiffer(a: bv8, b: bv8)
    ensures ToOctet(a) == ToOctet(b) <==> a == b
  {
  }

  // ----- The loop of the firmware ----------------------------------------------------------

  /** One turn of the inner loop. */
  function ShiftBit(crc: bv8): bv8 {
    if crc & 0x80 != 0 then (crc << 1) ^ 0x07 else crc << 1
  }

  function ShiftBits(crc: bv8, n: nat): bv8 {
    if n == 0 then crc else ShiftBit(ShiftBits(crc, n - 1))
  }

  /** The checksum register after `data`. */
  function Register(data: seq<Byte>): bv8 {
    if data == [] then 0
    else ShiftBits(Register(data[..|data| - 1]) ^ (data[|data| - 1] as bv8), 8)
  }

  function ChecksumOf(data: seq<Byte>): Byte {
    Register(data) as Byte
  }

  /** The nested loop computes the checksum of the first `len` bytes. */
  method Compute(data: array<Byte>, len: nat) returns (result: Byte)
    requires len <= data.Length
    ensures result == ChecksumOf(data[..len])
  {
    var crc: bv8 := 0;
    for i := 0 to len
      invariant crc == Register(data[..i])
    {
      ghost var prefix := data[..i + 1];
      assert prefix[..|prefix| - 1] == data[..i];
      crc := crc ^ (data[i] as bv8);
      ghost var start := crc;
      for bit := 0 to 8
        invariant crc == ShiftBits(start, bit)
      {
        if crc & 0x80 != 0 {
          crc := (crc << 1) ^ 0x07;
        } else {
          crc := crc << 1;
        }
      }
    }
    result := crc as Byte;
  }

  lemma ShiftIsTimesX(a: bv8)
    ensures ToOctet(ShiftBit(a)) == TimesX(ToOctet(a))
  {
  }

  lemma {:induction false} ShiftsAreTimesXPower(a: bv8, n: nat)
    ensures ToOctet(ShiftBits(a, n)) == TimesXPower(ToOctet(a), n)
  {
    if n > 0 {
      ShiftsAreTimesXPower(a, n - 1);
      ShiftIsTimesX(ShiftBits(a, n - 1));
    }
  }

  lemma RegisterStep(prefix: seq<Octet>, crc: bv8, b: bv8)
    requires ToOctet(crc) == Checksum(prefix)
    ensures ToOctet(ShiftBits(crc ^ b, 8)) == Checksum(prefix + [ToOctet(b)])
  {
    var word := prefix + [ToOctet(b)];
    assert word[..|word| - 1] == prefix;
    XorIsAdd(crc, b);
    ShiftsAreTimesXPower(crc ^ b, 8);
  }

  lemma OctetsOfPrefix(data: seq<Byte>, i: nat)
    requires i < |data|
    ensures Octets(data[..i + 1]) == Octets(data[..i]) + [ToOctet(data[i] as bv8)]
  {
  }

  /** The register of the firmware holds the polynomial checksum of the data. */
  lemma {:induction false} RegisterIsChecksum(data: seq<Byte>)
    ensures ToOctet(Register(data)) == Checksum(Octets(data))
  {
    if data != [] {
      var n := |data| - 1;
      RegisterIsChecksum(data[..n]);
      OctetsOfPrefix(data, n);
      assert data[..n + 1] == data;
      RegisterStep(Octets(data[..n]), Register(data[..n]), data[n] as bv8);
    }
  }

  // ----- Linearity -------------------------------------------------------------------------

  function AddAll(a: seq<Octet>, b: seq<Octet>): (c: seq<Octet>)
    requires |a| == |b|
    ensures |c| == |a|
  {
    seq(|a|, i requires 0 <= i < |a| => Add(a[i], b[i]))
  }

  lemma TimesXLinear(a: Octet, b: Octet)
    ensures TimesX(Add(a, b)) == Add(TimesX(a), TimesX(b))
  {
  }

  lemma AddRegroup(a: Octet, b: Octet, c: Octet, d: Octet)
    ensures Add(Add(a, b), Add(c, d)) == Add(Add(a, c), Add(b, d))
  {
  }

  lemma {:induction false} TimesXPowerLinear(a: Octet, b: Octet, n: nat)
    ensures TimesXPower(Add(a, b), n) == Add(TimesXPower(a, n), TimesXPower(b, n))
  {
    hide Add, TimesX;
    if n > 0 {
      TimesXPowerLinear(a, b, n - 1);
      TimesXLinear(TimesXPower(a, n - 1), TimesXPower(b, n - 1));
    }
  }

  /** The checksum of a bitwise exclusive or is the exclusive or of the checksums. */
  lemma {:induction false} ChecksumLinear(a: seq<Octet>, b: seq<Octet>)
    requires |a| == |b|
    ensures Checksum(AddAll(a, b)) == Add(Checksum(a), Checksum(b))
  {
    if a != [] {
      hide Add, TimesX;
      var n := |a| - 1;
      assert AddAll(a, b)[..n] == AddAll(a[..n], b[..n]);
      ChecksumLinear(a[..n], b[..n]);
      AddRegroup(Checksum(a[..n]), Checksum(b[..n]), a[n], b[n]);
      TimesXPowerLinear(Add(Checksum(a[..n]), a[n]), Add(Checksum(b[..n]), b[n]), 8);
    }
  }

  // ----- Residue ---------------------------------------------------------------------------

  /** Shifting loses no information because the generator has constant term 1. */
  lemma {:induction false} TimesXPowerZero(a: Octet, n: nat)
    ensures TimesXPower(a, n) == ZERO <==> a == ZERO
  {
    if n > 0 {
      TimesXPowerZero(a, n - 1);
    }
  }

  /** Data followed by one byte has residue 0 exactly when that byte is the checksum. */
  lemma ResidueZero(data: seq<Octet>, crc: Octet)
    ensures Checksum(data + [crc]) == ZERO <==> crc == Checksum(data)
  {
    var word := data + [crc];
    assert word[..|word| - 1] == data;
    TimesXPowerZero(Add(Checksum(data), crc), 8);
  }

  lemma BitsAndBack(b: bv8)
    ensures (b as Byte) as bv8 == b
  {
  }

  lemma OctetsAppend(data: seq<Byte>, b: Byte)
    ensures Octets(data + [b]) == Octets(data) + [ToOctet(b as bv8)]
  {
    hide ToOctet;
  }

  /** The same of bytes: the checksum the firmware computes is the one byte that leaves residue 0. */
  lemma ResidueOfBytes(data: seq<Byte>, crc: bv8)
    ensures Checksum(Octets(data + [crc as Byte])) == ZERO <==> crc as Byte == ChecksumOf(data)
  {
    hide Checksum, Register, ToOctet, Octets;
    RegisterIsChecksum(data);
    BitsAndBack(crc);
    BitsAndBack(Register(data));
    OctetsAppend(data, crc as Byte);
    ResidueZero(Octets(data), ToOctet(crc));
    OctetsDiffer(crc, Register(data));
  }

  // ----- Error detection -------------------------------------------------------------------

  /** Whether an odd number of bits is set. */
  function Odd(a: Octet): bool {
    ((a.c7 != a.c6) != (a.c5 != a.c4)) != ((a.c3 != a.c2) != (a.c1 != a.c0))
  }

  function OddBits(data: seq<Octet>): bool {
    if data == [] then false else OddBits(data[..|data| - 1]) != Odd(data[|data| - 1])
  }

  lemma {:induction false} TimesXPowerKeepsParity(a: Octet, n: nat)
    ensures Odd(TimesXPower(a, n)) == Odd(a)
  {
    if n > 0 {
      TimesXPowerKeepsParity(a, n - 1);
    }
  }

  lemma OddOfSum(a: Octet, b: Octet)
    ensures Odd(Add(a, b)) == (Odd(a) != Odd(b))
  {
  }

  /** The generator has an even number of terms, so data and checksum have the same parity. */
  lemma {:induction false} ChecksumKeepsParity(data: seq<Octet>)
    ensures Odd(Checksum(data)) == OddBits(data)
  {
    if data != [] {
      hide Add, TimesX, Odd;
      var n := |data| - 1;
      ChecksumKeepsParity(data[..n]);
      OddOfSum(Checksum(data[..n]), data[n]);
      TimesXPowerKeepsParity(Add(Checksum(data[..n]), data[n]), 8);
    }
  }

  /** Data sent with its checksum and hit by the error pattern `e` on the data and `ec` on the
      checksum passes the check exactly when `ec` is the checksum of `e`. */
  lemma UndetectedErrors(data: seq<Octet>, e: seq<Octet>, ec: Octet)
    requires |e| == |data|
    ensures Checksum(AddAll(data, e)) == Add(Checksum(data), ec) <==> Checksum(e) == ec
  {
    ChecksumLinear(data, e);
  }

  /** Every error that flips an odd number of bits in data and checksum together is rejected. */
  lemma OddErrorsDetected(data: seq<Octet>, e: seq<Octet>, ec: Octet)
    requires |e| == |data|
    requires OddBits(e) != Odd(ec)
    ensures Checksum(AddAll(data, e)) != Add(Checksum(data), ec)
  {
    UndetectedErrors(data, e, ec);
    ChecksumKeepsParity(e);
  }

  /** A byte with the bits of `e` inverted. */
  function Flip(b: Byte, e: bv8): Byte {
    ((b as bv8) ^ e) as Byte
  }

  function FlipAll(data: seq<Byte>, e: seq<bv8>): (flipped: seq<Byte>)
    requires |e| == |data|
    ensures |flipped| == |data|
  {
    seq(|data|, i requires 0 <= i < |data| => Flip(data[i], e[i]))
  }

  function ErrorOctets(e: seq<bv8>): (octets: seq<Octet>)
    ensures |octets| == |e|
  {
    seq(|e|, i requires 0 <= i < |e| => ToOctet(e[i]))
  }

  lemma FlipIsAdd(b: Byte, e: bv8)
    ensures ToOctet(Flip(b, e) as bv8) == Add(ToOctet(b as bv8), ToOctet(e))
  {
    XorIsAdd(b as bv8, e);
  }

  lemma OctetsOfFlipped(data: seq<Byte>, e: seq<bv8>)
    requires |e| == |data|
    ensures Octets(FlipAll(data, e)) == AddAll(Octets(data), ErrorOctets(e))
  {
    forall i | 0 <= i < |data|
      ensures Octets(FlipAll(data, e))[i] == Add(Octets(data)[i], ErrorOctets(e)[i])
    {
      FlipIsAdd(data[i], e[i]);
    }
  }

  /** The checksum the firmware computes over corrupted data never equals the corrupted checksum
      when an odd number of bits was inverted. */
  lemma OddCorruptionDetected(data: seq<Byte>, e: seq<bv8>, ec: bv8)
    requires |e| == |data|
    requires OddBits(ErrorOctets(e)) != Odd(ToOctet(ec))
    ensures ChecksumOf(FlipAll(data, e)) != Flip(ChecksumOf(data), ec)
  {
    RegisterIsChecksum(FlipAll(data, e));
    RegisterIsChecksum(data);
    OctetsOfFlipped(data, e);
    FlipIsAdd(ChecksumOf(data), ec);
    OddErrorsDetected(Octets(data), ErrorOctets(e), ToOctet(ec));
  }
}
