/** The I2C FRAM helpers of i2c_fram.py (an MB85RC16 part: 2 KiB addressed
    by 11 bits). The three upper address bits select one of eight I2C device
    addresses starting at 0x50; the lower eight bits are sent as the first
    byte of every transfer. The I2C transfer itself is represented by the
    request the helpers hand to the adapter. */
module Fram {
  import opened Base
  import opened Bits

  /** FRAM_I2C_BASE_ADDRESS. */
  const BaseAddress: byte := 0x50

  /** The pair returned by split_fram_memory_address. */
  datatype Split = Split(upper: int, lower: int)

  /** One call of the adapter's i2c_exchange: the 7-bit device address, the
      bytes written, and the read_size argument (None when it is not given). */
  datatype I2cExchange = I2cExchange(address: int, payload: seq<byte>, readSize: Option<int>)

  /** split_fram_memory_address, for any Python int: `(0x700 & a) >> 8` and
      `a & 0xFF`. */
  function SplitAddress(a: int): (s: Split)
    ensures 0 <= s.upper < 8
    ensures 0 <= s.lower < 0x100
  {
    Pow2Literals();
    Split(Shr(And(a, 0x700), 8), And(a, 0xFF))
  }

  /** The device address `FRAM_I2C_BASE_ADDRESS | upper` used by both helpers. */
  function DeviceAddress(a: int): (d: int)
    ensures d == BaseAddress + SplitAddress(a).upper
    ensures 0x50 <= d <= 0x57
  {
    var u := SplitAddress(a).upper;
    Pow2Literals();
    OrDisjoint(BaseAddress, u, 3);
    Or(BaseAddress, u)
  }

  /** fram_read: one-byte write of the low address bits, then `size` bytes read. */
  function FramRead(a: int, size: int): (x: I2cExchange)
    ensures x.address == DeviceAddress(a)
    ensures x.payload == [SplitAddress(a).lower]
    ensures x.readSize == Some(size)
  {
    var s := SplitAddress(a);
    I2cExchange(Or(BaseAddress, s.upper), [s.lower], Some(size))
  }

  /** fram_write: the low address bits followed by the data, nothing read. */
  function FramWrite(a: int, data: seq<byte>): (x: I2cExchange)
    ensures x.address == DeviceAddress(a)
    ensures x.payload == [SplitAddress(a).lower] + data && |x.payload| == |data| + 1
    ensures x.readSize == None
  {
    var s := SplitAddress(a);
    I2cExchange(Or(BaseAddress, s.upper), [s.lower] + data, None)
  }

  /** The memory address an FRAM transfer selects, read back from the device
      address and the first payload byte (how the part decodes the transfer). */
  function SelectedAddress(x: I2cExchange): Option<int>
  {
    if BaseAddress <= x.address < BaseAddress + 8 && |x.payload| >= 1
    then Some((x.address - BaseAddress) * 0x100 + x.payload[0])
    else None
  }

  /** The masks compute the remainder and quotient by 256: the split is
      `(a // 256) % 8` and `a % 256`. */
  lemma {:induction false} SplitArithmetic(a: int)
    ensures SplitAddress(a) == Split((a / 0x100) % 8, a % 0x100)
  {
    Pow2Literals();
    AndLowMask(a, 8);
    AndShiftedMask(a, 7, 8);
    AndLowMask(a / 0x100, 3);
    var u := (a / 0x100) % 8;
    assert And(a, 0x700) == u * 0x100;
    DivModUnique(u * 0x100, 0x100, u, 0);
  }

  /** Below 0x800 the split is lossless: upper * 256 + lower is the address. */
  lemma {:induction false} SplitRoundTrip(a: int)
    requires 0 <= a < 0x800
    ensures SplitAddress(a).upper * 0x100 + SplitAddress(a).lower == a
  {
    SplitArithmetic(a);
    QuotientRemainder256(a);
  }

  lemma QuotientRemainder256(a: int)
    requires 0 <= a < 0x800
    ensures ((a / 0x100) % 8) * 0x100 + a % 0x100 == a
  {
    assert a / 0x100 < 8;
  }

  /** Bits above bit 10 are ignored: `a` and `a % 0x800` split alike. */
  lemma {:induction false} SplitIgnoresHighBits(a: int)
    ensures SplitAddress(a) == SplitAddress(a % 0x800)
  {
    SplitArithmetic(a);
    SplitArithmetic(a % 0x800);
    ModOfMod2048(a);
  }

  lemma ModOfMod2048(a: int)
    ensures (a / 0x100) % 8 == ((a % 0x800) / 0x100) % 8
    ensures a % 0x100 == (a % 0x800) % 0x100
  {
    var q, r := a / 0x800, a % 0x800;
    assert a == 0x800 * q + r;
    assert a == 0x100 * (8 * q + r / 0x100) + r % 0x100;
    DivModUnique(a, 0x100, 8 * q + r / 0x100, r % 0x100);
    DivModUnique(8 * q + r / 0x100, 8, q, r / 0x100);
  }

  /** For any address, upper * 256 + lower is the address's low 11 bits. */
  lemma {:induction false} SplitRecovers(a: int)
    ensures SplitAddress(a).upper * 0x100 + SplitAddress(a).lower == a % 0x800
  {
    var s, t := SplitAddress(a), SplitAddress(a % 0x800);
    SplitIgnoresHighBits(a);
    assert s == t;
    SplitRoundTrip(a % 0x800);
  }

  lemma SelectedFrom(x: I2cExchange, u: int, l: byte, v: int)
    requires 0 <= u < 8 && x.address == BaseAddress + u
    requires |x.payload| >= 1 && x.payload[0] == l
    requires v == u * 0x100 + l
    ensures SelectedAddress(x) == Some(v)
  {
  }

  /** Reading and writing the same memory address talk to the same device
      and send the same first byte. */
  lemma ReadWriteAgree(a: int, size: int, data: seq<byte>)
    ensures FramRead(a, size).address == FramWrite(a, data).address
    ensures FramRead(a, size).payload[0] == FramWrite(a, data).payload[0]
  {
  }

  /** A read request selects exactly the 11-bit address it was given. */
  lemma {:induction false} ReadSelects(a: int, size: int)
    ensures SelectedAddress(FramRead(a, size)) == Some(a % 0x800)
  {
    var s, x := SplitAddress(a), FramRead(a, size);
    SplitRecovers(a);
    SelectedFrom(x, s.upper, s.lower, a % 0x800);
  }

  /** A write request selects exactly the 11-bit address it was given, and
      the bytes after the first are the data, unchanged. */
  lemma {:induction false} WriteSelects(a: int, data: seq<byte>)
    ensures SelectedAddress(FramWrite(a, data)) == Some(a % 0x800)
    ensures FramWrite(a, data).payload[1..] == data
  {
    var s, x := SplitAddress(a), FramWrite(a, data);
    SplitRecovers(a);
    SelectedFrom(x, s.upper, s.lower, a % 0x800);
  }
}
