/** The JEDEC ID check of spi_flash_example.py for a Winbond W25Q128JV: the
    "Read JEDEC ID" command 0x9F is exchanged with three padding bytes, byte 0
    of the four-byte reply is what the flash shifted out during the command,
    byte 1 is the manufacturer and bytes 2-3 the big-endian device ID. The
    script decodes the reply twice (by hand and with `struct.unpack(">xBH")`)
    and compares three reads. The SPI exchanges are parameters: the replies
    the adapter returned. */
module SpiFlash {
  import opened Base
  import opened Bits

  const ReadJedecId: byte := 0x9F
  const ExpectedManufacturer: int := 0xEF
  const ExpectedJedecId: int := 0x4018

  /** The exceptions the script can raise after its SPI exchanges. */
  datatype ScriptError =
    | IndexError             // reply too short to index
    | StructError            // reply is not exactly the 4 bytes `>xBH` needs
    | InvalidManufacturer
    | InvalidJedecId
    | SecondReadMismatch
    | ThirdReadMismatch

  /** (manufacturer ID, JEDEC device ID). */
  datatype Ids = Ids(manufacturer: int, jedecId: int)

  /** `(msb << 8) | lsb` on two bytes. */
  function ShiftOr(msb: byte, lsb: byte): int
  {
    Or(Shl(msb, 8), lsb)
  }

  /** Indexing the reply: `data[1]` and `(data[2] << 8) | data[3]`; indexing a
      reply shorter than four bytes raises IndexError, longer replies are fine. */
  function ManualDecode(data: seq<byte>): Result<Ids, ScriptError>
  {
    if |data| < 4 then Failure(IndexError)
    else Success(Ids(data[1], ShiftOr(data[2], data[3])))
  }

  /** An unsigned big-endian integer (struct's `>` with `B`, `H`, `I`, ...). */
  function BigEndian(s: seq<byte>): (v: nat)
    ensures v < Pow2(8 * |s|)
  {
    if s == [] then 0
    else
      var init := s[..|s| - 1];
      assert Pow2(8 * |s|) == 0x100 * Pow2(8 * |init|) by { Pow2Add8(8 * |init|); }
      BigEndian(init) * 0x100 + s[|s| - 1]
  }

  /** `struct.unpack(">xBH", data)`: skip one byte, one unsigned byte, one
      big-endian unsigned 16-bit value; anything but exactly 4 bytes raises. */
  function UnpackXBH(data: seq<byte>): Result<Ids, ScriptError>
  {
    if |data| != 4 then Failure(StructError)
    else Success(Ids(BigEndian(data[1..2]), BigEndian(data[2..4])))
  }

  /** The two ID comparisons, in the script's order. */
  function CheckIds(ids: Ids): Outcome<ScriptError>
  {
    if ids.manufacturer != ExpectedManufacturer then Fail(InvalidManufacturer)
    else if ids.jedecId != ExpectedJedecId then Fail(InvalidJedecId)
    else Pass
  }

  /** What the adapter transmits when asked to exchange `cmd` with
      `read_size` bytes: the command followed by zero padding up to
      `read_size` (a shorter `read_size` adds nothing). */
  function PadCommand(cmd: seq<byte>, readSize: int): (frame: seq<byte>)
    ensures |cmd| <= |frame| && frame[..|cmd|] == cmd
    ensures |frame| == if readSize > |cmd| then readSize else |cmd|
    ensures forall i :: |cmd| <= i < |frame| ==> frame[i] == 0
  {
    if readSize > |cmd| then cmd + Zeros(readSize - |cmd|) else cmd
  }

  /** The script after its three SPI exchanges, given the three replies:
      decode and check the first, compare the second and third with it, then
      unpack and check the second. */
  function Script(first: seq<byte>, second: seq<byte>, third: seq<byte>): Outcome<ScriptError>
  {
    match ManualDecode(first)
    case Failure(e) => Fail(e)
    case Success(ids) =>
      if CheckIds(ids).Fail? then CheckIds(ids)
      else if second != first then Fail(SecondReadMismatch)
      else if third != first then Fail(ThirdReadMismatch)
      else match UnpackXBH(second)
        case Failure(e) => Fail(e)
        case Success(ids2) => CheckIds(ids2)
  }

  lemma Pow2Add8(k: nat)
    ensures Pow2(k + 8) == 0x100 * Pow2(k)
  {
    assert Pow2(k + 8) == 2 * Pow2(k + 7);
    assert Pow2(k + 7) == 2 * Pow2(k + 6);
    assert Pow2(k + 6) == 2 * Pow2(k + 5);
    assert Pow2(k + 5) == 2 * Pow2(k + 4);
    assert Pow2(k + 4) == 2 * Pow2(k + 3);
    assert Pow2(k + 3) == 2 * Pow2(k + 2);
    assert Pow2(k + 2) == 2 * Pow2(k + 1);
    assert Pow2(k + 1) == 2 * Pow2(k);
  }

  /** `(msb << 8) | lsb` is `msb * 256 + lsb`, a 16-bit value. */
  lemma ShiftOrValue(msb: byte, lsb: byte)
    ensures ShiftOr(msb, lsb) == msb as int * 0x100 + lsb
    ensures 0 <= ShiftOr(msb, lsb) <= 0xFFFF
  {
    Pow2Literals();
    DivModUnique(msb * 0x100, 0x100, msb, 0);
    OrDisjoint(msb * 0x100, lsb, 8);
  }

  lemma BigEndianShort(a: byte, b: byte)
    ensures BigEndian([a]) == a
    ensures BigEndian([a, b]) == a as int * 0x100 + b
  {
    assert [a, b][..1] == [a];
    assert [a][..0] == [];
  }

  /** Byte 0 of the reply never matters, and the manufacturer is byte 1. */
  lemma {:induction false} ManualDecodeBytes(data: seq<byte>, junk: byte)
    requires |data| >= 4
    ensures ManualDecode(data).Success?
    ensures ManualDecode(data).value == ManualDecode([junk] + data[1..]).value
    ensures ManualDecode(data).value.manufacturer == data[1]
    ensures ManualDecode(data).value.jedecId == data[2] as int * 0x100 + data[3] <= 0xFFFF
  {
    ShiftOrValue(data[2], data[3]);
  }

  /** The two decodings agree wherever `struct.unpack` succeeds, and it
      succeeds exactly on four-byte replies, where indexing succeeds too. */
  lemma {:induction false} DecodersAgree(data: seq<byte>)
    ensures UnpackXBH(data).Success? <==> |data| == 4
    ensures ManualDecode(data).Success? <==> |data| >= 4
    ensures |data| == 4 ==> UnpackXBH(data) == ManualDecode(data)
  {
    if |data| == 4 {
      ShiftOrValue(data[2], data[3]);
      assert data[1..2] == [data[1]] && data[2..4] == [data[2], data[3]];
      BigEndianShort(data[1], data[2]);
      BigEndianShort(data[2], data[3]);
    }
  }

  /** The checks pass exactly for manufacturer 0xEF with device ID 0x4018,
      and the manufacturer is checked first. */
  lemma CheckIdsExactly(ids: Ids)
    ensures CheckIds(ids) == Pass <==> ids == Ids(0xEF, 0x4018)
    ensures ids.manufacturer != 0xEF ==> CheckIds(ids) == Fail(InvalidManufacturer)
    ensures ids.manufacturer == 0xEF && ids.jedecId != 0x4018 ==> CheckIds(ids) == Fail(InvalidJedecId)
  {
  }

  /** Padding 0x9F to `read_size` 4 gives the explicit 9F 00 00 00 command. */
  lemma PaddedCommandIsExplicit()
    ensures PadCommand([ReadJedecId], 4) == [0x9F, 0x00, 0x00, 0x00]
  {
    assert Zeros(3) == [0, 0, 0];
  }

  /** The script completes exactly when all three reads returned the same
      four bytes, with manufacturer 0xEF and device ID 0x40 0x18. */
  lemma {:induction false} ScriptPasses(first: seq<byte>, second: seq<byte>, third: seq<byte>)
    ensures Script(first, second, third) == Pass <==>
      |first| == 4 && first[1] == 0xEF && first[2] == 0x40 && first[3] == 0x18 &&
      second == first && third == first
  {
    DecodersAgree(first);
    if |first| >= 4 {
      ShiftOrValue(first[2], first[3]);
    }
    DecodersAgree(second);
  }
}
