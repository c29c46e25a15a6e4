/** The bouncing-LED loop of i2c_bus_expander_pcal6416a_example.py: port 0
    of a PCAL6416A I/O expander at I2C address 0x21 is configured as output,
    then a single dark LED (the one cleared bit) walks 1, 2, ..., 7, 6, ...,
    0, 1, ... with a `ticker` and a `direction` updated once per pass. Each
    I2C write is recorded in a log instead of being sent; the 0.1 s sleep
    between passes is not modelled. */
module BusExpander {
  import opened Base
  import opened Bits

  /** `device_address`: the expander's right-aligned I2C address. */
  const ExpanderAddress: int := 0x21
  /** Register 0x06 (configuration, port 0) written with 0x00: all outputs. */
  const ConfigFrame: seq<byte> := [0x06, 0x00]
  /** Register 0x02: output port 0. */
  const OutputPort: byte := 0x02

  /** One i2c_exchange call that only writes. */
  datatype I2cWrite = I2cWrite(address: int, payload: seq<byte>)

  /** The loop variables `ticker` and `direction`. */
  datatype Bounce = Bounce(ticker: int, direction: int)

  /** `ticker = 0`, `direction = 1` before the loop. */
  const Start: Bounce := Bounce(0, 1)

  /** The values a pass can see: an LED index and a unit direction. */
  predicate InRange(b: Bounce)
  {
    0 <= b.ticker <= 7 && (b.direction == 1 || b.direction == -1)
  }

  /** One pass of the loop's update: turn at either end, then move. */
  function Next(b: Bounce): Bounce
  {
    var d := if b.ticker == 7 then -1 else if b.ticker == 0 then 1 else b.direction;
    Bounce(b.ticker + d, d)
  }

  /** The loop variables after `n` passes. */
  function Iterate(n: nat): Bounce
  {
    if n == 0 then Start else Next(Iterate(n - 1))
  }

  /** The triangle wave 0, 1, ..., 7, 6, ..., 1 of period 14. */
  function Triangle(n: nat): (t: int)
    ensures 0 <= t <= 7
  {
    var k := n % 14;
    if k <= 7 then k else 14 - k
  }

  /** The direction used by the `n`-th pass: up on the rising half, down on the falling half. */
  function DirectionAt(n: nat): int
  {
    if n == 0 || 1 <= n % 14 <= 7 then 1 else -1
  }

  /** `0xFF ^ (1 << t)`, when it is a byte. For a negative `t` Python's shift
      raises ValueError, and a value above 0xFF makes `bytes([...])` raise
      ValueError; both are None. */
  function Pattern(t: int): Option<byte>
  {
    if t < 0 then None
    else
      var v := Xor(0xFF, Shl(1, t));
      if v < 0x100 then Some(v) else None
  }

  /** `bytes([0x02, 0xFF ^ (1 << t)])`, the payload of each pass's write. */
  function OutputFrame(t: int): Option<seq<byte>>
  {
    match Pattern(t)
    case Some(p) => Some([OutputPort, p])
    case None => None
  }

  /** Every write of the first `n` passes, after the configuration write. */
  ghost function Trace(n: nat): (w: seq<I2cWrite>)
    ensures |w| == n + 1
  {
    if n == 0 then [I2cWrite(ExpanderAddress, ConfigFrame)]
    else
      IterateClosedForm(n);
      PatternOneZeroBit(Iterate(n).ticker);
      Trace(n - 1) + [I2cWrite(ExpanderAddress, OutputFrame(Iterate(n).ticker).value)]
  }

  /** `(n + 1) % 14` from `n % 14`. */
  lemma ModSucc(n: nat)
    ensures (n + 1) % 14 == if n % 14 == 13 then 0 else n % 14 + 1
  {
    var q, r := n / 14, n % 14;
    if r == 13 {
      DivModUnique(n + 1, 14, q + 1, 0);
    } else {
      DivModUnique(n + 1, 14, q, r + 1);
    }
  }

  /** After `n` passes the ticker is the triangle wave at `n`, and the
      direction is up on the rising half and down on the falling half. */
  lemma {:induction false} IterateClosedForm(n: nat)
    ensures Iterate(n) == Bounce(Triangle(n), DirectionAt(n))
    ensures InRange(Iterate(n))
  {
    if n > 0 {
      IterateClosedForm(n - 1);
      ModSucc(n - 1);
    }
  }

  /** The ticker sequence repeats every 14 passes. */
  lemma {:induction false} TickerPeriodic(n: nat)
    ensures Iterate(n + 14).ticker == Iterate(n).ticker
  {
    IterateClosedForm(n);
    IterateClosedForm(n + 14);
    DivModUnique(n + 14, 14, n / 14 + 1, n % 14);
  }

  /** From any in-range state a pass moves the ticker by exactly one and
      stays in range. */
  lemma StepByOne(b: Bounce)
    requires InRange(b)
    ensures InRange(Next(b))
    ensures Next(b).ticker == b.ticker + 1 || Next(b).ticker == b.ticker - 1
  {
  }

  /** The direction turns to -1 exactly at 7 and to 1 exactly at 0, and is
      kept everywhere else. */
  lemma TurnsOnlyAtEnds(b: Bounce)
    requires InRange(b)
    ensures b.ticker == 7 ==> Next(b).direction == -1
    ensures b.ticker == 0 ==> Next(b).direction == 1
    ensures 0 < b.ticker < 7 ==> Next(b).direction == b.direction
  {
  }

  /** Each pass's frame is a two-byte write to the output register. */
  lemma OutputFrameShape(t: int)
    ensures OutputFrame(t).Some? <==> 0 <= t <= 7
    ensures OutputFrame(t).Some? ==> |OutputFrame(t).value| == 2 && OutputFrame(t).value[0] == OutputPort
  {
    PatternOneZeroBit(t);
  }

  /** Bit `i` of `0xFF ^ (1 << t)`: the low eight bits with bit `t` flipped. */
  lemma XorOneBit(t: nat)
    ensures forall i: nat :: Bit(Xor(0xFF, Pow2(t)), i) == ((i < 8) != (i == t))
  {
    Pow2Literals();
    forall i: nat
      ensures Bit(Xor(0xFF, Pow2(t)), i) == ((i < 8) != (i == t))
    {
      XorBit(0xFF, Pow2(t), i);
      BitOfLowMask(8, i);
      BitOfPow2(t, i);
    }
  }

  /** `0xFF ^ (1 << t)` is a byte exactly when `t < 8`. */
  lemma XorOneBitRange(t: nat)
    ensures Xor(0xFF, Pow2(t)) < 0x100 <==> t < 8
  {
    Pow2Literals();
    if t < 8 {
      Pow2Monotone(t + 1, 8);
      XorBound(0xFF, Pow2(t), 8);
    } else {
      XorOneBit(t);
      BitIsAtLeast(Xor(0xFF, Pow2(t)), t);
      Pow2Monotone(8, t);
    }
  }

  /** The output byte exists exactly for tickers 0..7, and then it has
      exactly one zero bit among its eight, at position `t`, so exactly one
      LED is driven low. */
  lemma PatternOneZeroBit(t: int)
    ensures Pattern(t).Some? <==> 0 <= t <= 7
    ensures Pattern(t).Some? ==> forall i: nat :: Bit(Pattern(t).value, i) <==> i < 8 && i != t
  {
    if t >= 0 {
      assert Shl(1, t) == Pow2(t);
      XorOneBitRange(t);
      XorOneBit(t);
    }
  }

  /** What one more pass adds: the next loop variables, in range, and the
      write of their output frame. */
  lemma PassFacts(n: nat)
    ensures Iterate(n + 1) == Next(Iterate(n)) && InRange(Iterate(n + 1))
    ensures Pattern(Iterate(n + 1).ticker).Some?
    ensures OutputFrame(Iterate(n + 1).ticker) == Some([OutputPort, Pattern(Iterate(n + 1).ticker).value])
    ensures Trace(n + 1) == Trace(n) + [I2cWrite(ExpanderAddress, OutputFrame(Iterate(n + 1).ticker).value)]
  {
    IterateClosedForm(n + 1);
    PatternOneZeroBit(Iterate(n + 1).ticker);
  }

  /** The whole script as state: the loop variables and every I2C write made
      so far. */
  class LedBouncer {
    var ticker: int
    var direction: int
    var writes: seq<I2cWrite>
    /** Number of loop passes completed. */
    ghost var passes: nat

    ghost predicate Valid()
      reads this
    {
      Bounce(ticker, direction) == Iterate(passes) && writes == Trace(passes)
    }

    /** The configuration write and the initial loop variables. */
    constructor ()
      ensures Valid() && passes == 0
      ensures writes == [I2cWrite(ExpanderAddress, ConfigFrame)]
    {
      writes := [I2cWrite(ExpanderAddress, ConfigFrame)];
      ticker, direction := 0, 1;
      passes := 0;
    }

    /** The start of each pass: turn at either end, then move. */
    method Advance()
      modifies this`ticker, this`direction
      ensures Bounce(ticker, direction) == Next(old(Bounce(ticker, direction)))
    {
      if ticker == 7 {
        direction := -1;
      } else if ticker == 0 {
        direction := 1;
      }
      ticker := ticker + direction;
    }

    /** One pass of `while 1`: update `direction` and `ticker`, then write the
        output byte. */
    method Step()
      requires Valid()
      modifies this
      ensures Valid() && passes == old(passes) + 1
      ensures Bounce(ticker, direction) == Next(old(Bounce(ticker, direction)))
      ensures 0 <= ticker <= 7 && Pattern(ticker).Some?
      ensures writes == old(writes) + [I2cWrite(ExpanderAddress, [OutputPort, Pattern(ticker).value])]
    {
      ghost var n := passes;
      PassFacts(n);
      Advance();
      assert Bounce(ticker, direction) == Iterate(n + 1);
      var frame := OutputFrame(ticker);
      writes := writes + [I2cWrite(ExpanderAddress, frame.value)];
      assert writes == Trace(n + 1);
      passes := n + 1;
    }

    /** The first `n` passes of the endless loop. */
    method Run(n: nat)
      requires Valid()
      modifies this
      ensures Valid() && passes == old(passes) + n
      ensures ticker == Triangle(passes)
    {
      var i := 0;
      while i < n
        invariant 0 <= i <= n
        invariant Valid() && passes == old(passes) + i
      {
        Step();
        i := i + 1;
      }
      IterateClosedForm(passes);
    }
  }
}
