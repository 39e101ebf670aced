/**
 * SD clock and bus power selection: the divisor search of calcClock, the
 * divisor field it writes into ClockControl, and the voltage powerSD selects
 * from the Capabilities register.
 */
module ClockPower {
  import opened RegisterMap

  /** n is a power of two. */
  predicate IsPow2(n: nat)
  {
    n == 1 || (n > 1 && n % 2 == 0 && IsPow2(n / 2))
  }

  /** The base clock in Hz: Capabilities bits 13:8 give it in MHz. */
  function BaseClockHz(caps: bv32): (hz: nat)
    ensures hz < 64_000_000
    ensures hz % 1_000_000 == 0
  {
    BaseClockMHz(caps) as int * 1_000_000
  }

  /** The divisor the doubling loop of calcClock ends with when it starts from `div`. */
  function DivisorFrom(baseClock: nat, clockspeed: nat, div: nat): (r: nat)
    requires IsPow2(div)
    ensures IsPow2(r)
    decreases baseClock - div
  {
    if baseClock / div <= clockspeed then div
    else
      DivBound(baseClock, div);
      DivisorFrom(baseClock, clockspeed, div * 2)
  }

  /** The divisor calcClock picks: the loop starts at 1. */
  function SmallestDivisor(baseClock: nat, clockspeed: nat): (div: nat)
    ensures IsPow2(div)
  {
    DivisorFrom(baseClock, clockspeed, 1)
  }

  /** The loop only ever doubles a divisor that still leaves the clock too fast, so
      it ends with a power of two that brings the base clock down to the requested
      speed, and half of it (when it is not 1) did not. */
  lemma {:induction false} DivisorFromMeaning(baseClock: nat, clockspeed: nat, div: nat)
    requires IsPow2(div) && (div == 1 || baseClock / (div / 2) > clockspeed)
    ensures var r := DivisorFrom(baseClock, clockspeed, div);
      baseClock / r <= clockspeed && (r == 1 || baseClock / (r / 2) > clockspeed)
    decreases baseClock - div
  {
    if baseClock / div > clockspeed {
      DivBound(baseClock, div);
      assert (div * 2) / 2 == div;
      DivisorFromMeaning(baseClock, clockspeed, div * 2);
    }
  }

  lemma SmallestDivisorMeaning(baseClock: nat, clockspeed: nat)
    ensures var d := SmallestDivisor(baseClock, clockspeed);
      IsPow2(d) && baseClock / d <= clockspeed && (d == 1 || baseClock / (d / 2) > clockspeed)
  {
    DivisorFromMeaning(baseClock, clockspeed, 1);
  }

  /** The divisor loop of calcClock. */
  method ClockDivisor(baseClock: nat, clockspeed: nat) returns (div: nat)
    ensures div == SmallestDivisor(baseClock, clockspeed)
  {
    div := 1;
    while baseClock / div > clockspeed
      invariant IsPow2(div)
      invariant DivisorFrom(baseClock, clockspeed, div) == SmallestDivisor(baseClock, clockspeed)
      decreases baseClock - div
    {
      DivBound(baseClock, div);
      div := div * 2;
    }
  }

  /** A quotient that is at least 1 means the divisor is at most the dividend. */
  lemma DivBound(a: nat, d: nat)
    requires d > 0 && a / d >= 1
    ensures d <= a
  {
  }

  /** The divisor as the 32-bit unsigned value calcClock holds: a power of two
      built by doubling from 1, so a divisor of 2^32 or more wraps to 0. */
  function DivBits(div: nat): (d: bv32)
    requires IsPow2(div)
    ensures div == 1 <==> d == 1
  {
    if div == 1 then 1 else DivBits(div / 2) << 1
  }

  /** The Clock Control value for the divisor as calcClock writes it: the divisor
      shifted to the frequency-select field, masked with 0xFF000, then truncated to
      the 16-bit register. */
  function DivisorFieldAsWritten(d: bv32): (field: bv16)
    ensures field & 0x0FFF == 0
  {
    Store16((d << 7) & 0xF_F000)
  }

  /** The Clock Control value for the divisor with the 8-bit frequency-select mask
      0xFF00 of section 2.2.14 of the SD Host Controller Simplified Specification. */
  function DivisorField(d: bv32): (field: bv16)
    ensures field & 0x00FF == 0
  {
    Store16((d << 7) & 0xFF00)
  }

  /** The divisor an 8-bit SDCLK frequency-select value N in Clock Control bits
      15:8 selects (section 2.2.14): 1 for N = 00h and 2N for the single-bit values
      01h to 80h. Other values are not defined there and are modelled as 0. */
  function FreqSelectDivisor(clockControl: bv16): nat
  {
    var n := clockControl >> 8;
    if n == 0 then 1 else if n == 1 then 2 else if n == 2 then 4 else if n == 4 then 8
    else if n == 8 then 16 else if n == 0x10 then 32 else if n == 0x20 then 64
    else if n == 0x40 then 128 else if n == 0x80 then 256 else 0
  }

  /** The SD clock frequency the controller derives from the base clock and the
      Clock Control value (0 for an undefined frequency select). */
  function SdClockHz(baseClock: nat, clockControl: bv16): nat
  {
    var d := FreqSelectDivisor(clockControl);
    if d == 0 then 0 else baseClock / d
  }

  /** The powers of two up to 256. */
  lemma {:induction false} SmallPow2(div: nat)
    requires IsPow2(div) && div <= 256
    ensures div in {1, 2, 4, 8, 16, 32, 64, 128, 256}
  {
    if div > 1 {
      SmallPow2(div / 2);
    }
  }

  /** With the 0xFF00 mask, any power-of-two divisor up to 256 makes the controller
      divide the base clock by exactly that divisor. */
  lemma DivisorFieldDivides(baseClock: nat, div: nat)
    requires IsPow2(div) && div <= 256
    ensures SdClockHz(baseClock, DivisorField(DivBits(div))) == baseClock / div
  {
    DivisorFieldSelects(div);
  }

  /** The frequency select written for a power-of-two divisor up to 256 is the
      one that selects that divisor. */
  lemma DivisorFieldSelects(div: nat)
    requires IsPow2(div) && div <= 256
    ensures FreqSelectDivisor(DivisorField(DivBits(div))) == div
  {
    SmallPow2(div);
    if div <= 8 {
      if div == 1 {
        assert DivBits(1) == 1;
      } else if div == 2 {
        assert DivBits(2) == 2;
      } else if div == 4 {
        assert DivBits(4) == 4;
      } else {
        assert DivBits(8) == 8;
      }
    } else if div <= 32 {
      if div == 16 {
        assert DivBits(16) == 16;
      } else {
        assert DivBits(32) == 32;
      }
    } else if div == 64 {
      assert DivBits(64) == 64;
    } else if div == 128 {
      assert DivBits(128) == 128;
    } else {
      assert DivBits(256) == 256;
    }
  }

  /** The divisor the loop picks for any speed of at least 400 kHz is at most 256,
      since the base clock is below 64 MHz. */
  lemma {:induction false} DriverDivisorsFit(baseClock: nat, clockspeed: nat, div: nat)
    requires baseClock < 64_000_000 && clockspeed >= 400_000
    requires IsPow2(div) && (div == 1 || baseClock / (div / 2) > clockspeed)
    ensures div <= 256
  {
    if div > 256 {
      assert div / 2 >= 256 by { Pow2Above(div); }
      assert baseClock / 256 < 250_000;
      DivMonotone(baseClock, 256, div / 2);
    }
  }

  lemma {:induction false} Pow2Above(div: nat)
    requires IsPow2(div) && div > 256
    ensures div / 2 >= 256
  {
    if div / 2 < 256 {
      assert IsPow2(div / 2);
      SmallPow2(div / 2);
    }
  }

  lemma DivMonotone(a: nat, d1: nat, d2: nat)
    requires 0 < d1 <= d2
    ensures a / d2 <= a / d1
  {
    var q1, q2 := a / d1, a / d2;
    assert q2 * d2 <= a;
    assert q2 * d1 <= q2 * d2 by { MulLe(q2, d1, d2); }
    assert a < (q1 + 1) * d1;
    MulLtCancel(q2, q1 + 1, d1);
  }

  lemma MulLe(x: nat, y: nat, z: nat)
    requires y <= z
    ensures x * y <= x * z
  {
    assert x * z == x * y + x * (z - y);
  }

  lemma MulLtCancel(x: nat, y: nat, d: nat)
    requires d > 0 && x * d < y * d
    ensures x < y
  {
    if x >= y {
      MulLe(d, y, x);
    }
  }

  /** With the 0xFF00 mask, the SD clock calcClock programs never exceeds the
      requested speed, for every speed the driver requests (400 kHz and up). */
  lemma ClockNotAboveRequest(caps: bv32, clockspeed: nat, div: nat)
    requires clockspeed >= 400_000
    requires IsPow2(div) && BaseClockHz(caps) / div <= clockspeed
    requires div == 1 || BaseClockHz(caps) / (div / 2) > clockspeed
    ensures div <= 256
    ensures SdClockHz(BaseClockHz(caps), DivisorField(DivBits(div))) <= clockspeed
  {
    DriverDivisorsFit(BaseClockHz(caps), clockspeed, div);
    DivisorFieldDivides(BaseClockHz(caps), div);
  }

  /** As written, the mask 0xFF000 clears the whole field for the divisors 2 to 16,
      so the card is clocked at the undivided base clock; the field is right for
      32 to 256. */
  lemma DivisorFieldAsWrittenDrops(div: nat)
    requires IsPow2(div) && div <= 256
    ensures div <= 16 ==> DivisorFieldAsWritten(DivBits(div)) == 0
    ensures 32 <= div ==> DivisorFieldAsWritten(DivBits(div)) == DivisorField(DivBits(div))
  {
    SmallPow2(div);
    if div == 1 {
      assert DivBits(1) == 1;
    } else if div == 2 {
      assert DivBits(2) == 2;
    } else if div == 4 {
      assert DivBits(4) == 4;
    } else if div == 8 {
      assert DivBits(8) == 8;
    } else if div == 16 {
      assert DivBits(16) == 16;
    } else if div == 32 {
      assert DivBits(32) == 32;
    } else if div == 64 {
      assert DivBits(64) == 64;
    } else if div == 128 {
      assert DivBits(128) == 128;
    } else {
      assert DivBits(256) == 256;
    }
  }

  /** A base clock of 50 MHz and the 25 MHz transfer speed: the loop picks the
      divisor 2, and the field as written leaves the card clock at 50 MHz. */
  lemma ClockMaskCounterexample(div: nat)
    requires IsPow2(div) && 50_000_000 / div <= 25_000_000
    requires div == 1 || 50_000_000 / (div / 2) > 25_000_000
    ensures div == 2
    ensures SdClockHz(50_000_000, DivisorFieldAsWritten(DivBits(div))) == 50_000_000
    ensures SdClockHz(50_000_000, DivisorField(DivBits(div))) == 25_000_000
  {
    if div > 2 {
      Pow2Step(div);
      DivMonotone(50_000_000, 2, div / 2);
    }
  }

  lemma Pow2Step(div: nat)
    requires IsPow2(div) && div > 2
    ensures div / 2 >= 2
  {
  }

  /** The Clock Control word after calcClock's writes: the enable bits 0 and 2 in the
      low byte leave the frequency select in the high byte untouched. */
  lemma ClockControlWord(field: bv16)
    requires field & 0xFF == 0
    ensures ((InternalClockEn | field) | SDClockEn) >> 8 == field >> 8
    ensures ((InternalClockEn | field) | SDClockEn) & 0xFF == InternalClockEn | SDClockEn
  {
  }

  /** Clock Control as calcClock leaves it for `speed`: internal clock enabled, the
      divisor field of the divisor the loop picks (shifted by 7 and masked with
      0xFF000, then truncated to the 16-bit register), SD clock enabled. */
  function ClockWord(caps: bv32, speed: nat): bv16
  {
    (InternalClockEn | DivisorFieldAsWritten(DivBits(SmallestDivisor(BaseClockHz(caps), speed)))) | SDClockEn
  }

  /** The same word with the frequency-select mask 0xFF00 of the SD Host Controller
      specification. */
  function IntendedClockWord(caps: bv32, speed: nat): bv16
  {
    (InternalClockEn | DivisorField(DivBits(SmallestDivisor(BaseClockHz(caps), speed)))) | SDClockEn
  }

  /** A Clock Control value that runs the card at most at `speed`: internal and SD
      clock enabled, and the frequency select holding the smallest power-of-two
      divisor (at most 256) that brings the base clock down to `speed` or below. */
  predicate ClockProgrammed(caps: bv32, cc: bv16, speed: nat)
  {
    cc & 0xFF == InternalClockEn | SDClockEn
    && var base := BaseClockHz(caps); var d := FreqSelectDivisor(cc);
       IsPow2(d) && d <= 256 && base / d <= speed && (d == 1 || base / (d / 2) > speed)
       && SdClockHz(base, cc) <= speed
  }

  /** For every speed the driver asks for (400 kHz and up) the word with the 0xFF00
      mask programs the clock as intended. */
  lemma IntendedWordProgrammed(caps: bv32, speed: nat)
    requires speed >= 400_000
    ensures ClockProgrammed(caps, IntendedClockWord(caps, speed), speed)
  {
    var div := SmallestDivisor(BaseClockHz(caps), speed);
    SmallestDivisorMeaning(BaseClockHz(caps), speed);
    ClockNotAboveRequest(caps, speed, div);
    DivisorFieldSelects(div);
    var field := DivisorField(DivBits(div));
    ClockControlWord(field);
    assert FreqSelectDivisor(IntendedClockWord(caps, speed)) == div;
  }

  /** What the word calcClock writes does: both clocks are enabled; when the loop
      picks the divisor 1 or one of 32 to 256 it is the intended word and programs
      the clock as intended; for the divisors 2 to 16 the frequency select is 0,
      so the card runs at the undivided base clock, above the request. */
  lemma ClockWordAsWritten(caps: bv32, speed: nat)
    requires speed >= 400_000
    ensures ClockWord(caps, speed) & 0xFF == InternalClockEn | SDClockEn
    ensures var d := SmallestDivisor(BaseClockHz(caps), speed);
      (d == 1 || d >= 32 ==> ClockWord(caps, speed) == IntendedClockWord(caps, speed))
      && (2 <= d <= 16 ==> FreqSelectDivisor(ClockWord(caps, speed)) == 1
                           && SdClockHz(BaseClockHz(caps), ClockWord(caps, speed)) == BaseClockHz(caps) > speed)
    ensures ClockProgrammed(caps, ClockWord(caps, speed), speed)
            <==> var d := SmallestDivisor(BaseClockHz(caps), speed); d == 1 || d >= 32
  {
    var base := BaseClockHz(caps);
    var d := SmallestDivisor(base, speed);
    SmallestDivisorMeaning(base, speed);
    DriverDivisorsFit(base, speed, d);
    DivisorFieldAsWrittenDrops(d);
    ClockControlWord(DivisorFieldAsWritten(DivBits(d)));
    IntendedWordProgrammed(caps, speed);
    SmallPow2(d);
    if d == 1 {
      assert DivBits(1) == 1;
    } else if d <= 16 {
      UndividedClock(caps, speed, d);
    }
  }

  lemma UndividedClock(caps: bv32, speed: nat, d: nat)
    requires d == SmallestDivisor(BaseClockHz(caps), speed) && 2 <= d
    requires BaseClockHz(caps) / (d / 2) > speed
    requires DivisorFieldAsWritten(DivBits(d)) == 0
    ensures FreqSelectDivisor(ClockWord(caps, speed)) == 1
    ensures SdClockHz(BaseClockHz(caps), ClockWord(caps, speed)) == BaseClockHz(caps) > speed
    ensures !ClockProgrammed(caps, ClockWord(caps, speed), speed)
  {
    assert ClockWord(caps, speed) == 0x0005;
    DivMonotone(BaseClockHz(caps), 1, d / 2);
  }

  /** The card clock calcClock programs for a controller with a 50 MHz base clock
      (Capabilities 0x3200) and the 25 MHz transfer speed: the word as written is
      0x0005, with no divisor, where the intended word 0x0105 divides by 2. */
  lemma ClockWordCounterexample()
    ensures ClockWord(0x3200, 25_000_000) == 0x0005
    ensures IntendedClockWord(0x3200, 25_000_000) == 0x0105
    ensures !ClockProgrammed(0x3200, ClockWord(0x3200, 25_000_000), 25_000_000)
  {
    assert BaseClockHz(0x3200) == 50_000_000;
    assert SmallestDivisor(50_000_000, 25_000_000) == 2 by {
      assert DivisorFrom(50_000_000, 25_000_000, 1) == DivisorFrom(50_000_000, 25_000_000, 2);
    }
    assert DivBits(2) == 2;
    ClockWordAsWritten(0x3200, 25_000_000);
  }

  /** The highest supply voltage the Capabilities register declares. */
  function HighestVoltage(caps: bv32): Voltage
  {
    if caps & CR3v3Support != 0 then V3_3
    else if caps & CR3v0Support != 0 then V3_0
    else if caps & CR1v8Support != 0 then V1_8
    else NoVoltage
  }

  /** The Power Control value powerSD leaves: the voltage code for the highest
      supported voltage, with SD Bus Power on. */
  function PowerControlValue(caps: bv32): (pc: bv8)
    ensures pc & SDPower == SDPower
    ensures VoltageSelect(pc) == HighestVoltage(caps)
    ensures pc >> 4 == 0
  {
    var code := if caps & CR3v3Support != 0 then HC3v3
      else if caps & CR3v0Support != 0 then HC3v0
      else if caps & CR1v8Support != 0 then HC1v8
      else 0;
    code | SDPower
  }
}
