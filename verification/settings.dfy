/**
 * ByteConverter: packs the clock and the user's goals into the 16-byte settings command the band's
 * firmware expects.
 */
module Settings {
  import opened Wrappers
  import opened Bytes

  /** System.OverflowException, raised by Convert.ToByte outside 0..255. */
  datatype ConvertError = Overflow

  /** Convert.ToByte(int). */
  function ToByte(v: int): (r: Result<byte, ConvertError>)
    ensures r.Success? <==> 0 <= v < 0x100
    ensures r.Success? ==> r.value == v
  {
    if 0 <= v < 0x100 then Success(v) else Failure(Overflow)
  }

  /** The eleven integer arguments of ConvertSettingsToByteArray. */
  datatype SettingsRequest = SettingsRequest(
    hour24: int32, hour: int32, minute: int32, second: int32,
    goal: int32, goalUnit: int32, distance: int32, distanceUnit: int32,
    calorie: int32, bmr: int32, over100goal: int32)

  /** The value handed to Convert.ToByte for each of the 16 slots. A mask `x & (2^k - 1)` is
      `x % 2^k` and an arithmetic shift `x >> k` is `x / 2^k` (both exact for negative x, since
      Dafny's division and remainder by a positive constant round toward minus infinity). */
  function SettingsSlots(p: SettingsRequest): (s: seq<int>)
    ensures |s| == 16
  {
    [Or32(p.hour, p.hour24), p.minute, p.second,
     p.goal % 0x100, p.goal / 0x100 % 0x100, Or32(p.goal / 0x1_0000 % 0x80, p.goalUnit),
     p.distance % 0x100, p.distance / 0x100 % 0x100,
     p.calorie % 0x100, p.calorie / 0x100 % 0x100, p.calorie / 0x1_0000 % 0x100,
     Or32(p.calorie / 0x100_0000 % 0x80, p.distanceUnit),
     p.bmr % 0x100, p.bmr / 0x100 % 0x100, p.bmr / 0x1_0000 % 0x100, p.over100goal]
  }

  /** The settings buffer, or the overflow error of the first slot that is not a byte. */
  function EncodeSettings(p: SettingsRequest): Result<seq<byte>, ConvertError>
  {
    var s := SettingsSlots(p);
    if forall i :: 0 <= i < 16 ==> 0 <= s[i] < 0x100 then Success(s) else Failure(Overflow)
  }

  /** One slot that is not a byte makes the whole conversion fail. */
  lemma SlotOverflows(p: SettingsRequest, i: nat)
    requires i < 16 && !(0 <= SettingsSlots(p)[i] < 0x100)
    ensures EncodeSettings(p) == Failure(Overflow)
  {
  }

  /** Sixteen bytes equal to the slots are the conversion's result. */
  lemma SlotsEncoded(p: SettingsRequest, d: seq<byte>)
    requires |d| == 16 && forall i :: 0 <= i < 16 ==> d[i] == SettingsSlots(p)[i]
    ensures EncodeSettings(p) == Success(d)
  {
    var s := SettingsSlots(p);
    assert forall i :: 0 <= i < 16 ==> 0 <= s[i] < 0x100;
    assert s == d;
  }

  method ConvertSettingsToByteArray(
    hour24: int32, hour: int32, minute: int32, second: int32,
    goal: int32, goalUnit: int32, distance: int32, distanceUnit: int32,
    calorie: int32, bmr: int32, over100goal: int32)
    returns (r: Result<seq<byte>, ConvertError>)
    ensures r == EncodeSettings(SettingsRequest(hour24, hour, minute, second, goal, goalUnit,
                                                distance, distanceUnit, calorie, bmr, over100goal))
  {
    ghost var p := SettingsRequest(hour24, hour, minute, second, goal, goalUnit,
                                   distance, distanceUnit, calorie, bmr, over100goal);
    ghost var s := SettingsSlots(p);
    var h := ToByte(Or32(hour, hour24));
    if h.Failure? {
      SlotOverflows(p, 0);
      return Failure(Overflow);
    }
    var mi := ToByte(minute);
    if mi.Failure? {
      SlotOverflows(p, 1);
      return Failure(Overflow);
    }
    var se := ToByte(second);
    if se.Failure? {
      SlotOverflows(p, 2);
      return Failure(Overflow);
    }
    var gu := ToByte(Or32(goal / 0x1_0000 % 0x80, goalUnit));
    if gu.Failure? {
      SlotOverflows(p, 5);
      return Failure(Overflow);
    }
    var du := ToByte(Or32(calorie / 0x100_0000 % 0x80, distanceUnit));
    if du.Failure? {
      SlotOverflows(p, 11);
      return Failure(Overflow);
    }
    var ov := ToByte(over100goal);
    if ov.Failure? {
      SlotOverflows(p, 15);
      return Failure(Overflow);
    }
    var data := FillSettingsBuffer(h.value, mi.value, se.value, goal, gu.value, distance, calorie, du.value,
                                   bmr, ov.value);
    assert data == SettingsSlots(p);
    r := Success(data);
  }

  /** The 16-byte array ConvertSettingsToByteArray fills once every byte-valued slot has converted:
      the masked slots are written directly. */
  method FillSettingsBuffer(hour: byte, minute: byte, second: byte, goal: int32, goalHigh: byte,
                            distance: int32, calorie: int32, calorieHigh: byte, bmr: int32, over100goal: byte)
    returns (d: seq<byte>)
    ensures d == [hour, minute, second, goal % 0x100, goal / 0x100 % 0x100, goalHigh,
                  distance % 0x100, distance / 0x100 % 0x100,
                  calorie % 0x100, calorie / 0x100 % 0x100, calorie / 0x1_0000 % 0x100, calorieHigh,
                  bmr % 0x100, bmr / 0x100 % 0x100, bmr / 0x1_0000 % 0x100, over100goal]
  {
    var data := new byte[16];
    data[0], data[1], data[2] := hour, minute, second;
    data[3], data[4], data[5] := goal % 0x100, goal / 0x100 % 0x100, goalHigh;
    data[6], data[7] := distance % 0x100, distance / 0x100 % 0x100;
    data[8], data[9], data[10], data[11] :=
      calorie % 0x100, calorie / 0x100 % 0x100, calorie / 0x1_0000 % 0x100, calorieHigh;
    data[12], data[13], data[14], data[15] :=
      bmr % 0x100, bmr / 0x100 % 0x100, bmr / 0x1_0000 % 0x100, over100goal;
    d := data[..];
  }

  // ---------------------------------------------------------------------------------------------
  // What the layout guarantees

  /** The arguments that must already be bytes; every other slot is masked into range. */
  predicate SettingsInRange(p: SettingsRequest)
  {
    0 <= p.hour < 0x100 && 0 <= p.hour24 < 0x100 && 0 <= p.minute < 0x100 && 0 <= p.second < 0x100 &&
    0 <= p.goalUnit < 0x100 && 0 <= p.distanceUnit < 0x100 && 0 <= p.over100goal < 0x100
  }

  /** Encoding succeeds exactly when the unmasked arguments are bytes, and then gives 16 bytes. */
  lemma EncodeSettingsSucceeds(p: SettingsRequest)
    ensures EncodeSettings(p).Success? <==> SettingsInRange(p)
    ensures EncodeSettings(p).Success? ==> |EncodeSettings(p).value| == 16
  {
    var s := SettingsSlots(p);
    if SettingsInRange(p) {
      OrOfBytes(p.hour, p.hour24);
      OrOfBytes(p.goal / 0x1_0000 % 0x80, p.goalUnit);
      OrOfBytes(p.calorie / 0x100_0000 % 0x80, p.distanceUnit);
      assert forall i :: 0 <= i < 16 ==> 0 <= s[i] < 0x100;
    } else if !(0 <= p.hour < 0x100 && 0 <= p.hour24 < 0x100) {
      assert !(0 <= s[0] < 0x100);
    } else if !(0 <= p.goalUnit < 0x100) {
      assert !(0 <= s[5] < 0x100);
    } else if !(0 <= p.distanceUnit < 0x100) {
      assert !(0 <= s[11] < 0x100);
    } else if !(0 <= p.minute < 0x100) {
      assert !(0 <= s[1] < 0x100);
    } else if !(0 <= p.second < 0x100) {
      assert !(0 <= s[2] < 0x100);
    } else {
      assert !(0 <= s[15] < 0x100);
    }
  }

  /** A successful encoding is exactly the slot values. */
  lemma EncodedSlots(p: SettingsRequest)
    requires EncodeSettings(p).Success?
    ensures var d: seq<int> := EncodeSettings(p).value; d == SettingsSlots(p)
  {
  }

  /** A 7-bit value ORed with a flag of 0 or 0x80 keeps the value in bits 0..6 and the flag in bit 7. */
  lemma OrFlag(low: int32, flag: int32)
    requires 0 <= low < 0x80 && (flag == 0 || flag == 0x80)
    ensures Or32(low, flag) % 0x80 == low && Or32(low, flag) / 0x80 * 0x80 == flag
  {
    if flag == 0x80 {
      OrHighBit(low);
    } else {
      OrOfBytes(low, flag);
    }
  }

  /** Bytes 0..2 carry the clock: byte 0 is the hour ORed with the 24-hour flag, so with the flag
      0x80 bit 7 is set and the hour sits in bits 0..6. */
  lemma SettingsClock(p: SettingsRequest)
    requires EncodeSettings(p).Success?
    ensures var d: seq<int> := EncodeSettings(p).value;
      |d| == 16 && d[0] == Or32(p.hour, p.hour24) && d[1] == p.minute && d[2] == p.second &&
      (p.hour24 == 0x80 ==> d[0] >= 0x80 && d[0] % 0x80 == p.hour % 0x80)
  {
    EncodedSlots(p);
    if p.hour24 == 0x80 {
      EncodeSettingsSucceeds(p);
      HighBitKeepsLow(p.hour);
    }
  }

  /** Setting bit 7 of a byte leaves its bits 0..6 alone. */
  lemma HighBitKeepsLow(x: int32)
    requires 0 <= x < 0x100
    ensures Or32(x, 0x80) >= 0x80 && Or32(x, 0x80) % 0x80 == x % 0x80
  {
    OrHighBit(x);
    if x < 0x80 {
      assert (x + 0x80) % 0x80 == x;
    }
  }

  /** Bytes 3..5 hold the low 23 bits of the goal, little-endian; bit 7 of byte 5 is the goal unit. */
  lemma SettingsGoal(p: SettingsRequest)
    requires EncodeSettings(p).Success? && (p.goalUnit == 0 || p.goalUnit == 0x80)
    ensures var d: seq<int> := EncodeSettings(p).value;
      |d| == 16 &&
      d[3] + d[4] * 0x100 + (d[5] % 0x80) * 0x1_0000 == p.goal % 0x80_0000 &&
      d[5] / 0x80 * 0x80 == p.goalUnit
  {
    EncodedSlots(p);
    EncodeSettingsSucceeds(p);
    OrFlag(p.goal / 0x1_0000 % 0x80, p.goalUnit);
    Low23(p.goal);
  }

  /** Bytes 6..7 hold only the low 16 bits of the distance. */
  lemma SettingsDistance(p: SettingsRequest)
    requires EncodeSettings(p).Success?
    ensures var d: seq<int> := EncodeSettings(p).value;
      |d| == 16 && d[6] + d[7] * 0x100 == p.distance % 0x1_0000
  {
    EncodedSlots(p);
    EncodeSettingsSucceeds(p);
    Low16(p.distance);
  }

  /** Bytes 8..11 hold the low 31 bits of the calorie value (its two's-complement bits when it is
      negative); bit 7 of byte 11 is the distance unit. */
  lemma SettingsCalorie(p: SettingsRequest)
    requires EncodeSettings(p).Success? && (p.distanceUnit == 0 || p.distanceUnit == 0x80)
    ensures var d: seq<int> := EncodeSettings(p).value;
      |d| == 16 &&
      d[8] + d[9] * 0x100 + d[10] * 0x1_0000 + (d[11] % 0x80) * 0x100_0000 == p.calorie % 0x8000_0000 &&
      d[11] / 0x80 * 0x80 == p.distanceUnit
  {
    EncodedSlots(p);
    EncodeSettingsSucceeds(p);
    OrFlag(p.calorie / 0x100_0000 % 0x80, p.distanceUnit);
    Low31(p.calorie);
  }

  /** Bytes 12..14 hold the low 24 bits of the BMR; byte 15 is the over-100%-goal flag. */
  lemma SettingsBmr(p: SettingsRequest)
    requires EncodeSettings(p).Success?
    ensures var d: seq<int> := EncodeSettings(p).value;
      |d| == 16 && d[12] + d[13] * 0x100 + d[14] * 0x1_0000 == p.bmr % 0x100_0000 && d[15] == p.over100goal
  {
    EncodedSlots(p);
    EncodeSettingsSucceeds(p);
    Low24(p.bmr);
  }

  /** The default distance of 500000 does not fit in 16 bits and reaches the band as 41248. */
  lemma DefaultDistanceTruncated(p: SettingsRequest)
    requires EncodeSettings(p).Success? && p.distance == 500000
    ensures var d: seq<int> := EncodeSettings(p).value; |d| == 16 && d[6] + d[7] * 0x100 == 41248
  {
    SettingsDistance(p);
    assert 500000 % 0x1_0000 == 41248;
  }

  /**
   * CreateNewWristbandSettings with the clock and the body-metric results passed in: the 24-hour
   * flag, goal unit 0, distance unit 0x80 and over-100%-goal flag 0x80 are fixed.
   */
  method CreateNewWristbandSettings(hour: int32, minute: int32, second: int32,
                                    goalSteps: int32, distancePerStep: int32,
                                    caloriesPerStep: int32, bmr: int32)
    returns (r: Result<seq<byte>, ConvertError>)
    requires 0 <= hour < 24 && 0 <= minute < 60 && 0 <= second < 60
    ensures r.Success? && |r.value| == 16
    ensures r.value[0] == 0x80 + hour && r.value[1] == minute && r.value[2] == second
    ensures r.value[5] < 0x80 && r.value[11] >= 0x80 && r.value[15] == 0x80
  {
    var p := SettingsRequest(0x80, hour, minute, second, goalSteps, 0x00, distancePerStep, 0x80,
                             caloriesPerStep, bmr, 0x80);
    r := ConvertSettingsToByteArray(0x80, hour, minute, second, goalSteps, 0x00, distancePerStep, 0x80,
                                    caloriesPerStep, bmr, 0x80);
    EncodeSettingsSucceeds(p);
    EncodedSlots(p);
    OrHighBit(hour);
    SettingsGoal(p);
    SettingsCalorie(p);
    SettingsBmr(p);
  }

  /** A value whose shifted-out high part is 0 contributes nothing next to the flag. */
  lemma FlagOnly(v: int32, d: int, flag: int32)
    requires 0 <= v < d && flag >= 0
    ensures Or32(v / d % 0x80, flag) == flag
  {
    assert v / d == 0;
    OrZero(flag);
  }

  /** The request for 14:30:00, goal 10000, distance 500000, 1200 calories per step and a BMR of
      150000, with the flags CreateNewWristbandSettings fixes. */
  predicate GoldenRequest(p: SettingsRequest)
  {
    p.hour24 == 0x80 && p.hour == 14 && p.minute == 30 && p.second == 0 &&
    p.goal == 10000 && p.goalUnit == 0 && p.distance == 500000 && p.distanceUnit == 0x80 &&
    p.calorie == 1200 && p.bmr == 150000 && p.over100goal == 0x80
  }

  lemma GoldenSlots(p: SettingsRequest)
    requires GoldenRequest(p)
    ensures SettingsSlots(p) == [142, 30, 0, 16, 39, 0, 32, 161, 176, 4, 0, 128, 240, 73, 2, 128]
  {
    OrHighBit(14);
    FlagOnly(p.goal, 0x1_0000, p.goalUnit);
    FlagOnly(p.calorie, 0x100_0000, p.distanceUnit);
    GoldenArithmetic();
  }

  /** The byte arithmetic of that request's masked slots, kept apart from the slot layout. */
  lemma GoldenArithmetic()
    ensures 10000 % 0x100 == 16 && 10000 / 0x100 % 0x100 == 39
    ensures 500000 % 0x100 == 32 && 500000 / 0x100 % 0x100 == 161
    ensures 1200 % 0x100 == 176 && 1200 / 0x100 % 0x100 == 4 && 1200 / 0x1_0000 % 0x100 == 0
    ensures 150000 % 0x100 == 240 && 150000 / 0x100 % 0x100 == 73 && 150000 / 0x1_0000 % 0x100 == 2
  {
  }

  /** That request's settings buffer, byte for byte. */
  lemma GoldenSettings(p: SettingsRequest)
    requires GoldenRequest(p)
    ensures EncodeSettings(p) == Success([142, 30, 0, 16, 39, 0, 32, 161, 176, 4, 0, 128, 240, 73, 2, 128])
  {
    GoldenSlots(p);
    SlotsEncoded(p, [142, 30, 0, 16, 39, 0, 32, 161, 176, 4, 0, 128, 240, 73, 2, 128]);
  }
}
