/**
 * StepsData: the raw "today" buffer read from the steps characteristic and one raw buffer per
 * history day received by notification, with decoders for the fixed byte offsets of each field.
 */
module Steps {
  import opened Wrappers
  import opened Bytes

  /** A C# `byte[]` reference: None stands for null. */
  type Buffer = Option<seq<byte>>

  /** The NullReferenceException that cloning a null buffer raises. */
  datatype CopyError = NullBuffer

  // ---------------------------------------------------------------------------------------------
  // Presence tests

  /** noToday: the today buffer is missing, or too short to hold byte number maxBit. */
  function NoToday(today: Buffer, maxBit: nat): (r: bool)
    ensures !r <==> today.Some? && maxBit < |today.value|
  {
    today.None? || |today.value| <= maxBit
  }

  /** noHistory: history entry `index` is missing, null, or too short to hold byte number maxBit. */
  function NoHistory(history: seq<Buffer>, index: nat, maxBit: nat): (r: bool)
    ensures !r <==> index < |history| && history[index].Some? && maxBit < |history[index].value|
  {
    |history| <= index || history[index].None? || |history[index].value| <= maxBit
  }

  /** A guard that lets a byte through lets every earlier byte through; one that refuses a byte
      refuses every later one. */
  lemma GuardsMonotone(today: Buffer, history: seq<Buffer>, index: nat, lo: nat, hi: nat)
    requires lo <= hi
    ensures !NoToday(today, hi) ==> !NoToday(today, lo)
    ensures NoToday(today, lo) ==> NoToday(today, hi)
    ensures !NoHistory(history, index, hi) ==> !NoHistory(history, index, lo)
    ensures NoHistory(history, index, lo) ==> NoHistory(history, index, hi)
  {
  }

  // ---------------------------------------------------------------------------------------------
  // Today decoders: a missing field reads as 0

  /** Bytes 0..2, little-endian. */
  function StepsToday(today: Buffer): (r: int)
    ensures 0 <= r <= 0xFF_FFFF
  {
    if NoToday(today, 2) then 0
    else (today.value[2] as int) * 0x1_0000 + (today.value[1] as int) * 0x100 + today.value[0]
  }

  /** Bytes 3..4, little-endian. */
  function ExerciseTimeToday(today: Buffer): (r: int)
    ensures 0 <= r <= 0xFFFF
  {
    if NoToday(today, 4) then 0 else (today.value[4] as int) * 0x100 + today.value[3]
  }

  /** Byte 5: the number of history days the band holds. */
  function NrOfStepsRecords(today: Buffer): (r: int)
    ensures 0 <= r <= 0xFF
  {
    if NoToday(today, 5) then 0 else today.value[5]
  }

  /** Bytes 6..7, read with byte 6 as the HIGH byte (the only big-endian field). */
  function NrOfSleepRecords(today: Buffer): (r: int)
    ensures 0 <= r <= 0xFFFF
  {
    if NoToday(today, 7) then 0 else (today.value[6] as int) * 0x100 + today.value[7]
  }

  // ---------------------------------------------------------------------------------------------
  // History decoders: steps and exercise time read as 0 when missing, every other field as -1

  /** Bit 7 of byte 0. */
  function DaysAgo(history: seq<Buffer>, index: nat): (r: int)
    ensures r == -1 || r == 0 || r == 0x80
  {
    if NoHistory(history, index, 0) then -1 else history[index].value[0] / 0x80 * 0x80
  }

  /** Bytes 1..3, little-endian. */
  function StepsHistory(history: seq<Buffer>, index: nat): (r: int)
    ensures 0 <= r <= 0xFF_FFFF
  {
    if NoHistory(history, index, 3) then 0
    else (history[index].value[3] as int) * 0x1_0000 + (history[index].value[2] as int) * 0x100 + history[index].value[1]
  }

  /** Bytes 4..5, little-endian. */
  function ExerciseTimeHistory(history: seq<Buffer>, index: nat): (r: int)
    ensures 0 <= r <= 0xFFFF
  {
    if NoHistory(history, index, 5) then 0
    else (history[index].value[5] as int) * 0x100 + history[index].value[4]
  }

  /** Bytes 6..8 without bit 7 of byte 8: a 23-bit goal. */
  function GoalStepsHistory(history: seq<Buffer>, index: nat): (r: int)
    ensures r == -1 || 0 <= r <= 0x7F_FFFF
  {
    if NoHistory(history, index, 8) then -1
    else ((history[index].value[8] as int) % 0x80) * 0x1_0000 + (history[index].value[7] as int) * 0x100 + history[index].value[6]
  }

  /** Bit 7 of byte 8. */
  function GoalUnitsHistory(history: seq<Buffer>, index: nat): (r: int)
    ensures r == -1 || r == 0 || r == 0x80
  {
    if NoHistory(history, index, 8) then -1 else history[index].value[8] / 0x80 * 0x80
  }

  /** Bytes 9..10, little-endian. */
  function DistanceWalkedHistory(history: seq<Buffer>, index: nat): (r: int)
    ensures r == -1 || 0 <= r <= 0xFFFF
  {
    if NoHistory(history, index, 10) then -1
    else (history[index].value[10] as int) * 0x100 + history[index].value[9]
  }

  /** Bytes 11..13 without bit 7 of byte 13. */
  function CaloriesBurnedPerStepHistory(history: seq<Buffer>, index: nat): (r: int)
    ensures r == -1 || 0 <= r <= 0x7F_FFFF
  {
    if NoHistory(history, index, 13) then -1
    else ((history[index].value[13] as int) % 0x80) * 0x1_0000 + (history[index].value[12] as int) * 0x100 + history[index].value[11]
  }

  /** Bit 7 of byte 13. */
  function DistanceUnitsHistory(history: seq<Buffer>, index: nat): (r: int)
    ensures r == -1 || r == 0 || r == 0x80
  {
    if NoHistory(history, index, 13) then -1 else history[index].value[13] / 0x80 * 0x80
  }

  /** Bytes 14..16, little-endian. */
  function BMRHistory(history: seq<Buffer>, index: nat): (r: int)
    ensures r == -1 || 0 <= r <= 0xFF_FFFF
  {
    if NoHistory(history, index, 16) then -1
    else (history[index].value[16] as int) * 0x1_0000 + (history[index].value[15] as int) * 0x100 + history[index].value[14]
  }

  /** A history day that is absent reads 0 for steps and exercise time and -1 for the rest. */
  lemma MissingHistoryDay(history: seq<Buffer>, index: nat)
    requires |history| <= index || history[index].None?
    ensures StepsHistory(history, index) == 0 && ExerciseTimeHistory(history, index) == 0
    ensures DaysAgo(history, index) == -1 && GoalStepsHistory(history, index) == -1
    ensures GoalUnitsHistory(history, index) == -1 && DistanceWalkedHistory(history, index) == -1
    ensures CaloriesBurnedPerStepHistory(history, index) == -1
    ensures DistanceUnitsHistory(history, index) == -1 && BMRHistory(history, index) == -1
  {
  }

  // ---------------------------------------------------------------------------------------------
  // The firmware layouts, written as encoders, and the round trips with the decoders

  /** The four fields of the today buffer. */
  datatype TodaySummary = TodaySummary(steps: int, exerciseTime: int, stepsRecords: int, sleepRecords: int)

  predicate ValidTodaySummary(t: TodaySummary)
  {
    0 <= t.steps < 0x100_0000 && 0 <= t.exerciseTime < 0x1_0000 &&
    0 <= t.stepsRecords < 0x100 && 0 <= t.sleepRecords < 0x1_0000
  }

  function DecodeToday(today: Buffer): TodaySummary
  {
    TodaySummary(StepsToday(today), ExerciseTimeToday(today), NrOfStepsRecords(today), NrOfSleepRecords(today))
  }

  /** The 8-byte today layout the band sends. */
  function EncodeToday(t: TodaySummary): (b: seq<byte>)
    requires ValidTodaySummary(t)
    ensures |b| == 8
  {
    [t.steps % 0x100, t.steps / 0x100 % 0x100, t.steps / 0x1_0000,
     t.exerciseTime % 0x100, t.exerciseTime / 0x100,
     t.stepsRecords,
     t.sleepRecords / 0x100, t.sleepRecords % 0x100]
  }

  /** Three bytes, little-endian, make one value below 2^24 and can be read back. */
  lemma LittleEndian3(b0: byte, b1: byte, b2: byte)
    ensures var v := b2 * 0x1_0000 + b1 * 0x100 + b0;
      v % 0x100 == b0 && v / 0x100 % 0x100 == b1 && v / 0x1_0000 == b2
  {
  }

  /** A value below 2^24 is the little-endian reading of its three bytes. */
  lemma SplitInto3(v: int)
    requires 0 <= v < 0x100_0000
    ensures v == (v / 0x1_0000) * 0x1_0000 + (v / 0x100 % 0x100) * 0x100 + v % 0x100
    ensures v / 0x1_0000 < 0x100
  {
  }

  /** Decoding an encoded today buffer gives back its fields. */
  lemma DecodeEncodeToday(t: TodaySummary)
    requires ValidTodaySummary(t)
    ensures DecodeToday(Some(EncodeToday(t))) == t
  {
    SplitInto3(t.steps);
  }

  /** Every buffer of at least 8 bytes is the encoding of what it decodes to, up to its 8th byte. */
  lemma EncodeDecodeToday(b: seq<byte>)
    requires |b| >= 8
    ensures ValidTodaySummary(DecodeToday(Some(b)))
    ensures EncodeToday(DecodeToday(Some(b))) == b[..8]
  {
    LittleEndian3(b[0], b[1], b[2]);
  }

  /** The nine fields of one history day. */
  datatype DaySummary = DaySummary(
    daysAgo: int, steps: int, exerciseTime: int, goalSteps: int, goalUnit: int,
    distance: int, caloriesPerStep: int, distanceUnit: int, bmr: int)

  predicate IsFlag(x: int) { x == 0 || x == 0x80 }

  predicate ValidDaySummary(d: DaySummary)
  {
    IsFlag(d.daysAgo) && IsFlag(d.goalUnit) && IsFlag(d.distanceUnit) &&
    0 <= d.steps < 0x100_0000 && 0 <= d.exerciseTime < 0x1_0000 && 0 <= d.goalSteps < 0x80_0000 &&
    0 <= d.distance < 0x1_0000 && 0 <= d.caloriesPerStep < 0x80_0000 && 0 <= d.bmr < 0x100_0000
  }

  function DecodeHistoryDay(history: seq<Buffer>, index: nat): DaySummary
  {
    DaySummary(
      DaysAgo(history, index), StepsHistory(history, index), ExerciseTimeHistory(history, index),
      GoalStepsHistory(history, index), GoalUnitsHistory(history, index),
      DistanceWalkedHistory(history, index), CaloriesBurnedPerStepHistory(history, index),
      DistanceUnitsHistory(history, index), BMRHistory(history, index))
  }

  /** The 17-byte history-day layout the band notifies. */
  function EncodeHistoryDay(d: DaySummary): (b: seq<byte>)
    requires ValidDaySummary(d)
    ensures |b| == 17
  {
    [d.daysAgo,
     d.steps % 0x100, d.steps / 0x100 % 0x100, d.steps / 0x1_0000,
     d.exerciseTime % 0x100, d.exerciseTime / 0x100,
     d.goalSteps % 0x100, d.goalSteps / 0x100 % 0x100, d.goalSteps / 0x1_0000 + d.goalUnit,
     d.distance % 0x100, d.distance / 0x100,
     d.caloriesPerStep % 0x100, d.caloriesPerStep / 0x100 % 0x100, d.caloriesPerStep / 0x1_0000 + d.distanceUnit,
     d.bmr % 0x100, d.bmr / 0x100 % 0x100, d.bmr / 0x1_0000]
  }

  /** A 7-bit value and a flag share one byte without disturbing each other. */
  lemma FlagByte(low: int, flag: int)
    requires 0 <= low < 0x80 && IsFlag(flag)
    ensures (low + flag) % 0x80 == low && (low + flag) / 0x80 * 0x80 == flag
  {
  }

  /** Decoding an encoded history day, wherever it sits in the list, gives back its fields. */
  lemma DecodeEncodeHistoryDay(history: seq<Buffer>, index: nat, d: DaySummary)
    requires ValidDaySummary(d)
    requires index < |history| && history[index] == Some(EncodeHistoryDay(d))
    ensures DecodeHistoryDay(history, index) == d
  {
    SplitInto3(d.steps);
    SplitInto3(d.goalSteps);
    SplitInto3(d.caloriesPerStep);
    SplitInto3(d.bmr);
    FlagByte(d.goalSteps / 0x1_0000, d.goalUnit);
    FlagByte(d.caloriesPerStep / 0x1_0000, d.distanceUnit);
  }

  /** Every history buffer of at least 17 bytes re-encodes to itself, except for the seven low
      bits of byte 0, which no decoder reads. */
  lemma EncodeDecodeHistoryDay(history: seq<Buffer>, index: nat)
    requires index < |history| && history[index].Some? && |history[index].value| >= 17
    ensures ValidDaySummary(DecodeHistoryDay(history, index))
    ensures var b := history[index].value;
      EncodeHistoryDay(DecodeHistoryDay(history, index)) == [b[0] / 0x80 * 0x80] + b[1..17]
  {
    var b := history[index].value;
    LittleEndian3(b[1], b[2], b[3]);
    LittleEndian3(b[6], b[7], b[8] % 0x80);
    LittleEndian3(b[11], b[12], b[13] % 0x80);
    LittleEndian3(b[14], b[15], b[16]);
  }

  // ---------------------------------------------------------------------------------------------
  // Totals over the history

  /** Steps of history days 0..k-1. */
  function HistoryStepsUpTo(history: seq<Buffer>, k: nat): int
    requires k <= |history|
  {
    if k == 0 then 0 else HistoryStepsUpTo(history, k - 1) + StepsHistory(history, k - 1)
  }

  /** Exercise time of history days 0..k-1. */
  function HistoryExerciseUpTo(history: seq<Buffer>, k: nat): int
    requires k <= |history|
  {
    if k == 0 then 0 else HistoryExerciseUpTo(history, k - 1) + ExerciseTimeHistory(history, k - 1)
  }

  /** Appending a day leaves the sums over earlier days unchanged. */
  lemma {:induction false} HistoryUpToAppend(history: seq<Buffer>, e: Buffer, k: nat)
    requires k <= |history|
    ensures HistoryStepsUpTo(history + [e], k) == HistoryStepsUpTo(history, k)
    ensures HistoryExerciseUpTo(history + [e], k) == HistoryExerciseUpTo(history, k)
  {
    if k > 0 {
      HistoryUpToAppend(history, e, k - 1);
      assert (history + [e])[k - 1] == history[k - 1];
    }
  }

  /** The sums are bounded by the number of days times the largest field value. */
  lemma {:induction false} HistoryUpToBounds(history: seq<Buffer>, k: nat)
    requires k <= |history|
    ensures 0 <= HistoryStepsUpTo(history, k) <= k * 0xFF_FFFF
    ensures 0 <= HistoryExerciseUpTo(history, k) <= k * 0xFFFF
  {
    if k > 0 {
      HistoryUpToBounds(history, k - 1);
    }
  }

  // ---------------------------------------------------------------------------------------------
  // The mutable holder

  class StepsData {
    var today: Buffer
    var history: seq<Buffer>

    /** A new holder has no today buffer and an empty history. */
    constructor ()
      ensures today.None? && history == []
    {
      today := None;
      history := [];
    }

    /** getTodayData: a copy of the today buffer; cloning a null buffer throws. */
    function GetTodayData(): (r: Result<seq<byte>, CopyError>)
      reads this
      ensures r.Success? <==> today.Some?
      ensures r.Success? ==> today == Some(r.value)
    {
      if today.None? then Failure(NullBuffer) else Success(today.value)
    }

    /** getHistoryData: a new list holding a copy of every history day, in order; cloning a null
        day throws. */
    method GetHistoryData() returns (r: Result<seq<seq<byte>>, CopyError>)
      ensures r.Success? <==> forall k :: 0 <= k < |history| ==> history[k].Some?
      ensures r.Success? ==> |r.value| == |history| && forall k :: 0 <= k < |history| ==> history[k] == Some(r.value[k])
    {
      var output: seq<seq<byte>> := [];
      var i := 0;
      while i < |history|
        invariant 0 <= i <= |history| && |output| == i
        invariant forall k :: 0 <= k < i ==> history[k] == Some(output[k])
      {
        if history[i].None? {
          return Failure(NullBuffer);
        }
        output := output + [history[i].value];
        i := i + 1;
      }
      return Success(output);
    }

    method SetTodayData(data: Buffer)
      modifies this
      ensures today == data && history == old(history)
    {
      today := data;
    }

    /** Appends the day; the index argument is not used. */
    method SetHistoryData(index: int, data: Buffer)
      modifies this
      ensures history == old(history) + [data] && today == old(today)
      ensures forall k :: 0 <= k < |old(history)| ==> history[k] == old(history)[k]
    {
      history := history + [data];
    }

    method Clear()
      modifies this
      ensures today.None? && history == []
    {
      today := None;
      history := [];
    }

    /**
     * Today's steps plus every history day's steps, accumulated in a 32-bit int that wraps on
     * overflow; with at most 127 history days the sum cannot overflow.
     */
    method TotalStepsWalked() returns (total: int32)
      ensures total == Wrap32(StepsToday(today) + HistoryStepsUpTo(history, |history|))
      ensures |history| <= 127 ==> total == StepsToday(today) + HistoryStepsUpTo(history, |history|)
    {
      total := StepsToday(today);
      var i := 0;
      while i < |history|
        invariant 0 <= i <= |history|
        invariant total == Wrap32(StepsToday(today) + HistoryStepsUpTo(history, i))
      {
        var steps := StepsHistory(history, i);
        WrapAdd(StepsToday(today) + HistoryStepsUpTo(history, i), steps);
        total := Wrap32(total + (if steps == -1 then 0 else steps));
        i := i + 1;
      }
      HistoryUpToBounds(history, |history|);
    }

    /**
     * Today's exercise time plus every history day's, in a wrapping 32-bit int; with at most
     * 32767 history days the sum cannot overflow.
     */
    method TotalExerciseTime() returns (total: int32)
      ensures total == Wrap32(ExerciseTimeToday(today) + HistoryExerciseUpTo(history, |history|))
      ensures |history| <= 32767 ==> total == ExerciseTimeToday(today) + HistoryExerciseUpTo(history, |history|)
    {
      total := ExerciseTimeToday(today);
      var i := 0;
      while i < |history|
        invariant 0 <= i <= |history|
        invariant total == Wrap32(ExerciseTimeToday(today) + HistoryExerciseUpTo(history, i))
      {
        var xt := ExerciseTimeHistory(history, i);
        WrapAdd(ExerciseTimeToday(today) + HistoryExerciseUpTo(history, i), xt);
        total := Wrap32(total + (if xt == -1 then 0 else xt));
        i := i + 1;
      }
      HistoryUpToBounds(history, |history|);
    }
  }

  /** Appending a history day raises the steps total by exactly that day's steps. */
  lemma TotalAfterAppend(today: Buffer, history: seq<Buffer>, e: Buffer)
    ensures StepsToday(today) + HistoryStepsUpTo(history + [e], |history| + 1)
         == StepsToday(today) + HistoryStepsUpTo(history, |history|) + StepsHistory([e], 0)
    ensures ExerciseTimeToday(today) + HistoryExerciseUpTo(history + [e], |history| + 1)
         == ExerciseTimeToday(today) + HistoryExerciseUpTo(history, |history|) + ExerciseTimeHistory([e], 0)
  {
    HistoryUpToAppend(history, e, |history|);
  }

  /** After Clear every today field and both totals read 0. */
  /**
   * The copies hand back what was stored: a today buffer and two history days read back as
   * themselves, and after Clear the today copy throws and the history copy is empty.
   */
  method CopiesAfterStore(today: seq<byte>, day0: seq<byte>, day1: seq<byte>)
    returns (todayCopy: Result<seq<byte>, CopyError>, historyCopy: Result<seq<seq<byte>>, CopyError>,
             clearedToday: Result<seq<byte>, CopyError>, clearedHistory: Result<seq<seq<byte>>, CopyError>)
    ensures todayCopy == Success(today) && historyCopy == Success([day0, day1])
    ensures clearedToday == Failure(NullBuffer) && clearedHistory == Success([])
  {
    var s := new StepsData();
    s.SetTodayData(Some(today));
    s.SetHistoryData(0, Some(day0));
    s.SetHistoryData(1, Some(day1));
    todayCopy := s.GetTodayData();
    assert s.history == [Some(day0), Some(day1)];
    assert forall k :: 0 <= k < |s.history| ==> s.history[k].Some?;
    historyCopy := s.GetHistoryData();
    assert historyCopy.value == [day0, day1] by {
      assert Some(historyCopy.value[0]) == Some(day0) && Some(historyCopy.value[1]) == Some(day1);
    }
    s.Clear();
    clearedToday := s.GetTodayData();
    clearedHistory := s.GetHistoryData();
  }

  lemma ClearedReadsZero()
    ensures DecodeToday(None) == TodaySummary(0, 0, 0, 0)
    ensures HistoryStepsUpTo([], 0) == 0 && HistoryExerciseUpTo([], 0) == 0
  {
  }
}
