/**
 * TimeDateStepsTools: looking days up in a history array by their date string, zero padding, and
 * the "yyyy-mm-dd" and "yyyy-mm-ddThh:mm:ss.fffZ" spellings of a date and time.
 */
module DateTools {
  import opened Wrappers
  import opened Text
  import opened StepsDays

  // Lookups in a history array

  /**
   * GetStepsByDate: the first entry whose day string equals the date, or none (null) when no
   * entry has it.
   */
  method GetStepsByDate(stepsDate: string, stepsHistoryList: array<StepsDayType>) returns (r: Option<StepsDayType>)
    ensures r.Some? ==> exists i :: (0 <= i < stepsHistoryList.Length && stepsHistoryList[i] == r.value &&
      r.value.day == stepsDate && forall j :: 0 <= j < i ==> stepsHistoryList[j].day != stepsDate)
    ensures r.None? <==> forall i :: 0 <= i < stepsHistoryList.Length ==> stepsHistoryList[i].day != stepsDate
  {
    for i := 0 to stepsHistoryList.Length
      invariant forall j :: 0 <= j < i ==> stepsHistoryList[j].day != stepsDate
    {
      var stepsDay := stepsHistoryList[i];
      if stepsDay.day == stepsDate {
        return Some(stepsDay);
      }
    }
    return None;
  }

  /**
   * GetIndexFromStepDay: the first index whose entry has the same day string as the given day,
   * or -1 when there is none.
   */
  method GetIndexFromStepDay(stepsDay: StepsDayType, stepsHistoryList: array<StepsDayType>) returns (index: int)
    ensures -1 <= index < stepsHistoryList.Length
    ensures 0 <= index ==> stepsHistoryList[index].day == stepsDay.day
    ensures forall j :: 0 <= j < index ==> stepsHistoryList[j].day != stepsDay.day
    ensures index == -1 <==> forall j :: 0 <= j < stepsHistoryList.Length ==> stepsHistoryList[j].day != stepsDay.day
  {
    for i := 0 to stepsHistoryList.Length
      invariant forall j :: 0 <= j < i ==> stepsHistoryList[j].day != stepsDay.day
    {
      if stepsDay.day == stepsHistoryList[i].day {
        return i;
      }
    }
    return -1;
  }

  /** The two lookups agree: the entry found by date sits at the index found for that date. */
  method LookupsAgree(stepsDay: StepsDayType, stepsHistoryList: array<StepsDayType>)
    returns (found: Option<StepsDayType>, index: int)
    ensures found.None? <==> index == -1
    ensures found.Some? ==> 0 <= index < stepsHistoryList.Length && found.value == stepsHistoryList[index]
  {
    found := GetStepsByDate(stepsDay.day, stepsHistoryList);
    index := GetIndexFromStepDay(stepsDay, stepsHistoryList);
  }

  // Zero padding

  /** k zeros. */
  function Zeros(k: nat): (z: string)
    ensures |z| == k && forall i :: 0 <= i < k ==> z[i] == '0'
  {
    seq(k, _ => '0')
  }

  /** The specification of AddZeros: s with zeros in front up to the width; never shortened. */
  function Padded(s: string, width: int): string
  {
    Zeros(if width > |s| then width - |s| else 0) + s
  }

  predicate AllDigits(s: string)
  {
    forall i :: 0 <= i < |s| ==> IsDigit(s[i])
  }

  /** AddZeros: prepends "0" while the string is shorter than the width. */
  method AddZeros(number: string, length: int) returns (r: string)
    ensures r == Padded(number, length)
  {
    r := number;
    while |r| < length
      invariant |number| <= |r|
      invariant |r| == |number| || |r| <= length
      invariant r == Zeros(|r| - |number|) + number
      decreases length - |r|
    {
      assert "0" + Zeros(|r| - |number|) == Zeros(|r| + 1 - |number|);
      r := "0" + r;
    }
  }

  /** Padding reaches the width, keeps the string as its suffix and only adds zeros. */
  lemma PaddedShape(s: string, width: int)
    ensures |Padded(s, width)| == if width > |s| then width else |s|
    ensures Padded(s, width)[|Padded(s, width)| - |s|..] == s
    ensures forall i :: 0 <= i < |Padded(s, width)| - |s| ==> Padded(s, width)[i] == '0'
  {
  }

  /** Padding twice to the same width is padding once. */
  lemma PaddedIdempotent(s: string, width: int)
    ensures Padded(Padded(s, width), width) == Padded(s, width)
  {
    assert Zeros(0) + Padded(s, width) == Padded(s, width);
  }

  /** Leading zeros keep a digit string a digit string with the same value. */
  lemma {:induction false} ZerosValue(k: nat, s: string)
    requires AllDigits(s)
    ensures AllDigits(Zeros(k) + s)
    ensures DecimalValue(Zeros(k) + s) == DecimalValue(s)
  {
    if k > 0 {
      ZerosValue(k - 1, s);
      assert Zeros(k) + s == "0" + (Zeros(k - 1) + s);
      DecimalValueLeadingZero(Zeros(k - 1) + s);
    } else {
      assert Zeros(k) + s == s;
    }
  }

  /** A padded decimal number still reads back as that number. */
  lemma PaddedValue(n: nat, width: int)
    ensures AllDigits(Padded(NatToString(n), width))
    ensures DecimalValue(Padded(NatToString(n), width)) == n
  {
    var s := NatToString(n);
    ZerosValue(if width > |s| then width - |s| else 0, s);
    DecimalValueOfNatToString(n);
  }

  // Date and timestamp text

  /** The components of a System.DateTime, each within the range DateTime guarantees. */
  datatype DateTime = DateTime(year: nat, month: nat, day: nat, hour: nat, minute: nat, second: nat,
                               millisecond: nat)

  predicate ValidDateTime(t: DateTime)
  {
    1 <= t.year <= 9999 && 1 <= t.month <= 12 && 1 <= t.day <= 31 &&
    t.hour < 24 && t.minute < 60 && t.second < 60 && t.millisecond < 1000
  }

  /** A component in decimal, zero-padded to the width. */
  function Field(v: nat, width: nat): string
  {
    Padded(NatToString(v), width)
  }

  /** A value that fits the width gives a field of exactly that many digits denoting it. */
  lemma FieldFits(v: nat, width: nat)
    requires (width == 2 && v < 100) || (width == 3 && v < 1000)
    ensures |Field(v, width)| == width
    ensures AllDigits(Field(v, width)) && DecimalValue(Field(v, width)) == v
  {
    PaddedValue(v, width);
  }

  /**
   * DateToString: the year unpadded, then the month and the day padded to two digits. For a
   * valid date it is the year's digits, '-', two month digits, '-', two day digits, each part
   * reading back as the component it came from.
   */
  function DateToString(t: DateTime): (s: string)
    ensures ValidDateTime(t) ==> var n := |NatToString(t.year)|;
      DateLayout(s, n, t) && s[..n] == NatToString(t.year)
  {
    if ValidDateTime(t) then
      FieldFits(t.month, 2);
      FieldFits(t.day, 2);
      DecimalValueOfNatToString(t.year);
      DateJoin(NatToString(t.year), Field(t.month, 2), Field(t.day, 2));
      NatToString(t.year) + "-" + Field(t.month, 2) + "-" + Field(t.day, 2)
    else
      NatToString(t.year) + "-" + Field(t.month, 2) + "-" + Field(t.day, 2)
  }

  /**
   * DateToTimeStamp: "{year}-{MM}-{DD}T{hh}:{mm}:{ss}.{fff}Z". For a valid date and time it
   * starts with the date string and follows the timestamp layout, each field reading back as
   * its component.
   */
  function DateToTimeStamp(t: DateTime): (s: string)
    ensures ValidDateTime(t) ==> var n := |NatToString(t.year)|;
      TimeStampLayout(s, n, t) && s[..n + 6] == DateToString(t)
  {
    var date := NatToString(t.year) + "-" + Field(t.month, 2) + "-" + Field(t.day, 2);
    if ValidDateTime(t) then
      assert date == DateToString(t);
      TimeStampSplit(date, Field(t.hour, 2), Field(t.minute, 2), Field(t.second, 2), Field(t.millisecond, 3));
      DateThenTimeLayout(t);
      date + "T" + Field(t.hour, 2) + ":" + Field(t.minute, 2) + ":" + Field(t.second, 2) + "." +
      Field(t.millisecond, 3) + "Z"
    else
      date + "T" + Field(t.hour, 2) + ":" + Field(t.minute, 2) + ":" + Field(t.second, 2) + "." +
      Field(t.millisecond, 3) + "Z"
  }

  /** s holds at position i a field of w digits that reads back as v. */
  predicate FieldAt(s: string, i: nat, w: nat, v: nat)
  {
    i + w <= |s| && AllDigits(s[i..i + w]) && DecimalValue(s[i..i + w]) == v
  }

  /** d is a date string of t whose year takes n digits: "{year}-{MM}-{DD}". */
  predicate DateLayout(d: string, n: nat, t: DateTime)
  {
    |d| == n + 6 && AllDigits(d[..n]) && DecimalValue(d[..n]) == t.year &&
    d[n] == '-' && FieldAt(d, n + 1, 2, t.month) && d[n + 3] == '-' && FieldAt(d, n + 4, 2, t.day)
  }

  /** x is the time part of a timestamp of t: "T{hh}:{mm}:{ss}.{fff}Z". */
  predicate TimeLayout(x: string, t: DateTime)
  {
    |x| == 14 && x[0] == 'T' && FieldAt(x, 1, 2, t.hour) && x[3] == ':' && FieldAt(x, 4, 2, t.minute) &&
    x[6] == ':' && FieldAt(x, 7, 2, t.second) && x[9] == '.' && FieldAt(x, 10, 3, t.millisecond) && x[13] == 'Z'
  }

  /** Where the pieces of y + "-" + mm + "-" + dd sit. */
  lemma DateJoin(y: string, mm: string, dd: string)
    requires |mm| == 2 && |dd| == 2
    ensures var d := y + "-" + mm + "-" + dd; var n := |y|;
      |d| == n + 6 && d[..n] == y && d[n] == '-' && d[n + 1..n + 3] == mm && d[n + 3] == '-' && d[n + 4..n + 6] == dd
  {
    var d := y + "-" + mm + "-" + dd;
    var n := |y|;
    assert d[..n] == y;
    assert d[n + 1..n + 3] == mm;
    assert d[n + 4..n + 6] == dd;
  }

  /** Where the pieces of "T" + hh + ":" + mi + ":" + ss + "." + ms + "Z" sit. */
  lemma TimeJoin(hh: string, mi: string, ss: string, ms: string)
    requires |hh| == 2 && |mi| == 2 && |ss| == 2 && |ms| == 3
    ensures var x := "T" + hh + ":" + mi + ":" + ss + "." + ms + "Z";
      |x| == 14 && x[0] == 'T' && x[1..3] == hh && x[3] == ':' && x[4..6] == mi && x[6] == ':' &&
      x[7..9] == ss && x[9] == '.' && x[10..13] == ms && x[13] == 'Z'
  {
    var x := "T" + hh + ":" + mi + ":" + ss + "." + ms + "Z";
    assert x[1..3] == hh;
    assert x[4..6] == mi;
    assert x[7..9] == ss;
    assert x[10..13] == ms;
  }

  /** The part of a timestamp after the date: "T{hh}:{mm}:{ss}.{fff}Z". */
  function TimePart(t: DateTime): string
  {
    "T" + Field(t.hour, 2) + ":" + Field(t.minute, 2) + ":" + Field(t.second, 2) + "." +
    Field(t.millisecond, 3) + "Z"
  }

  lemma TimePartLayout(t: DateTime)
    requires ValidDateTime(t)
    ensures TimeLayout(TimePart(t), t)
  {
    FieldFits(t.hour, 2);
    FieldFits(t.minute, 2);
    FieldFits(t.second, 2);
    FieldFits(t.millisecond, 3);
    TimeJoin(Field(t.hour, 2), Field(t.minute, 2), Field(t.second, 2), Field(t.millisecond, 3));
  }

  lemma AppendAssoc(a: string, b: string, c: string)
    ensures (a + b) + c == a + (b + c)
  {
  }

  /** A date string followed by the time fields is that string followed by the time part. */
  lemma TimeStampSplit(d: string, hh: string, mi: string, ss: string, ms: string)
    ensures d + "T" + hh + ":" + mi + ":" + ss + "." + ms + "Z" ==
      d + ("T" + hh + ":" + mi + ":" + ss + "." + ms + "Z")
  {
    var t1 := "T" + hh;
    var t2 := t1 + ":";
    var t3 := t2 + mi;
    var t4 := t3 + ":";
    var t5 := t4 + ss;
    var t6 := t5 + ".";
    var t7 := t6 + ms;
    AppendAssoc(d, "T", hh);
    AppendAssoc(d, t1, ":");
    AppendAssoc(d, t2, mi);
    AppendAssoc(d, t3, ":");
    AppendAssoc(d, t4, ss);
    AppendAssoc(d, t5, ".");
    AppendAssoc(d, t6, ms);
    AppendAssoc(d, t7, "Z");
  }

  /** A concatenation splits back into its two parts. */
  lemma SplitAt(a: string, b: string)
    ensures (a + b)[..|a|] == a && (a + b)[|a|..] == b
  {
  }

  /**
   * s is a timestamp of t whose year takes n digits: the date string (n + 6 characters)
   * followed by the 14-character time part.
   */
  predicate TimeStampLayout(s: string, n: nat, t: DateTime)
  {
    |s| == n + 20 && DateLayout(s[..n + 6], n, t) && TimeLayout(s[n + 6..], t)
  }

  /** The date string followed by the time part is laid out as a timestamp. */
  lemma DateThenTimeLayout(t: DateTime)
    requires ValidDateTime(t)
    ensures var n := |NatToString(t.year)|; var s := DateToString(t) + TimePart(t);
      TimeStampLayout(s, n, t) && s[..n + 6] == DateToString(t)
  {
    TimePartLayout(t);
    SplitAt(DateToString(t), TimePart(t));
  }

  /** Two layouts of the same date string agree on the date. */
  lemma DateLayoutDetermines(d: string, n: nat, t: DateTime, u: DateTime)
    requires DateLayout(d, n, t) && DateLayout(d, n, u)
    ensures t.year == u.year && t.month == u.month && t.day == u.day
  {
  }

  /** Two layouts of the same time part agree on the time. */
  lemma TimeLayoutDetermines(x: string, t: DateTime, u: DateTime)
    requires TimeLayout(x, t) && TimeLayout(x, u)
    ensures t.hour == u.hour && t.minute == u.minute && t.second == u.second && t.millisecond == u.millisecond
  {
  }

  /** A string laid out as a timestamp determines the date and time it spells. */
  lemma TimeStampLayoutDetermines(s: string, n: nat, m: nat, t: DateTime, u: DateTime)
    requires TimeStampLayout(s, n, t) && TimeStampLayout(s, m, u)
    ensures t == u
  {
    DateLayoutDetermines(s[..n + 6], n, t, u);
    TimeLayoutDetermines(s[n + 6..], t, u);
  }

  /** Different dates and times never share a timestamp. */
  lemma TimeStampInjective(t: DateTime, u: DateTime)
    requires ValidDateTime(t) && ValidDateTime(u) && DateToTimeStamp(t) == DateToTimeStamp(u)
    ensures t == u
  {
    TimeStampLayoutDetermines(DateToTimeStamp(t), |NatToString(t.year)|, |NatToString(u.year)|, t, u);
  }
}
