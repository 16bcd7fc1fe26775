/**
 * The text formatters of the alarm demo: the clock's pad-to-two-digits rule,
 * `String.format("%02d:%02d", …)` for the selected time and the alarm rows,
 * the unpadded toast message and the alarm list with its empty placeholder.
 */
module Format {
  import opened Decimal

  /**
   * The clock's padding rule: the `toString()` of the value, with a "0" in
   * front when that text is one character long.
   */
  function PadTwo(n: int): string {
    var t := IntToString(n);
    if |t| == 1 then "0" + t else t
  }

  /** `k` zero characters. */
  function Zeros(k: nat): (s: string)
    ensures |s| == k
    ensures forall i :: 0 <= i < k ==> s[i] == '0'
  {
    seq(k, _ => '0')
  }

  /**
   * java.util.Formatter's `%0<width>d`: the sign, then as many zeros as
   * bring the text up to `width` characters, then the digits.
   */
  function ZeroPadded(n: int, width: nat): string {
    var sign := if n < 0 then "-" else "";
    var digits := NatToString(if n < 0 then -n else n);
    var fill := if |sign| + |digits| < width then width - |sign| - |digits| else 0;
    sign + Zeros(fill) + digits
  }

  /** `String.format("%02d:%02d", hour, minute)`. */
  function TimeText(hour: int, minute: int): string {
    ZeroPadded(hour, 2) + ":" + ZeroPadded(minute, 2)
  }

  const ToastPrefix: string := "Alarm set for "

  /** The toast of `setAlarm`: the string template `"Alarm set for $hour:$minute"`. */
  function ToastText(hour: int, minute: int): string {
    ToastPrefix + IntToString(hour) + ":" + IntToString(minute)
  }

  const NoAlarmsText: string := "No alarms set."

  /** What `AlarmList` shows: a placeholder text, or one row per alarm. */
  datatype AlarmListView = NoAlarms(text: string) | AlarmRows(rows: seq<string>)

  /** `AlarmList`: the placeholder when empty, else `AlarmItem`'s text for each index. */
  function RenderAlarmList(alarms: seq<(int, int)>): AlarmListView {
    if |alarms| == 0 then NoAlarms(NoAlarmsText)
    else AlarmRows(seq(|alarms|, i requires 0 <= i < |alarms| => TimeText(alarms[i].0, alarms[i].1)))
  }

  /** An hour 0..23 and a minute 0..59, as the 24-hour time picker delivers them. */
  predicate IsClockTime(hour: int, minute: int) {
    0 <= hour < 24 && 0 <= minute < 60
  }

  // ---------------------------------------------------------------------
  // Padding

  /** The clock's padding rule and `%02d` agree on every integer. */
  lemma PadTwoIsFormat02(n: int)
    ensures PadTwo(n) == ZeroPadded(n, 2)
  {
    if n >= 0 && n < 10 {
      assert Zeros(1) == "0";
    } else {
      assert Zeros(0) == "";
    }
  }

  /**
   * For 0..99 the padded text is exactly two digits: "0" and the digit for
   * 0..9, the plain decimal text for 10..99.
   */
  lemma PadTwoTwoDigits(n: int)
    requires 0 <= n < 100
    ensures var s := PadTwo(n);
      && |s| == 2
      && s[0] == DigitChar(n / 10) && s[1] == DigitChar(n % 10)
      && (n < 10 ==> s == "0" + IntToString(n))
      && (10 <= n ==> s == IntToString(n))
  {
    NatToStringBelowHundred(n);
  }

  /** Reading the padded text of any non-negative value back gives the value. */
  lemma PadTwoReadsBack(n: int)
    requires 0 <= n
    ensures AllDigits(PadTwo(n))
    ensures ParseDigits(PadTwo(n)) == n
  {
    ParseNatToString(n);
    if n < 10 {
      ParseLeadingZero(NatToString(n));
    }
  }

  // ---------------------------------------------------------------------
  // "%02d:%02d"

  /** Cutting `a + [c] + b` at the separator gives back its three parts. */
  lemma SplitAtSeparator(a: string, c: char, b: string)
    ensures var t := a + [c] + b;
      && |t| == |a| + 1 + |b|
      && t[..|a|] == a && t[|a|] == c && t[|a| + 1..] == b
  {
    var t := a + [c] + b;
    assert t[..|a|] == a;
    assert t[|a| + 1..] == b;
  }

  /** For two-digit values the time text is "hh:mm", and reading both halves back gives the values. */
  lemma {:induction false} TimeTextLayout(hour: int, minute: int)
    requires 0 <= hour < 100 && 0 <= minute < 100
    ensures var t := TimeText(hour, minute);
      && |t| == 5
      && t[2] == ':'
      && t[..2] == PadTwo(hour) && t[3..] == PadTwo(minute)
      && AllDigits(t[..2]) && ParseDigits(t[..2]) == hour
      && AllDigits(t[3..]) && ParseDigits(t[3..]) == minute
  {
    TwoDigitHalf(hour);
    TwoDigitHalf(minute);
    SplitAtSeparator(PadTwo(hour), ':', PadTwo(minute));
  }

  /** `%02d` of a two-digit value is its padded text: two digits that read back as the value. */
  lemma TwoDigitHalf(n: int)
    requires 0 <= n < 100
    ensures ZeroPadded(n, 2) == PadTwo(n)
    ensures |PadTwo(n)| == 2 && AllDigits(PadTwo(n)) && ParseDigits(PadTwo(n)) == n
  {
    PadTwoIsFormat02(n);
    PadTwoTwoDigits(n);
    PadTwoReadsBack(n);
  }

  /** Distinct clock times give distinct time texts. */
  lemma TimeTextInjective(h1: int, m1: int, h2: int, m2: int)
    requires 0 <= h1 < 100 && 0 <= m1 < 100 && 0 <= h2 < 100 && 0 <= m2 < 100
    requires TimeText(h1, m1) == TimeText(h2, m2)
    ensures h1 == h2 && m1 == m2
  {
    TimeTextLayout(h1, m1);
    TimeTextLayout(h2, m2);
  }

  // ---------------------------------------------------------------------
  // The toast

  /**
   * The toast is the prefix, the unpadded hour, ':' and the unpadded minute;
   * both numbers read back from it.
   */
  lemma ToastTextReadsBack(hour: int, minute: int)
    requires 0 <= hour && 0 <= minute
    ensures var t := ToastText(hour, minute);
      var k := |NatToString(hour)|;
      && |t| == |ToastPrefix| + k + 1 + |NatToString(minute)|
      && t[..|ToastPrefix|] == ToastPrefix
      && t[|ToastPrefix| + k] == ':'
      && AllDigits(t[|ToastPrefix|..|ToastPrefix| + k])
      && ParseDigits(t[|ToastPrefix|..|ToastPrefix| + k]) == hour
      && AllDigits(t[|ToastPrefix| + k + 1..])
      && ParseDigits(t[|ToastPrefix| + k + 1..]) == minute
  {
    var h := NatToString(hour);
    var m := NatToString(minute);
    ParseNatToString(hour);
    ParseNatToString(minute);
    PrefixedPairSplit(ToastPrefix, h, m);
  }

  /** Cutting `p + a + ":" + b` after the prefix and at the separator gives back `a` and `b`. */
  lemma PrefixedPairSplit(p: string, a: string, b: string)
    ensures var t := p + a + ":" + b;
      && |t| == |p| + |a| + 1 + |b|
      && t[..|p|] == p && t[|p| + |a|] == ':'
      && t[|p|..|p| + |a|] == a && t[|p| + |a| + 1..] == b
  {
    var t := p + a + ":" + b;
    assert t[..|p|] == p;
    assert t[|p|..|p| + |a|] == a;
    assert t[|p| + |a| + 1..] == b;
  }

  /** Unlike the time text, the toast does not pad: a one-digit value stays one digit. */
  lemma ToastTextIsUnpadded(hour: int, minute: int)
    requires 0 <= hour < 10 && 0 <= minute < 10
    ensures ToastText(hour, minute) == ToastPrefix + [DigitChar(hour), ':', DigitChar(minute)]
    ensures ToastText(hour, minute) != ToastPrefix + TimeText(hour, minute)
  {
    TimeTextLayout(hour, minute);
  }

  /** Picking 6:45 announces "Alarm set for 6:45" and lists "06:45". */
  lemma SixFortyFive()
    ensures ToastText(6, 45) == "Alarm set for 6:45"
    ensures RenderAlarmList([(6, 45)]) == AlarmRows(["06:45"])
  {
    NatToStringBelowHundred(45);
    assert IntToString(45) == "45";
    assert ToastText(6, 45) == "Alarm set for " + "6" + ":" + "45";
    PadTwoIsFormat02(6);
    PadTwoIsFormat02(45);
    assert TimeText(6, 45) == "06" + ":" + "45" == "06:45";
    var rows := Rows(RenderAlarmList([(6, 45)]));
    assert |rows| == 1 && rows[0] == TimeText(6, 45);
    assert rows == ["06:45"];
  }

  // ---------------------------------------------------------------------
  // The alarm list

  /**
   * The list shows the placeholder exactly when there are no alarms, and
   * otherwise one row per alarm, in insertion order.
   */
  lemma RenderAlarmListShape(alarms: seq<(int, int)>)
    ensures RenderAlarmList(alarms).NoAlarms? <==> alarms == []
    ensures RenderAlarmList(alarms).NoAlarms? ==> RenderAlarmList(alarms).text == "No alarms set."
    ensures RenderAlarmList(alarms).AlarmRows? ==>
      && |RenderAlarmList(alarms).rows| == |alarms|
      && forall i :: 0 <= i < |alarms| ==> RenderAlarmList(alarms).rows[i] == TimeText(alarms[i].0, alarms[i].1)
  {
  }

  /** The rows shown for a list of alarms (none for the empty list). */
  function Rows(v: AlarmListView): seq<string> {
    match v
    case NoAlarms(_) => []
    case AlarmRows(rows) => rows
  }

  /** Appending an alarm keeps every earlier row and adds exactly its own row at the end. */
  lemma RenderAppend(alarms: seq<(int, int)>, hour: int, minute: int)
    ensures RenderAlarmList(alarms + [(hour, minute)]).AlarmRows?
    ensures Rows(RenderAlarmList(alarms + [(hour, minute)])) == Rows(RenderAlarmList(alarms)) + [TimeText(hour, minute)]
  {
    var after := Rows(RenderAlarmList(alarms + [(hour, minute)]));
    var before := Rows(RenderAlarmList(alarms));
    assert |after| == |before| + 1;
    forall i | 0 <= i < |after| ensures after[i] == (before + [TimeText(hour, minute)])[i] {
      if i < |alarms| {
        assert (alarms + [(hour, minute)])[i] == alarms[i];
      }
    }
  }

  /**
   * When every alarm is a clock time, every row is five characters "hh:mm"
   * and reads back to its alarm.
   */
  lemma RenderRowsReadBack(alarms: seq<(int, int)>)
    requires forall i :: 0 <= i < |alarms| ==> IsClockTime(alarms[i].0, alarms[i].1)
    ensures forall i :: 0 <= i < |Rows(RenderAlarmList(alarms))| ==>
      var row := Rows(RenderAlarmList(alarms))[i];
      && |row| == 5 && row[2] == ':'
      && AllDigits(row[..2]) && ParseDigits(row[..2]) == alarms[i].0
      && AllDigits(row[3..]) && ParseDigits(row[3..]) == alarms[i].1
  {
    var rows := Rows(RenderAlarmList(alarms));
    forall i | 0 <= i < |rows|
      ensures var row := rows[i];
        && |row| == 5 && row[2] == ':'
        && AllDigits(row[..2]) && ParseDigits(row[..2]) == alarms[i].0
        && AllDigits(row[3..]) && ParseDigits(row[3..]) == alarms[i].1
    {
      TimeTextLayout(alarms[i].0, alarms[i].1);
    }
  }
}
