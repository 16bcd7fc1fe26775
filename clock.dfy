/**
 * The clock screen's ticker: each tick reads the calendar and stores
 * two-digit hour (of 12), minute and second texts and an "AM"/"PM" label;
 * the digital clock shows "hour:minute amOrPm".
 */
module Clock {
  import opened Decimal
  import opened Format

  /** `java.util.Calendar.AM`, the value of the AM_PM field before noon. */
  const CalendarAM: int := 0
  /** `java.util.Calendar.PM`. */
  const CalendarPM: int := 1

  /** The calendar fields one tick reads: HOUR (of 12), MINUTE, SECOND and AM_PM. */
  datatype CalendarReading = CalendarReading(hour: int, minute: int, second: int, amPm: int)

  /** The ranges java.util.Calendar gives these fields. */
  predicate ValidReading(c: CalendarReading) {
    && 0 <= c.hour < 12
    && 0 <= c.minute < 60
    && 0 <= c.second < 60
    && (c.amPm == CalendarAM || c.amPm == CalendarPM)
  }

  /** The four texts the ticker publishes. */
  datatype TickSnapshot = TickSnapshot(hour: string, minute: string, second: string, amOrPm: string)

  /** The texts before the first tick: each is "0". */
  const InitialSnapshot: TickSnapshot := TickSnapshot("0", "0", "0", "0")

  /** The label of an AM_PM field value. */
  function MeridiemText(amPm: int): string {
    if amPm == CalendarAM then "AM" else "PM"
  }

  /** The texts one tick derives from a calendar reading. */
  function Derive(c: CalendarReading): TickSnapshot {
    TickSnapshot(PadTwo(c.hour), PadTwo(c.minute), PadTwo(c.second), MeridiemText(c.amPm))
  }

  /** `DigitalClockComponent`'s text; the seconds are not part of it. */
  function DisplayText(s: TickSnapshot): string {
    s.hour + ":" + s.minute + " " + s.amOrPm
  }

  // ---------------------------------------------------------------------
  // Properties of one tick

  /**
   * Each of the three numeric texts is exactly two digits and reads back as
   * the calendar field it came from.
   */
  lemma DeriveFixedWidth(c: CalendarReading)
    requires ValidReading(c)
    ensures var s := Derive(c);
      && |s.hour| == 2 && AllDigits(s.hour) && ParseDigits(s.hour) == c.hour
      && |s.minute| == 2 && AllDigits(s.minute) && ParseDigits(s.minute) == c.minute
      && |s.second| == 2 && AllDigits(s.second) && ParseDigits(s.second) == c.second
  {
    PadTwoTwoDigits(c.hour);
    PadTwoTwoDigits(c.minute);
    PadTwoTwoDigits(c.second);
    PadTwoReadsBack(c.hour);
    PadTwoReadsBack(c.minute);
    PadTwoReadsBack(c.second);
  }

  /** Hour-of-12 zero, at noon and at midnight, shows as "00". */
  lemma NoonAndMidnightShowZeroZero(c: CalendarReading)
    requires c.hour == 0
    ensures Derive(c).hour == "00"
  {
    assert IntToString(0) == "0";
  }

  /** The label is "AM" exactly when the field equals Calendar.AM, and "PM" otherwise. */
  lemma DeriveMeridiem(c: CalendarReading)
    ensures Derive(c).amOrPm == "AM" <==> c.amPm == CalendarAM
    ensures Derive(c).amOrPm == "PM" <==> c.amPm != CalendarAM
  {
    assert "AM"[0] != "PM"[0];
  }

  /**
   * For a valid reading the display is "hh:mm AM" or "hh:mm PM": eight
   * characters whose hour and minute read back as the calendar fields.
   */
  lemma DisplayLayout(c: CalendarReading)
    requires ValidReading(c)
    ensures var d := DisplayText(Derive(c));
      && |d| == 8
      && d[2] == ':' && d[5] == ' '
      && (d[6..] == "AM" <==> c.amPm == CalendarAM)
      && (d[6..] == "PM" <==> c.amPm == CalendarPM)
      && AllDigits(d[..2]) && ParseDigits(d[..2]) == c.hour
      && AllDigits(d[3..5]) && ParseDigits(d[3..5]) == c.minute
  {
    DeriveFixedWidth(c);
    DeriveMeridiem(c);
    var s := Derive(c);
    DisplayParts(s.hour, s.minute, s.amOrPm);
  }

  /** Cutting "hh:mm label" at its separators gives back its parts. */
  lemma DisplayParts(h: string, m: string, suffix: string)
    requires |h| == 2 && |m| == 2
    ensures var d := h + ":" + m + " " + suffix;
      && |d| == 5 + 1 + |suffix|
      && d[..2] == h && d[2] == ':' && d[3..5] == m && d[5] == ' ' && d[6..] == suffix
  {
    var d := h + ":" + m + " " + suffix;
    assert d[..2] == h;
    assert d[3..5] == m;
    assert d[6..] == suffix;
  }

  /** Two readings that differ only in the second give the same display. */
  lemma DisplayIgnoresSecond(c: CalendarReading, second: int)
    ensures DisplayText(Derive(c.(second := second))) == DisplayText(Derive(c))
  {
  }

  /** Before the first tick the display reads "0:0 0". */
  lemma InitialDisplay()
    ensures DisplayText(InitialSnapshot) == "0:0 0"
  {
  }

  /** What the clock shows once a tick has read `c`. */
  function Shown(c: CalendarReading): string {
    DisplayText(Derive(c))
  }

  /** `f` of each element of `xs`, built up one element at a time, in order. */
  function MapInOrder<A, B>(f: A -> B, xs: seq<A>): seq<B>
    decreases |xs|
  {
    if xs == [] then [] else MapInOrder(f, xs[..|xs| - 1]) + [f(xs[|xs| - 1])]
  }

  /** The `k`-th element of the map is `f` of the `k`-th element, and nothing is lost or added. */
  lemma {:induction false} MapInOrderAt<A, B>(f: A -> B, xs: seq<A>, k: int)
    requires 0 <= k < |xs|
    ensures |MapInOrder(f, xs)| == |xs|
    ensures MapInOrder(f, xs)[k] == f(xs[k])
    decreases |xs|
  {
    var init := xs[..|xs| - 1];
    if init != [] {
      MapInOrderAt(f, init, if k < |init| then k else 0);
      if k < |init| {
        assert init[k] == xs[k];
      }
    }
  }

  /** What the clock shows after each of a run of ticks, one text per reading. */
  function DisplayedTexts(readings: seq<CalendarReading>): seq<string> {
    MapInOrder(Shown, readings)
  }

  /** The texts after a run of ticks: those of the last reading, or `start` if there was none. */
  function SnapshotAfter(start: TickSnapshot, readings: seq<CalendarReading>): TickSnapshot {
    if readings == [] then start else Derive(readings[|readings| - 1])
  }

  /** One more tick adds the display of its reading at the end of the run's texts. */
  lemma DisplayedTextsSnoc(readings: seq<CalendarReading>, i: int)
    requires 0 <= i < |readings|
    ensures DisplayedTexts(readings[..i + 1]) == DisplayedTexts(readings[..i]) + [DisplayText(Derive(readings[i]))]
  {
    assert readings[..i + 1][..i] == readings[..i];
  }

  /** The `k`-th text of a run is the display of the `k`-th reading, in tick order. */
  lemma DisplayedTextsAt(readings: seq<CalendarReading>, k: int)
    requires 0 <= k < |readings|
    ensures |DisplayedTexts(readings)| == |readings|
    ensures DisplayedTexts(readings)[k] == DisplayText(Derive(readings[k]))
  {
    MapInOrderAt(Shown, readings, k);
  }

  // ---------------------------------------------------------------------
  // The screen's state

  /** The four state variables of `ClockScreen`, which every tick reassigns. */
  class ClockScreen {
    var hour: string
    var minute: string
    var second: string
    var amOrPm: string

    /** The current texts, as one value. */
    function Snapshot(): TickSnapshot
      reads this
    {
      TickSnapshot(hour, minute, second, amOrPm)
    }

    /** What the digital clock currently shows. */
    function ClockText(): string
      reads this
    {
      DisplayText(Snapshot())
    }

    /** Every text starts as "0". */
    constructor ()
      ensures Snapshot() == InitialSnapshot
    {
      hour, minute, second, amOrPm := "0", "0", "0", "0";
    }

    /** One pass of the ticker loop: read the calendar and reassign the four texts. */
    method Tick(c: CalendarReading)
      modifies this
      ensures Snapshot() == Derive(c)
    {
      var next := Derive(c);
      hour, minute, second, amOrPm := next.hour, next.minute, next.second, next.amOrPm;
    }

    /**
     * The first `|readings|` passes of the ticker loop, one reading per
     * pass; returns what the clock shows after each pass.
     */
    method RunTicks(readings: seq<CalendarReading>) returns (shown: seq<string>)
      modifies this
      ensures shown == DisplayedTexts(readings)
      ensures Snapshot() == SnapshotAfter(old(Snapshot()), readings)
    {
      ghost var start := Snapshot();
      shown := [];
      for i := 0 to |readings|
        invariant shown == DisplayedTexts(readings[..i])
        invariant Snapshot() == SnapshotAfter(start, readings[..i])
      {
        Tick(readings[i]);
        DisplayedTextsSnoc(readings, i);
        assert readings[..i + 1][i] == readings[i];
        shown := shown + [ClockText()];
      }
      assert readings[..|readings|] == readings;
    }
  }
}
