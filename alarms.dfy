/**
 * The alarm-setting screen: the selected hour and minute, whether the time
 * picker is showing, and the append-only list of picked alarms, with the
 * three events that change them.
 */
module Alarms {
  import opened Decimal
  import opened Format

  /** Whether the dialog composable is called, and the time it is pre-filled with. */
  datatype PickerView = Hidden | Shown(initialHour: int, initialMinute: int)

  /** The state variables of `SetAlarmScreen`. */
  class SetAlarmScreen {
    var hour: int
    var minute: int
    var showTimePicker: bool
    var alarms: seq<(int, int)>

    /** The selection and every alarm are clock times (0..23, 0..59). */
    predicate Valid()
      reads this
    {
      && IsClockTime(hour, minute)
      && forall i :: 0 <= i < |alarms| ==> IsClockTime(alarms[i].0, alarms[i].1)
    }

    /**
     * The dialog branch: taken exactly while the flag is set, on each
     * composition, pre-filled with the current selection.
     */
    function Picker(): (p: PickerView)
      reads this
      ensures p.Shown? <==> showTimePicker
      ensures p.Shown? ==> p.initialHour == hour && p.initialMinute == minute
    {
      if showTimePicker then Shown(hour, minute) else Hidden
    }

    /**
     * `AlarmTimeSelector`'s text, "%02d:%02d" of the selection: five
     * characters that read back as the selection.
     */
    function SelectedTimeText(): (t: string)
      reads this
      ensures Valid() ==> |t| == 5 && t[2] == ':'
      ensures Valid() ==> AllDigits(t[..2]) && ParseDigits(t[..2]) == hour
      ensures Valid() ==> AllDigits(t[3..]) && ParseDigits(t[3..]) == minute
    {
      if Valid() then
        TimeTextLayout(hour, minute);
        TimeText(hour, minute)
      else
        TimeText(hour, minute)
    }

    /** `AlarmList(alarms)`: the placeholder, or one "hh:mm" row per alarm in order. */
    function AlarmList(): (v: AlarmListView)
      reads this
      ensures v.NoAlarms? <==> alarms == []
      ensures v.NoAlarms? ==> v.text == NoAlarmsText
      ensures |Rows(v)| == |alarms|
      ensures Valid() ==> forall i :: 0 <= i < |Rows(v)| ==>
        && |Rows(v)[i]| == 5 && Rows(v)[i][2] == ':'
        && AllDigits(Rows(v)[i][..2]) && ParseDigits(Rows(v)[i][..2]) == alarms[i].0
        && AllDigits(Rows(v)[i][3..]) && ParseDigits(Rows(v)[i][3..]) == alarms[i].1
    {
      RenderAlarmListShape(alarms);
      if Valid() then
        RenderRowsReadBack(alarms);
        RenderAlarmList(alarms)
      else
        RenderAlarmList(alarms)
    }

    /** Selection 0:00, picker hidden, no alarms. */
    constructor ()
      ensures hour == 0 && minute == 0 && !showTimePicker && alarms == []
      ensures Valid() && Picker() == Hidden
    {
      hour, minute, showTimePicker, alarms := 0, 0, false, [];
    }

    /** "Pick a Time": only shows the picker, pre-filled with the current selection. */
    method OpenPicker()
      modifies this
      ensures showTimePicker
      ensures hour == old(hour) && minute == old(minute) && alarms == old(alarms)
      ensures Picker() == Shown(old(hour), old(minute))
      ensures old(Valid()) ==> Valid()
    {
      showTimePicker := true;
    }

    /**
     * The picker's `onTimePicked(h, m)`: selects `(h, m)`, appends it to
     * the alarms (duplicates kept), hides the picker and returns the toast.
     */
    method TimePicked(h: int, m: int) returns (toast: string)
      modifies this
      ensures hour == h && minute == m
      ensures alarms == old(alarms) + [(h, m)]
      ensures !showTimePicker
      ensures toast == ToastText(h, m)
      ensures old(Valid()) && IsClockTime(h, m) ==> Valid()
    {
      hour := h;
      minute := m;
      alarms := alarms + [(h, m)];
      showTimePicker := false;
      toast := ToastText(h, m);
    }

    /** The picker's `onDismiss`: only hides the picker. */
    method Dismiss()
      modifies this
      ensures !showTimePicker
      ensures hour == old(hour) && minute == old(minute) && alarms == old(alarms)
      ensures old(Valid()) ==> Valid()
    {
      showTimePicker := false;
    }

    /**
     * A cancelled platform dialog as the code stands: `onDismiss` is never
     * handed to the dialog, so no callback runs and nothing changes.
     */
    method CancelAsWritten()
      ensures showTimePicker == old(showTimePicker)
      ensures hour == old(hour) && minute == old(minute) && alarms == old(alarms)
    {
    }
  }

  /**
   * As written: open the picker, cancel the dialog, tap "Pick a Time" again.
   * The picker flag is still set after the cancel, so the second tap writes
   * the value the flag already has.
   */
  method CancelThenReopenAsWritten() returns (shownAfterCancel: bool, reopenChangesState: bool)
    ensures shownAfterCancel
    ensures !reopenChangesState
  {
    var screen := new SetAlarmScreen();
    screen.OpenPicker();
    screen.CancelAsWritten();
    shownAfterCancel := screen.showTimePicker;
    var before := screen.showTimePicker;
    screen.OpenPicker();
    reopenChangesState := screen.showTimePicker != before;
  }

  /**
   * Corrected: the cancel runs `onDismiss`, which hides the picker, and the
   * second tap shows it again; the selection and the alarms are untouched.
   */
  method CancelThenReopen() returns (shownAfterCancel: bool, reopenChangesState: bool, alarmsAfter: seq<(int, int)>)
    ensures !shownAfterCancel
    ensures reopenChangesState
    ensures alarmsAfter == []
  {
    var screen := new SetAlarmScreen();
    screen.OpenPicker();
    screen.Dismiss();
    shownAfterCancel := screen.showTimePicker;
    var before := screen.showTimePicker;
    screen.OpenPicker();
    reopenChangesState := screen.showTimePicker != before;
    alarmsAfter := screen.alarms;
  }

  /**
   * Picking 7:30 twice from a fresh screen keeps both entries; picking 6:45
   * announces "Alarm set for 6:45" and lists "06:45".
   */
  method PickTwiceThenSixFortyFive() returns (twice: seq<(int, int)>, toast: string, rows: AlarmListView)
    ensures twice == [(7, 30), (7, 30)]
    ensures toast == "Alarm set for 6:45"
    ensures rows == AlarmRows(["06:45"])
  {
    var first := new SetAlarmScreen();
    first.OpenPicker();
    var _ := first.TimePicked(7, 30);
    first.OpenPicker();
    var _ := first.TimePicked(7, 30);
    twice := first.alarms;

    var second := new SetAlarmScreen();
    second.OpenPicker();
    toast := second.TimePicked(6, 45);
    SixFortyFive();
    rows := second.AlarmList();
  }
}
