# Alarmini Compose: clock ticker and alarm screen

A Dafny model of the logic inside the Alarmini Compose demo's `MainActivity.kt`. The app has two screens:

- **Clock screen.** Once per second a ticker reads the calendar's hour-of-12, minute, second and AM/PM fields. It stores each number as a text of at least two characters, padded with a leading "0", together with an "AM"/"PM" label. The digital clock shows `hour:minute amOrPm`.
- **Alarm screen.** This screen holds a selected hour and minute, a flag saying whether the time picker is showing, and an append-only list of picked `(hour, minute)` pairs. Three events change it:
  - "Pick a Time" opens the picker, pre-filled with the current selection.
  - A pick selects the time, appends it to the list, hides the picker and announces "Alarm set for h:m" (unpadded).
  - A dismissal hides the picker.

  The screen shows the selection as `%02d:%02d`. It shows the alarms as one `%02d:%02d` row each, or "No alarms set." when there are none.

Modules, one per piece of the source:

- `Decimal` (decimal.dfy): Kotlin's `Int.toString()`, and the reading of a digit string back into a number.
- `Format` (format.dfy): the clock's pad-to-two rule and `java.util.Formatter`'s `%02d`. They are defined independently, and a lemma proves they agree on every integer. The module also holds the `%02d:%02d` time text, the toast text and the alarm list view.
- `Clock` (clock.dfy): the calendar reading, the tick derivation and the display text. `ClockScreen` is a class whose four text fields each tick reassigns. `RunTicks` models a finite run of the ticker loop.
- `Alarms` (alarms.dfy): `SetAlarmScreen` is a class with the four state variables and the event methods. Client methods play out the scenarios.

External inputs and outputs:

- The calendar read is a `CalendarReading` parameter.
- The time picker's result is the arguments of `TimePicked`.
- The toast is the string `TimePicked` returns.

## Model

| member | source | states |
|---|---|---|
| Decimal.NatToString | app/src/main/java/com/cmc/alarminicompose/ui/view/MainActivity.kt:53 | the decimal text of a natural number is all digits and at least one character long; it is one character long exactly when the number is below 10, and it starts with '0' only for 0 (no leading zero) |
| Decimal.IntToString | app/src/main/java/com/cmc/alarminicompose/ui/view/MainActivity.kt:53 | the text of an integer is non-empty and starts with '-' exactly when the number is negative; for n >= 0 it is all digits and reads back as n, and for n < 0 the part after the sign is all digits and reads back as -n; it is one character long exactly for 0..9, and no magnitude but 0 is written with a leading '0' |
| Decimal.ParseNatToString | app/src/main/java/com/cmc/alarminicompose/ui/view/MainActivity.kt:53 | reading the decimal text of n back as a number gives n |
| Decimal.ParseLeadingZero | app/src/main/java/com/cmc/alarminicompose/ui/view/MainActivity.kt:53 | a "0" put in front of a digit string does not change the number it denotes |
| Format.PadTwoTwoDigits | app/src/main/java/com/cmc/alarminicompose/ui/view/MainActivity.kt:52-60 | for n in 0..99 the padded text has length 2 and holds the tens and units digits of n; for 0..9 it is "0" followed by the digit, and for 10..99 it is the plain decimal text |
| Format.PadTwoReadsBack | app/src/main/java/com/cmc/alarminicompose/ui/view/MainActivity.kt:52-60 | for every n >= 0 the padded text is all digits and reads back as n |
| Format.PadTwoIsFormat02 | app/src/main/java/com/cmc/alarminicompose/ui/view/MainActivity.kt:52-60 | the clock's "prefix 0 when the text is one character" rule gives the same text as `%02d` for every integer, negative ones included |
| Format.TimeTextLayout | app/src/main/java/com/cmc/alarminicompose/ui/view/MainActivity.kt:193 | for hour and minute in 0..99, `%02d:%02d` is five characters with ':' in the middle; both halves are the padded texts and read back as hour and minute |
| Format.TimeTextInjective | app/src/main/java/com/cmc/alarminicompose/ui/view/MainActivity.kt:225 | for hour and minute in 0..99, two alarm rows are equal only for equal (hour, minute) pairs |
| Format.ToastTextReadsBack | app/src/main/java/com/cmc/alarminicompose/ui/view/MainActivity.kt:250 | the toast is "Alarm set for ", then the unpadded hour, ':' and the unpadded minute; both numbers read back from their slices |
| Format.ToastTextIsUnpadded | app/src/main/java/com/cmc/alarminicompose/ui/view/MainActivity.kt:250 | for one-digit values the toast carries one digit each and differs from the padded time text |
| Format.SixFortyFive | app/src/main/java/com/cmc/alarminicompose/ui/view/MainActivity.kt:249-250 | picking 6:45 announces "Alarm set for 6:45", and the list of that one alarm renders as the single row "06:45" |
| Format.RenderAlarmListShape | app/src/main/java/com/cmc/alarminicompose/ui/view/MainActivity.kt:205-215 | the list shows "No alarms set." exactly when there are no alarms; otherwise it shows one row per alarm, the i-th being the time text of the i-th alarm |
| Format.RenderAppend | app/src/main/java/com/cmc/alarminicompose/ui/view/MainActivity.kt:205-211 | appending an alarm keeps every earlier row and adds exactly that alarm's row at the end |
| Format.RenderRowsReadBack | app/src/main/java/com/cmc/alarminicompose/ui/view/MainActivity.kt:217-227 | when every alarm is a clock time, every row is five characters "hh:mm" that read back as its alarm |
| Clock.DeriveFixedWidth | app/src/main/java/com/cmc/alarminicompose/ui/view/MainActivity.kt:51-60 | for a valid calendar reading, hour, minute and second are each exactly two digits and read back as the calendar field |
| Clock.NoonAndMidnightShowZeroZero | app/src/main/java/com/cmc/alarminicompose/ui/view/MainActivity.kt:52-54 | hour-of-12 zero (noon and midnight) shows as "00" |
| Clock.DeriveMeridiem | app/src/main/java/com/cmc/alarminicompose/ui/view/MainActivity.kt:61-63 | the label is "AM" exactly when the AM_PM field equals Calendar.AM, and "PM" exactly when it does not |
| Clock.DisplayLayout | app/src/main/java/com/cmc/alarminicompose/ui/view/MainActivity.kt:128 | for a valid reading the clock text is "hh:mm AM" or "hh:mm PM": eight characters, AM exactly for Calendar.AM, with hour and minute reading back as the fields |
| Clock.DisplayIgnoresSecond | app/src/main/java/com/cmc/alarminicompose/ui/view/MainActivity.kt:123-128 | the clock text does not depend on the second |
| Clock.InitialDisplay | app/src/main/java/com/cmc/alarminicompose/ui/view/MainActivity.kt:44-47 | before the first tick the clock text is "0:0 0" |
| Clock.DisplayedTextsAt | app/src/main/java/com/cmc/alarminicompose/ui/view/MainActivity.kt:49-66 | a run of ticks yields one clock text per reading, and the k-th is the display of the k-th reading |
| Clock.ClockScreen.constructor | app/src/main/java/com/cmc/alarminicompose/ui/view/MainActivity.kt:44-47 | the four texts start as "0" |
| Clock.ClockScreen.Tick | app/src/main/java/com/cmc/alarminicompose/ui/view/MainActivity.kt:51-63 | one pass of the ticker sets the four texts to the derivation of the calendar reading |
| Clock.ClockScreen.RunTicks | app/src/main/java/com/cmc/alarminicompose/ui/view/MainActivity.kt:49-66 | a finite run of the ticker loop shows the display of each reading in turn; at the end the texts are those of the last reading, or unchanged if there was none |
| Alarms.SetAlarmScreen.constructor | app/src/main/java/com/cmc/alarminicompose/ui/view/MainActivity.kt:138-141 | the screen starts with selection 0:00, the picker hidden and no alarms |
| Alarms.SetAlarmScreen.Picker | app/src/main/java/com/cmc/alarminicompose/ui/view/MainActivity.kt:154-157 | the dialog composable is called exactly while the flag is set, on each composition, and it is pre-filled from the selected hour and minute |
| Alarms.SetAlarmScreen.OpenPicker | app/src/main/java/com/cmc/alarminicompose/ui/view/MainActivity.kt:169 | "Pick a Time" only sets the picker flag; the picker then starts from the unchanged selection |
| Alarms.SetAlarmScreen.TimePicked | app/src/main/java/com/cmc/alarminicompose/ui/view/MainActivity.kt:158-164 | a pick (h, m) sets the selection to (h, m), appends exactly (h, m) to the alarms, hides the picker and returns the toast "Alarm set for h:m"; the screen stays valid for clock times |
| Alarms.SetAlarmScreen.Dismiss | app/src/main/java/com/cmc/alarminicompose/ui/view/MainActivity.kt:165 | a dismissal only hides the picker; the selection and the alarms are unchanged |
| Alarms.SetAlarmScreen.SelectedTimeText | app/src/main/java/com/cmc/alarminicompose/ui/view/MainActivity.kt:192-195 | on a valid screen the selected-time text is five characters "hh:mm" that read back as the selection |
| Alarms.SetAlarmScreen.AlarmList | app/src/main/java/com/cmc/alarminicompose/ui/view/MainActivity.kt:172 | the screen shows the placeholder exactly when it has no alarms; it shows one row per alarm, and on a valid screen each row is "hh:mm" and reads back as its alarm |
| Alarms.SetAlarmScreen.CancelAsWritten | app/src/main/java/com/cmc/alarminicompose/ui/view/MainActivity.kt:230-247 | cancelling the platform dialog runs no callback, so the state is unchanged and the picker flag stays set |
| Alarms.CancelThenReopenAsWritten | app/src/main/java/com/cmc/alarminicompose/ui/view/MainActivity.kt:230-247 | as written: after open and cancel the picker flag is still set, and tapping "Pick a Time" again does not change the state |
| Alarms.CancelThenReopen | app/src/main/java/com/cmc/alarminicompose/ui/view/MainActivity.kt:154-169 | corrected: a cancel hides the picker, a later "Pick a Time" shows it again, and no alarm is added |
| Alarms.PickTwiceThenSixFortyFive | app/src/main/java/com/cmc/alarminicompose/ui/view/MainActivity.kt:158-163 | picking 7:30 twice keeps both identical entries; picking 6:45 on a fresh screen returns "Alarm set for 6:45" and lists exactly "06:45" |

## Left out

- Compose rendering is not modelled: layout, `Scaffold`, `Card`, `LazyColumn`, themes, sizes, `HeaderComponent`, `NavigationBarComponent` and the static "Morocco, Rabat" label. It is presentation only.
- Navigation (`NavHost`, `NavController`, the "clock" and "set_alarm" destinations) is not modelled. It is framework back-stack behaviour.
- `Calendar.getInstance()` is replaced by the `CalendarReading` parameter. The model does not read the system clock.
- The `LaunchedEffect` coroutine, `delay(1000)` and the cancellation of the loop are not modelled. They are scheduling concerns. `RunTicks` models a finite run of loop passes, one reading each.
- The platform `TimePickerDialog` widget and the `Toast` display are not modelled; they are opaque platform widgets. The dialog's confirmation is the call to `TimePicked`. Its cancellation is `CancelAsWritten` (as coded) or `Dismiss` (as intended). The toast is the returned string.
- The composable calls `.show()` during composition, so each recomposition while the flag is set would open another dialog. The model has no notion of recomposition.
- Format.ZeroPadded: assumes ASCII digits. `String.format` uses the default locale, which may use other digit characters.
- Kotlin's 32-bit `Int` is modelled as an unbounded `int`. The values involved are below 100, so no wrap-around can occur.
- Alarms.SetAlarmScreen.TimePicked: does not require the picked time to be a clock time, because the source does not check it. Validity of the screen is proved only when the 24-hour picker delivers 0..23 and 0..59.

## Findings

| source | as written | input that shows it | evidently intended | confidence | as-written member | corrected member |
|---|---|---|---|---|---|---|
| app/src/main/java/com/cmc/alarminicompose/ui/view/MainActivity.kt:230-247 | `TimePickerDialog` receives `onDismiss` but never passes it to the Android dialog. So the callback at line 165 never runs, and a cancelled dialog leaves `showTimePicker` set. | Tap "Pick a Time", cancel the dialog, tap "Pick a Time" again. The first tap sets the flag. The cancel runs no callback, so the flag stays set. The second tap writes `true` over `true`, which changes no state and so triggers no recomposition. | A cancel runs `onDismiss` and clears the flag, so the next tap shows the picker again. | medium; not executed | Alarms.CancelThenReopenAsWritten | Alarms.CancelThenReopen |
