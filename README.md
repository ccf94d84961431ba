# Selfitch clock-in countdown, modelled in Dafny

Selfitch's home screen (`app/index.tsx`) is a work-session timer. The user types a
number of minutes, or taps one of the suggestions (25, 60 or 90). "Fichar" then starts
a countdown that shows the time left as `MM:SS`. While the countdown is on, it can be
paused, resumed or stopped. An alert tells the user when the session has finished or
has been cancelled.

The project models that screen in five modules:

- `Wrappers` holds the optional value that the model uses for "parses to a number or not".
- `Digits` covers the character work:
  - the digit filter of `handleTiempoChange`;
  - the decimal value of a digit string, which is what `parseInt` computes on the only strings it is given here;
  - `Number.prototype.toString` for whole numbers;
  - `padStart(2, "0")`.
- `Clock` holds `minutosASegundos` and `formatearTiempo`, together with a parser for the display. The parser states what the display means: the two fields read back give the seconds.
- `Countdown` treats the screen as a state machine over its three state variables: the minutes text, the seconds left, and whether it is counting.
  - Each handler of the screen becomes a step function.
  - The rendering rules decide which handlers a user can reach: the editable text field, the start button shown only when nothing is left, and the pause/resume and stop buttons otherwise. These rules are a second layer, `React`.
  - `Replay` runs any sequence of taps, keystrokes and elapsed seconds. It counts the sessions started, completed and cancelled.
  - The central theorem is a conservation law: every session that begins ends exactly once, through either its completion alert or its cancellation alert, or it is still on the clock.
- `HomeScreen.Timer` is the component as an object. Its fields are updated in place by its methods, and ghost counters record the sessions begun and the alerts shown.
  - Each method is proved to perform the corresponding `Countdown` step.
  - Each method keeps the conservation law as the class invariant `Valid`.

Three things the code does that the model keeps as they are:

- The code has no separate "finished" state. A countdown that reached 0 and one that was stopped are the same state ("Detenido"), so both show the start button again.
- `detenerTemporizador` always raises the cancellation alert. The stop button is rendered only while time is left (`app/index.tsx:163`), so in the event model every stop cancels a session.
- `togglePausa` and `iniciarTemporizador` have no guards of their own. They can be reached only through buttons rendered under the condition at `app/index.tsx:163`. The model therefore states that condition as the precondition of `Timer.TogglePause`, `Timer.Stop` and `Timer.Start`. `Countdown.React` checks the same condition before acting.

## Model

| member | source | states |
|---|---|---|
| Digits.Filter | app/index.tsx:102-106 | the filtered text consists only of digits, is no longer than the typed text, and is the typed text itself when that was already all digits |
| Digits.FilterConcat | app/index.tsx:104 | filtering two texts one after the other is filtering their concatenation, so the digits keep their original order |
| Digits.FilterCount | app/index.tsx:104 | each digit appears in the result as often as in the input, and no other character appears |
| Digits.FilterIdempotent | app/index.tsx:104 | filtering an already filtered text gives it back unchanged |
| Digits.DigitChar | app/index.tsx:29-31 | the digit character for 0..9 is a digit with that value |
| Digits.DecimalValue | app/index.tsx:68 | the value `parseInt` gives a digit string: below 10 to the power of its length; its meaning is pinned down by LeadingZeros, ValueZeroIffAllZeros and ToDecimal |
| Digits.ParseDigits | app/index.tsx:68-70 | the empty text gives no number (NaN), and a text gives 0 exactly when it is non-empty and all zeros; otherwise the number is the text's decimal value |
| Digits.ValueZeroIffAllZeros | app/index.tsx:68-70 | a digit string has value 0 exactly when every character is '0' ("", "0", "00", ...) |
| Digits.LeadingZeros | app/index.tsx:29-31 | leading zeros do not change the value of a digit string |
| Digits.ToDecimal | app/index.tsx:29-30 | `toString` of a whole number gives digits whose value is that number, with no leading zero unless the number is 0 |
| Digits.ToDecimalLength | app/index.tsx:29-30 | the decimal spelling has at most k digits exactly when the number is below 10^k |
| Digits.SpellingExamples | app/index.tsx:29-30 | 0, 1, 25, 59 and 480 are spelled "0", "1", "25", "59" and "480" |
| Digits.PadStart2 | app/index.tsx:29-31 | `padStart(2, "0")` keeps the text at its end, puts only zeros before it, and yields length 2 or the original length if that is longer |
| Digits.PadKeepsValue | app/index.tsx:29-31 | padding a digit string keeps it a digit string with the same value |
| Digits.PaddedDecimal | app/index.tsx:29-31 | a padded field has digits whose value is the number; it has exactly 2 digits for numbers below 100 and 3 for numbers from 100 to 999 |
| Digits.PaddedZero | app/index.tsx:29-31 | 0 is padded to "00" |
| Digits.PaddedOne | app/index.tsx:29-31 | 1 is padded to "01" |
| Digits.PaddedMaximum | app/index.tsx:29-31 | 480 stays "480" |
| Clock.MinutesToSeconds | app/index.tsx:23 | m minutes are a whole number of minutes of seconds, m of them; at most 480 minutes give at most 28800 seconds, and at least one minute gives at least 60 |
| Clock.Format | app/index.tsx:26-32 | `formatearTiempo`; specified by FormatFields, FormatRoundTrip, FormatInjective and MinutesFieldWidth |
| Clock.FormatFields | app/index.tsx:26-32 | the display is a minutes field of at least two digits whose value is s div 60, a colon, and a seconds field of exactly two digits whose value is s mod 60, in 00..59 |
| Clock.FormatRoundTrip | app/index.tsx:26-32 | reading the two fields of the display back gives the number of seconds displayed |
| Clock.FormatInjective | app/index.tsx:26-32 | two different numbers of seconds are never displayed the same way |
| Clock.MinutesFieldWidth | app/index.tsx:26-32 | the minutes field has two digits below 100 minutes and three from 100 minutes up, so every time up to 28800 s takes 5 or 6 characters |
| Clock.FormatIdle | app/index.tsx:26-32 | 0 seconds are shown as "00:00" |
| Clock.FormatOneMinute | app/index.tsx:26-32 | 60 seconds are shown as "01:00" |
| Clock.FormatMaximum | app/index.tsx:26-32 | 28800 seconds are shown as "480:00" |
| Countdown.ChangeInput | app/index.tsx:102-106 | typing sets the text to the filtered digits and changes neither the seconds left nor the running flag |
| Countdown.SuggestedText | app/index.tsx:215-235 | each suggestion writes a digit text that starting accepts (1 to 480 minutes) |
| Countdown.SuggestStep | app/index.tsx:215-235 | a suggestion changes nothing while the countdown runs; otherwise it replaces only the text |
| Countdown.StartStep | app/index.tsx:67-84 | an empty text or a value of 0 is rejected as invalid, a value over 480 as over the maximum, both leaving the state unchanged; otherwise the countdown runs from the minutes in seconds; the text never changes |
| Countdown.StartRejectsZeros | app/index.tsx:68-73 | a text of zeros only never starts a countdown and leaves the state as it was |
| Countdown.StartTypedMinutes | app/index.tsx:68-83 | typing m for m in 1..480 starts a running countdown of m*60 seconds, at most 28800 |
| Countdown.TickStep | app/index.tsx:37-50 | a tick takes exactly one second off; it completes, and stops the countdown, exactly when that was the last second; the text is unchanged |
| Countdown.TogglePauseStep | app/index.tsx:87-89 | pausing or resuming flips the running flag and changes nothing else |
| Countdown.TogglePauseTwice | app/index.tsx:87-89 | toggling twice gives back the same state, so a pause keeps the seconds left |
| Countdown.StopStep | app/index.tsx:92-94 | from any state, stopping leaves the countdown stopped with nothing left and the text untouched |
| Countdown.StopIdempotent | app/index.tsx:92-94 | stopping twice is the same as stopping once |
| Countdown.State | app/index.tsx:17-19 | the three state variables `tiempoMinutos`, `tiempoRestante` and `estaContando` |
| Countdown.Consistent | app/index.tsx:17-19 | what every reachable state satisfies (only digits in the text, at most 28800 s left, running only with time left); kept by every step, by React and by Replay |
| Countdown.TickEnabled | app/index.tsx:36 | the interval guard: running with time left; specified through TickStep and OnSecond |
| Countdown.StatusOf | app/index.tsx:153-157 | the choice of status line; specified by StatusLine and ControlsMatchStatus |
| Countdown.StatusLabel | app/index.tsx:153-157 | the three status texts; specified by StatusLine and StatusLabelsDistinct |
| Countdown.ControlsOf | app/index.tsx:163-191 | the button row; specified by ControlsMatchStatus and used by OnPressStart, OnPressToggle and OnPressStop |
| Countdown.StatusLine | app/index.tsx:153-157 | the status reads "Trabajando..." exactly while running, "Pausado" exactly while stopped with time left, "Detenido" exactly when stopped with nothing left |
| Countdown.StatusLabelsDistinct | app/index.tsx:153-157 | the three status lines are different texts |
| Countdown.ControlsMatchStatus | app/index.tsx:153-191 | in every consistent state the start button is offered exactly when the status is "Detenido", "Pausar" exactly when "Trabajando", "Reanudar" exactly when "Pausado" |
| Countdown.OnTyped | app/index.tsx:102-106 | typing has no effect while the countdown runs (the field is not editable), and otherwise sets the filtered text; it opens and closes no session |
| Countdown.OnPressStart | app/index.tsx:67-84 | with nothing left a press performs the start step, signalling a started session exactly when it started and a rejection otherwise; with time left (no start button) it does nothing; a started countdown is one the interval ticks |
| Countdown.OnPressToggle | app/index.tsx:87-89 | with time left the toggle button performs the pause step; with nothing left (no toggle button) it does nothing; it never signals anything |
| Countdown.OnPressStop | app/index.tsx:92-98 | with time left a press performs the stop step, keeping the text, and raises the cancellation alert; with nothing left (no stop button) it does nothing |
| Countdown.OnSecond | app/index.tsx:35-57 | a second changes nothing unless the countdown runs with time left, and the completion alert is raised exactly on the second that takes a running countdown from 1 to 0 |
| Countdown.OnSecondRunning | app/index.tsx:37-50 | a second of a running countdown is exactly a tick, signalling completion exactly when it was the last second |
| Countdown.React | app/index.tsx:67-106 | every event keeps the state consistent and opens as many sessions as it closes or leaves open |
| Countdown.Replay | app/index.tsx:35-106 | any sequence of events keeps the state consistent |
| Countdown.ReplayConcat | app/index.tsx:35-106 | replaying two sequences one after the other is replaying their concatenation, with the counts added |
| Countdown.EverySessionEndsOnce | app/index.tsx:36-98 | over any sequence of events, completions plus cancellations plus the session still open equal the sessions started plus the one open at the beginning; without a new start at most one session ends |
| Countdown.ReplaySecond | app/index.tsx:36-51 | replaying n seconds is the first second followed by the other n-1 |
| Countdown.IdleSecondsChangeNothing | app/index.tsx:36-57 | while paused or stopped, any number of seconds changes nothing and signals nothing |
| Countdown.CountdownWhileRunning | app/index.tsx:36-50 | after n seconds a running countdown has lost exactly min(n, remaining) seconds, never below 0, runs exactly while n < remaining, and has completed exactly once when it reaches 0 |
| Countdown.TypeOnFreshScreen | app/index.tsx:102-106 | typing digits on the fresh screen puts them in the text field and changes nothing else |
| Countdown.PressStartWithMinutes | app/index.tsx:67-84 | starting with 1..480 minutes typed and nothing left opens one session of that many minutes in seconds |
| Countdown.TypedSession | app/index.tsx:36-106 | type m minutes, start and let n seconds pass: m*60-n seconds remain while n < m*60, after which the countdown is stopped at 0 having completed exactly once |
| Countdown.PauseElapseResume | app/index.tsx:36-89 | pausing, letting any number of seconds pass and resuming gives back the same running state with nothing signalled |
| Countdown.OneMinuteSession | app/index.tsx:36-106 | typing "1", starting and letting 60 seconds pass ends stopped at 0 after exactly one completion |
| Countdown.PomodoroPauseResume | app/index.tsx:36-235 | "25" gives 1500 s; one second later 1499 remain, and a pause of any length keeps 1499 until resumed |
| HomeScreen.Timer.constructor | app/index.tsx:17-19 | the screen starts with no text, nothing left and not counting, with no session begun or alert shown |
| HomeScreen.Timer.ChangeText | app/index.tsx:102-106 | the text field takes the digits typed, as the typing step says, and the invariant is kept |
| HomeScreen.Timer.ChooseSuggestion | app/index.tsx:215-235 | a suggestion button performs the suggestion step and keeps the invariant |
| HomeScreen.Timer.Start | app/index.tsx:67-84 | starting performs the start step, reports which alert (if any) it raised, counts a session exactly when one started, and keeps the invariant |
| HomeScreen.Timer.Tick | app/index.tsx:37-50 | a tick performs the tick step, shows the completion alert exactly when it completed, and keeps the invariant |
| HomeScreen.Timer.TogglePause | app/index.tsx:87-89 | pausing or resuming performs the toggle step and keeps the invariant |
| HomeScreen.Timer.Stop | app/index.tsx:92-98 | stopping performs the stop step, shows the cancellation alert once, and keeps the invariant |

## Left out

- `setInterval`, `clearInterval`, `useRef` and the `useEffect` dependencies and cleanup (`app/index.tsx:35-64`) are real-time scheduling and React lifecycle. They appear only as the condition under which a second has any effect: running with time left (`Countdown.TickEnabled`, the precondition of `Timer.Tick`). Timing drift, and an interval that fires after it is replaced, are not modelled.
- `Alert.alert` dialogs and their wording are modelled as signals (`Countdown.Signal`) and ghost counters (`Timer.completions`, `Timer.cancellations`). The two error alerts of `iniciarTemporizador` map to the outcomes `InvalidTime` and `OverMaximum`.
- JavaScript `parseInt` on other strings than digit strings is not modelled: after the filter the text only ever holds digits. On digits it gives the exact decimal value. Double-precision rounding of very long digit strings is not modelled: that rounding can only affect values far above 480, which are rejected either way.
- The `maxLength={3}` limit of the text field (`app/index.tsx:133`) is not modelled. The model accepts texts of any length, and the 480-minute check rejects everything that three digits cannot hold.
- The "Tiempo configurado" line (`app/index.tsx:137-141`) is not modelled: it has no logic beyond echoing the text.
- Rendering, styles, `ParallaxScrollView`, `ThemedText`, `ThemedView` and `expo-image` are presentation only. Of the rendering, only the conditionals that decide the status line and which buttons are shown are modelled.
- `metro.config.js` is bundler configuration and is not part of this model.
- The display is proved for all numbers of seconds. Literal examples are given for 0, 60 and 28800 seconds only.
- HomeScreen.Timer.ChangeText: requires that the countdown is not running, because the text field is not editable then (`app/index.tsx:134`). The handler itself has no such check.
- HomeScreen.Timer.TogglePause: requires time left, because its button is rendered only then (`app/index.tsx:163`). The handler itself has no guard.
- HomeScreen.Timer.Stop: requires time left, for the same rendering reason. Unlike this method, the handler would raise its alert from a stopped state too.
- HomeScreen.Timer.Start: requires nothing left, because the start button is rendered only then. The handler itself would restart a paused session without any alert.
