/**
  The clock-in countdown of the home screen as a state machine over its three pieces of
  state: the minutes text, the seconds remaining and whether the countdown runs. Each
  handler of the screen is a step function here; `React` adds the rendering rules that
  decide which handlers a user can reach, and `Replay` runs a whole sequence of user
  actions and elapsed seconds.
*/
module Countdown {
  import opened Wrappers
  import opened Digits
  import opened Clock

  /** `tiempoMinutos`, `tiempoRestante` (seconds) and `estaContando`. */
  datatype State = State(input: string, remaining: nat, running: bool)

  /** The screen when it first appears: no text, nothing left, not counting. */
  const Initial: State := State("", 0, false)

  /**
    What every reachable state satisfies: the text holds only digits, at most eight hours
    remain, and a running countdown has time left.
  */
  predicate Consistent(st: State) {
    AllDigits(st.input) && st.remaining <= MaxSeconds && (st.running ==> st.remaining > 0)
  }

  // ---------------------------------------------------------------------------
  // The handlers
  // ---------------------------------------------------------------------------

  /** `handleTiempoChange`: the text becomes the digits of what was typed. */
  function ChangeInput(st: State, raw: string): (r: State)
    ensures r.input == Filter(raw) && AllDigits(r.input)
    ensures r.remaining == st.remaining && r.running == st.running
    ensures Consistent(st) ==> Consistent(r)
  {
    st.(input := Filter(raw))
  }

  /** The three suggestion buttons. */
  datatype Suggestion = Pomodoro | OneHour | LongSession

  /** The text a suggestion button writes; each one is a time that starting accepts. */
  function SuggestedText(choice: Suggestion): (t: string)
    ensures AllDigits(t) && 1 <= DecimalValue(t) <= MaxMinutes
  {
    match choice
    case Pomodoro => "25"
    case OneHour => "60"
    case LongSession => "90"
  }

  /** A suggestion button: it replaces the text unless the countdown is running. */
  function SuggestStep(st: State, choice: Suggestion): (r: State)
    ensures st.running ==> r == st
    ensures !st.running ==> r == State(SuggestedText(choice), st.remaining, false)
    ensures Consistent(st) ==> Consistent(r)
  {
    if st.running then st else st.(input := SuggestedText(choice))
  }

  /** The alert `iniciarTemporizador` shows, or that it started the countdown. */
  datatype StartOutcome = Started | InvalidTime | OverMaximum

  datatype StartResult = StartResult(state: State, outcome: StartOutcome)

  /**
    `iniciarTemporizador`: an empty text (NaN) or a value of 0 is an invalid time, more
    than 480 minutes is over the maximum, and both leave the state as it was; otherwise
    the countdown runs from the whole number of minutes, in seconds.
  */
  function StartStep(st: State): (r: StartResult)
    requires AllDigits(st.input)
    ensures r.state.input == st.input
    ensures r.outcome == InvalidTime <==> st.input == [] || DecimalValue(st.input) == 0
    ensures r.outcome == OverMaximum <==> st.input != [] && DecimalValue(st.input) > MaxMinutes
    ensures r.outcome != Started ==> r.state == st
    ensures r.outcome == Started ==>
      r.state.running && r.state.remaining == MinutesToSeconds(DecimalValue(st.input))
    ensures Consistent(st) ==> Consistent(r.state)
  {
    match ParseDigits(st.input)
    case None => StartResult(st, InvalidTime)
    case Some(minutes) =>
      if minutes <= 0 then StartResult(st, InvalidTime)
      else if minutes > MaxMinutes then StartResult(st, OverMaximum)
      else StartResult(st.(remaining := MinutesToSeconds(minutes), running := true), Started)
  }

  /** The interval is armed only while the countdown runs with time left. */
  predicate TickEnabled(st: State) {
    st.running && st.remaining > 0
  }

  datatype TickResult = TickResult(state: State, completed: bool)

  /**
    The interval callback: one second passes; the countdown completes, and stops, exactly
    when that second was the last one.
  */
  function TickStep(st: State): (r: TickResult)
    requires TickEnabled(st)
    ensures r.state.remaining == st.remaining - 1
    ensures r.completed <==> r.state.remaining == 0
    ensures r.state.running == !r.completed
    ensures r.state.input == st.input
    ensures Consistent(st) ==> Consistent(r.state)
  {
    if st.remaining <= 1 then TickResult(st.(remaining := 0, running := false), true)
    else TickResult(st.(remaining := st.remaining - 1), false)
  }

  /** `togglePausa`: pausing or resuming changes whether the countdown runs, and nothing else. */
  function TogglePauseStep(st: State): (r: State)
    ensures r.running == !st.running
    ensures r.remaining == st.remaining && r.input == st.input
    ensures Consistent(st) && st.remaining > 0 ==> Consistent(r)
  {
    st.(running := !st.running)
  }

  /** Pausing and then resuming with no second in between gives back the same state. */
  lemma TogglePauseTwice(st: State)
    ensures TogglePauseStep(TogglePauseStep(st)) == st
  {
  }

  /** `detenerTemporizador`: from any state, the countdown stops with nothing left. */
  function StopStep(st: State): (r: State)
    ensures !r.running && r.remaining == 0 && r.input == st.input
    ensures Consistent(st) ==> Consistent(r)
  {
    st.(running := false, remaining := 0)
  }

  /** Stopping a stopped timer leaves it as it is. */
  lemma StopIdempotent(st: State)
    ensures StopStep(StopStep(st)) == StopStep(st)
  {
  }

  /** A text of zeros only ("", "0", "00", ...) never starts a countdown. */
  lemma {:induction false} StartRejectsZeros(st: State)
    requires AllDigits(st.input)
    requires forall i :: 0 <= i < |st.input| ==> st.input[i] == '0'
    ensures StartStep(st) == StartResult(st, InvalidTime)
  {
    ValueZeroIffAllZeros(st.input);
  }

  /** Typing `m` minutes, for `m` from 1 to 480, starts a countdown of `m * 60` seconds. */
  lemma StartTypedMinutes(st: State, m: nat)
    requires 1 <= m <= MaxMinutes && st.input == ToDecimal(m)
    ensures StartStep(st).outcome == Started
    ensures StartStep(st).state == State(st.input, m * 60, true)
    ensures StartStep(st).state.remaining <= MaxSeconds
  {
  }

  // ---------------------------------------------------------------------------
  // What the screen renders
  // ---------------------------------------------------------------------------

  datatype Status = Working | Paused | Stopped

  /** The status line under the clock. */
  function StatusOf(st: State): Status {
    if st.running then Working else if st.remaining > 0 then Paused else Stopped
  }

  function StatusLabel(status: Status): string {
    match status
    case Working => "\U{1F534} Trabajando..."
    case Paused => "\U{23F8}\U{FE0F} Pausado"
    case Stopped => "\U{23F9}\U{FE0F} Detenido"
  }

  /**
    The status line reads "Trabajando..." exactly while the countdown runs, "Pausado"
    exactly while it is stopped with time left, and "Detenido" exactly when it is stopped
    with nothing left.
  */
  lemma StatusLine(st: State)
    ensures StatusLabel(StatusOf(st)) == "\U{1F534} Trabajando..." <==> st.running
    ensures StatusLabel(StatusOf(st)) == "\U{23F8}\U{FE0F} Pausado" <==> !st.running && st.remaining > 0
    ensures StatusLabel(StatusOf(st)) == "\U{23F9}\U{FE0F} Detenido" <==> !st.running && st.remaining == 0
  {
    StatusLabelsDistinct(StatusOf(st), Working);
    StatusLabelsDistinct(StatusOf(st), Paused);
    StatusLabelsDistinct(StatusOf(st), Stopped);
  }

  datatype Toggle = Pause | Resume

  /** Either the start ("Fichar") button alone, or a pause/resume button beside a stop button. */
  datatype Controls = StartButton | ToggleAndStop(toggle: Toggle)

  /** The button row under the clock. */
  function ControlsOf(st: State): Controls {
    if st.remaining == 0 then StartButton
    else ToggleAndStop(if st.running then Pause else Resume)
  }

  /**
    In every reachable state the button row agrees with the status line: the start button
    exactly when stopped, "pause" exactly when working, "resume" exactly when paused.
  */
  lemma ControlsMatchStatus(st: State)
    requires Consistent(st)
    ensures ControlsOf(st) == StartButton <==> StatusOf(st) == Stopped
    ensures ControlsOf(st) == ToggleAndStop(Pause) <==> StatusOf(st) == Working
    ensures ControlsOf(st) == ToggleAndStop(Resume) <==> StatusOf(st) == Paused
  {
  }

  /** The three status lines are told apart. */
  lemma StatusLabelsDistinct(a: Status, b: Status)
    ensures StatusLabel(a) == StatusLabel(b) ==> a == b
  {
    if a != b {
      assert StatusLabel(a)[|StatusLabel(a)| - 1] != StatusLabel(b)[|StatusLabel(b)| - 1] ||
        |StatusLabel(a)| != |StatusLabel(b)|;
    }
  }

  // ---------------------------------------------------------------------------
  // The screen over time
  // ---------------------------------------------------------------------------

  /** What can happen to the screen: the user types or taps, or a second passes. */
  datatype Event =
    | Typed(raw: string)
    | Suggested(choice: Suggestion)
    | PressStart
    | PressToggle
    | PressStop
    | SecondElapses

  /** The alerts of the screen, and the start of a session. */
  datatype Signal = NoSignal | Rejected | SessionStarted | Completed | Cancelled

  datatype Reaction = Reaction(state: State, signal: Signal)

  datatype Tally = Tally(starts: nat, completions: nat, cancellations: nat)

  function Count(signal: Signal): Tally {
    match signal
    case SessionStarted => Tally(1, 0, 0)
    case Completed => Tally(0, 1, 0)
    case Cancelled => Tally(0, 0, 1)
    case _ => Tally(0, 0, 0)
  }

  function Add(a: Tally, b: Tally): Tally {
    Tally(a.starts + b.starts, a.completions + b.completions, a.cancellations + b.cancellations)
  }

  /** 1 while a session is in progress (running or paused), 0 otherwise. */
  function Active(st: State): nat {
    if st.remaining > 0 then 1 else 0
  }

  /**
    Opened = closed + still open: a reaction either opens a session, closes one (by
    completion or cancellation) or does neither.
  */
  predicate Balanced(st: State, r: Reaction) {
    Count(r.signal).completions + Count(r.signal).cancellations + Active(r.state)
      == Count(r.signal).starts + Active(st)
  }

  /** Typing: the text field is not editable while the countdown runs. */
  function OnTyped(st: State, raw: string): (r: Reaction)
    requires Consistent(st)
    ensures Consistent(r.state) && Balanced(st, r)
    ensures r.state == if st.running then st else st.(input := Filter(raw))
  {
    Reaction(if st.running then st else ChangeInput(st, raw), NoSignal)
  }

  /** The start button is rendered only when nothing is left. */
  function OnPressStart(st: State): (r: Reaction)
    requires Consistent(st)
    ensures Consistent(r.state) && Balanced(st, r)
    ensures r.signal == SessionStarted ==> st.remaining == 0 && TickEnabled(r.state)
    ensures st.remaining == 0 ==> r.state == StartStep(st).state
    ensures st.remaining == 0 ==> (r.signal == SessionStarted <==> StartStep(st).outcome == Started)
    ensures st.remaining == 0 ==> (r.signal == Rejected <==> StartStep(st).outcome != Started)
    ensures st.remaining > 0 ==> r == Reaction(st, NoSignal)
  {
    if ControlsOf(st) != StartButton then Reaction(st, NoSignal)
    else
      var s := StartStep(st);
      Reaction(s.state, if s.outcome == Started then SessionStarted else Rejected)
  }

  /** The pause/resume button is rendered only while time is left. */
  function OnPressToggle(st: State): (r: Reaction)
    requires Consistent(st)
    ensures Consistent(r.state) && Balanced(st, r) && r.signal == NoSignal
    ensures st.remaining > 0 ==> r.state == TogglePauseStep(st)
    ensures st.remaining == 0 ==> r == Reaction(st, NoSignal)
  {
    if ControlsOf(st) == StartButton then Reaction(st, NoSignal)
    else Reaction(TogglePauseStep(st), NoSignal)
  }

  /** The stop button is rendered only while time is left. */
  function OnPressStop(st: State): (r: Reaction)
    requires Consistent(st)
    ensures Consistent(r.state) && Balanced(st, r)
    ensures r.signal == Cancelled <==> st.remaining > 0
    ensures st.remaining > 0 ==> r.state == StopStep(st)
    ensures st.remaining == 0 ==> r == Reaction(st, NoSignal)
  {
    if ControlsOf(st) == StartButton then Reaction(st, NoSignal)
    else Reaction(StopStep(st), Cancelled)
  }

  /** A second changes something only while the countdown runs with time left. */
  function OnSecond(st: State): (r: Reaction)
    requires Consistent(st)
    ensures Consistent(r.state) && Balanced(st, r)
    ensures !TickEnabled(st) ==> r == Reaction(st, NoSignal)
    ensures r.signal == Completed <==> st.running && st.remaining == 1
  {
    if !TickEnabled(st) then Reaction(st, NoSignal)
    else
      var t := TickStep(st);
      Reaction(t.state, if t.completed then Completed else NoSignal)
  }

  /** One event, as the screen handles it. */
  function React(st: State, e: Event): (r: Reaction)
    requires Consistent(st)
    ensures Consistent(r.state) && Balanced(st, r)
  {
    match e
    case Typed(raw) => OnTyped(st, raw)
    case Suggested(choice) => Reaction(SuggestStep(st, choice), NoSignal)
    case PressStart => OnPressStart(st)
    case PressToggle => OnPressToggle(st)
    case PressStop => OnPressStop(st)
    case SecondElapses => OnSecond(st)
  }

  datatype Run = Run(final: State, tally: Tally)

  /** The state after a sequence of events, and how many sessions started, completed and were cancelled. */
  function Replay(st: State, events: seq<Event>): (r: Run)
    requires Consistent(st)
    ensures Consistent(r.final)
    decreases |events|
  {
    if events == [] then Run(st, Tally(0, 0, 0))
    else
      var first := React(st, events[0]);
      var rest := Replay(first.state, events[1..]);
      Run(rest.final, Add(Count(first.signal), rest.tally))
  }

  /** Running two event sequences one after the other. */
  lemma {:induction false} ReplayConcat(st: State, a: seq<Event>, b: seq<Event>)
    requires Consistent(st)
    ensures Replay(st, a + b) ==
      var ra := Replay(st, a);
      var rb := Replay(ra.final, b);
      Run(rb.final, Add(ra.tally, rb.tally))
    decreases a
  {
    if a == [] {
      assert a + b == b;
    } else {
      var first := React(st, a[0]);
      assert (a + b)[0] == a[0];
      assert (a + b)[1..] == a[1..] + b;
      ReplayConcat(first.state, a[1..], b);
      var ra := Replay(first.state, a[1..]);
      var rb := Replay(ra.final, b);
      calc {
        Replay(st, a + b);
        Run(Replay(first.state, a[1..] + b).final, Add(Count(first.signal), Replay(first.state, a[1..] + b).tally));
        Run(rb.final, Add(Count(first.signal), Add(ra.tally, rb.tally)));
        Run(rb.final, Add(Add(Count(first.signal), ra.tally), rb.tally));
      }
    }
  }

  /**
    Every session ends at most once: over any sequence of events, the sessions that
    completed or were cancelled, plus the one still open, are the ones that were open at
    the beginning plus the ones started. In particular without a new start no more than one
    completion or cancellation is signalled, however the countdown was paused and resumed.
  */
  lemma {:induction false} EverySessionEndsOnce(st: State, events: seq<Event>)
    requires Consistent(st)
    ensures var r := Replay(st, events);
      r.tally.completions + r.tally.cancellations + Active(r.final) == r.tally.starts + Active(st)
    ensures Replay(st, events).tally.starts == 0 ==>
      Replay(st, events).tally.completions + Replay(st, events).tally.cancellations <= 1
    decreases |events|
  {
    if events != [] {
      EverySessionEndsOnce(React(st, events[0]).state, events[1..]);
    }
  }

  /** Replaying a single event. */
  lemma ReplayOne(st: State, e: Event)
    requires Consistent(st)
    ensures Replay(st, [e]) == Run(React(st, e).state, Count(React(st, e).signal))
  {
    assert [e][1..] == [];
  }

  /** `n` seconds passing. */
  function Seconds(n: nat): (evs: seq<Event>)
    ensures |evs| == n
  {
    if n == 0 then [] else [SecondElapses] + Seconds(n - 1)
  }

  /** Replaying an event followed by others. */
  lemma ReplayCons(st: State, e: Event, rest: seq<Event>)
    requires Consistent(st)
    ensures Replay(st, [e] + rest) ==
      var first := React(st, e);
      var r := Replay(first.state, rest);
      Run(r.final, Add(Count(first.signal), r.tally))
  {
    var events := [e] + rest;
    assert events[0] == e;
    assert events[1..] == rest;
  }

  /** The first of `n` seconds, then the others. */
  lemma ReplaySecond(st: State, n: nat)
    requires Consistent(st) && n > 0
    ensures Replay(st, Seconds(n)) ==
      var first := OnSecond(st);
      var r := Replay(first.state, Seconds(n - 1));
      Run(r.final, Add(Count(first.signal), r.tally))
  {
    assert Seconds(n) == [SecondElapses] + Seconds(n - 1);
    ReplayCons(st, SecondElapses, Seconds(n - 1));
  }

  /** While paused or stopped, no second changes anything or signals anything. */
  lemma {:induction false} IdleSecondsChangeNothing(st: State, n: nat)
    requires Consistent(st) && !st.running
    ensures Replay(st, Seconds(n)) == Run(st, Tally(0, 0, 0))
  {
    if n > 0 {
      ReplaySecond(st, n);
      IdleSecondsChangeNothing(st, n - 1);
    }
  }

  /**
    A running countdown loses exactly one second per elapsed second, never goes below 0,
    and completes exactly once: on the second that takes it to 0.
  */
  lemma {:induction false} CountdownWhileRunning(st: State, n: nat)
    requires Consistent(st) && st.running
    ensures var r := Replay(st, Seconds(n));
      && r.final.input == st.input
      && r.final.remaining == (if n < st.remaining then st.remaining - n else 0)
      && r.final.running == (n < st.remaining)
      && r.tally == Tally(0, if n < st.remaining then 0 else 1, 0)
    decreases n
  {
    if n > 0 {
      var next := TickStep(st).state;
      ReplaySecond(st, n);
      OnSecondRunning(st);
      if st.remaining == 1 {
        IdleSecondsChangeNothing(next, n - 1);
      } else {
        CountdownWhileRunning(next, n - 1);
      }
    }
  }

  /** A second of a running countdown is a tick, which completes it when it was the last one. */
  lemma OnSecondRunning(st: State)
    requires Consistent(st) && st.running
    ensures OnSecond(st) == Reaction(TickStep(st).state, if st.remaining == 1 then Completed else NoSignal)
  {
  }

  /** Typing on the fresh screen puts the digits typed in the text field, and nothing else. */
  lemma TypeOnFreshScreen(text: string)
    requires AllDigits(text)
    ensures Replay(Initial, [Typed(text)]) == Run(State(text, 0, false), Tally(0, 0, 0))
  {
    assert React(Initial, Typed(text)) == Reaction(State(text, 0, false), NoSignal);
    ReplayOne(Initial, Typed(text));
  }

  /** Pressing start with a valid number of minutes typed and nothing left opens a session of that length. */
  lemma PressStartWithMinutes(text: string)
    requires AllDigits(text) && 1 <= DecimalValue(text) <= MaxMinutes
    ensures Replay(State(text, 0, false), [PressStart]) ==
      Run(State(text, MinutesToSeconds(DecimalValue(text)), true), Tally(1, 0, 0))
  {
    var typed := State(text, 0, false);
    var started := State(text, MinutesToSeconds(DecimalValue(text)), true);
    assert React(typed, PressStart) == Reaction(started, SessionStarted);
    ReplayOne(typed, PressStart);
  }

  /**
    A whole session from the fresh screen: after typing `m` minutes (1 to 480), starting
    and letting `n` seconds pass, `m * 60 - n` seconds remain while `n < m * 60`; from then
    on the countdown is stopped at 0, and it completed exactly once.
  */
  lemma TypedSession(text: string, n: nat)
    requires AllDigits(text) && 1 <= DecimalValue(text) <= MaxMinutes
    ensures var total := DecimalValue(text) * 60;
      Replay(Initial, [Typed(text)] + [PressStart] + Seconds(n)) ==
        if n < total then Run(State(text, total - n, true), Tally(1, 0, 0))
        else Run(State(text, 0, false), Tally(1, 1, 0))
  {
    TypeOnFreshScreen(text);
    PressStartWithMinutes(text);
    ReplayConcat(Initial, [Typed(text)], [PressStart]);
    ReplayConcat(Initial, [Typed(text)] + [PressStart], Seconds(n));
    CountdownWhileRunning(State(text, MinutesToSeconds(DecimalValue(text)), true), n);
  }

  /**
    Pausing a running countdown, letting any number of seconds pass and resuming gives
    back the same running state, with nothing signalled.
  */
  lemma PauseElapseResume(st: State, k: nat)
    requires Consistent(st) && st.running
    ensures Replay(st, [PressToggle] + Seconds(k) + [PressToggle]) == Run(st, Tally(0, 0, 0))
  {
    var paused := st.(running := false);
    assert React(st, PressToggle) == Reaction(paused, NoSignal);
    assert React(paused, PressToggle) == Reaction(st, NoSignal);
    ReplayOne(st, PressToggle);
    ReplayOne(paused, PressToggle);
    IdleSecondsChangeNothing(paused, k);
    ReplayConcat(st, [PressToggle], Seconds(k));
    ReplayConcat(st, [PressToggle] + Seconds(k), [PressToggle]);
  }

  /** Typing "1", starting, and letting 60 seconds pass: stopped at 0 after exactly one completion. */
  lemma OneMinuteSession()
    ensures Replay(Initial, [Typed("1")] + [PressStart] + Seconds(60)) ==
      Run(State("1", 0, false), Tally(1, 1, 0))
  {
    SpellingExamples();
    TypedSession("1", 60);
  }

  /**
    Typing "25" and starting gives 1500 s; after one second 1499 remain; pausing keeps
    1499 however many seconds pass, and resuming continues from 1499.
  */
  lemma PomodoroPauseResume(k: nat)
    ensures Replay(Initial, [Typed("25")] + [PressStart] + Seconds(1)) ==
      Run(State("25", 1499, true), Tally(1, 0, 0))
    ensures Replay(State("25", 1499, true), [PressToggle] + Seconds(k) + [PressToggle]) ==
      Run(State("25", 1499, true), Tally(0, 0, 0))
  {
    SpellingExamples();
    TypedSession("25", 1);
    PauseElapseResume(State("25", 1499, true), k);
  }
}
