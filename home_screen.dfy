/**
  The home screen's countdown as the object the component keeps: three pieces of state
  that its handlers update in place, plus ghost counters for the sessions started and
  for the two alerts that end a session. Each handler is proved to perform the step
  function `Countdown` gives for it, and to keep the bookkeeping invariant: every
  session started has ended with exactly one alert, or is still on the clock.
*/
module HomeScreen {
  import opened Digits
  import opened Clock
  import opened Countdown

  class Timer {
    /** `tiempoMinutos`: the minutes text. */
    var input: string
    /** `tiempoRestante`: the seconds left. */
    var remaining: nat
    /** `estaContando`: whether the countdown runs. */
    var running: bool

    /** Sessions the start button has begun. */
    ghost var starts: nat
    /** "Tiempo terminado" alerts shown. */
    ghost var completions: nat
    /** "Temporizador detenido" alerts shown. */
    ghost var cancellations: nat

    /** The three visible fields as one value of the state machine. */
    function Snapshot(): State
      reads this
    {
      State(input, remaining, running)
    }

    /**
      The state is one the step functions keep consistent, and each session begun has
      either ended once, with its alert, or is the one on the clock.
    */
    ghost predicate Valid()
      reads this
    {
      Consistent(Snapshot()) && completions + cancellations + Active(Snapshot()) == starts
    }

    /** The screen as it first renders. */
    constructor ()
      ensures Snapshot() == Initial
      ensures starts == 0 && completions == 0 && cancellations == 0
      ensures Valid()
    {
      input := "";
      remaining := 0;
      running := false;
      starts := 0;
      completions := 0;
      cancellations := 0;
    }

    /**
      `handleTiempoChange`: the text keeps only the digits typed. The field accepts input
      only while the countdown is stopped or paused.
    */
    method ChangeText(raw: string)
      requires Valid() && !running
      modifies this`input
      ensures Snapshot() == ChangeInput(old(Snapshot()), raw)
      ensures Valid()
    {
      input := Filter(raw);
    }

    /** A suggestion button: it writes its minutes unless the countdown runs. */
    method ChooseSuggestion(choice: Suggestion)
      requires Valid()
      modifies this`input
      ensures Snapshot() == SuggestStep(old(Snapshot()), choice)
      ensures Valid()
    {
      if !running {
        input := SuggestedText(choice);
      }
    }

    /**
      `iniciarTemporizador`, behind the "Fichar" button that is shown only when nothing
      remains: an empty text or zero minutes and more than 480 minutes are rejected and
      change nothing; otherwise a session of that many minutes begins.
    */
    method Start() returns (outcome: StartOutcome)
      requires Valid() && remaining == 0
      modifies this`remaining, this`running, this`starts
      ensures StartResult(Snapshot(), outcome) == StartStep(old(Snapshot()))
      ensures starts == old(starts) + (if outcome == Started then 1 else 0)
      ensures Valid()
    {
      var minutes := ParseDigits(input);
      if minutes.None? || minutes.value <= 0 {
        return InvalidTime;
      }
      if minutes.value > MaxMinutes {
        return OverMaximum;
      }
      remaining := MinutesToSeconds(minutes.value);
      running := true;
      starts := starts + 1;
      outcome := Started;
    }

    /**
      The interval callback, armed only while the countdown runs with time left: one
      second passes, and on the last one the countdown stops and the completion alert
      is shown.
    */
    method Tick() returns (completed: bool)
      requires Valid() && running && remaining > 0
      modifies this`remaining, this`running, this`completions
      ensures TickResult(Snapshot(), completed) == TickStep(old(Snapshot()))
      ensures completions == old(completions) + (if completed then 1 else 0)
      ensures Valid()
    {
      if remaining <= 1 {
        running := false;
        completions := completions + 1;
        remaining := 0;
        completed := true;
      } else {
        remaining := remaining - 1;
        completed := false;
      }
    }

    /** `togglePausa`, behind the button shown only while time remains. */
    method TogglePause()
      requires Valid() && remaining > 0
      modifies this`running
      ensures Snapshot() == TogglePauseStep(old(Snapshot()))
      ensures Valid()
    {
      running := !running;
    }

    /**
      `detenerTemporizador`, behind the button shown only while time remains: the
      countdown stops, nothing remains, and the cancellation alert is shown.
    */
    method Stop()
      requires Valid() && remaining > 0
      modifies this`remaining, this`running, this`cancellations
      ensures Snapshot() == StopStep(old(Snapshot()))
      ensures cancellations == old(cancellations) + 1
      ensures Valid()
    {
      running := false;
      remaining := 0;
      cancellations := cancellations + 1;
    }
  }
}
