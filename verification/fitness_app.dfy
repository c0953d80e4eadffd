/**
  The application object: the countdown fields, the two displayed values the
  ticks update (timer label and progress bar), the chosen program and
  duration, and the two JSON documents it edits, held as values. The host's
  `window.after` callbacks become calls of the tick methods; the current
  date is a parameter (a day number).
*/
module FitnessApp {
  import opened Wrappers
  import opened Decimal
  import opened TimerLabel
  import opened Session
  import opened Catalog
  import opened Progress
  import opened Streak

  /** What one tick did. `Completed(recorded)` says whether the progress
      document was written; `DivisionByZero` is the exception the workout tick
      raises when it runs with time left and a total of 0. */
  datatype TickOutcome = Paused | CountedDown | Completed(recorded: bool) | DivisionByZero

  /** `start_workout` fails with a KeyError on an unknown program id. */
  datatype StartOutcome = UnknownProgram | Started(first: TickOutcome)

  class ModernFitnessApp {
    var timerRunning: bool
    var timeRemaining: int
    var totalTime: int
    var timerCompletions: nat
    /** The text of the timer label and the value of the progress bar. */
    var timerLabel: string
    var progressValue: real
    /** Set by `start_workout`; absent before the first workout. */
    var currentProgram: Option<Program>
    var currentDuration: Option<Duration>
    /** The workout catalog and progress documents as stored. */
    var programs: Programs
    var progress: ProgressDoc

    /** The countdown part of the state. */
    function Timer(): TimerState
      reads this
    {
      TimerState(timerRunning, timeRemaining, totalTime)
    }

    /** A fresh application over the given stored documents. */
    constructor (programs: Programs, progress: ProgressDoc)
      ensures Timer() == Fresh() && timerCompletions == 0
      ensures currentProgram == None && currentDuration == None
      ensures this.programs == programs && this.progress == progress
    {
      timerRunning := false;
      timeRemaining := 60;
      totalTime := 0;
      timerCompletions := 0;
      timerLabel := "";
      progressValue := 0.0;
      currentProgram := None;
      currentDuration := None;
      this.programs := programs;
      this.progress := progress;
    }

    /** `toggle_timer`: pause a running countdown, or resume a paused one and
        tick at once (the legacy tick). */
    method ToggleTimer()
      modifies this`timerRunning, this`timeRemaining, this`timerCompletions, this`timerLabel
      ensures old(timerRunning) ==>
        Timer() == old(Timer()).(running := false)
        && timerCompletions == old(timerCompletions) && timerLabel == old(timerLabel)
      ensures !old(timerRunning) ==>
        Timer() == Tick(old(Timer()).(running := true))
        && timerCompletions == old(timerCompletions) + (if old(timeRemaining) > 0 then 0 else 1)
        && timerLabel == (if old(timeRemaining) > 0 then ClockLabel(old(timeRemaining)) else old(timerLabel))
    {
      if timerRunning {
        timerRunning := false;
      } else {
        timerRunning := true;
        var _ := UpdateTimer();
      }
    }

    /** `update_timer`, the legacy one-second tick with an `MM:SS` label. Its
        completion counts the session and then calls the ledger update without
        the program it needs, which raises: nothing is recorded. */
    method UpdateTimer() returns (outcome: TickOutcome)
      modifies this`timerRunning, this`timeRemaining, this`timerCompletions, this`timerLabel
      ensures Timer() == Tick(old(Timer()))
      ensures outcome == if !old(timerRunning) then Paused
                         else if old(timeRemaining) > 0 then CountedDown
                         else Completed(false)
      ensures timerCompletions == old(timerCompletions) + (if outcome.Completed? then 1 else 0)
      ensures timerLabel == if outcome == CountedDown then ClockLabel(old(timeRemaining)) else old(timerLabel)
    {
      if !timerRunning {
        return Paused;
      }
      if timeRemaining > 0 {
        var (mins, secs) := MinutesSeconds(timeRemaining);
        timerLabel := ZeroPad2(mins) + ":" + ZeroPad2(secs);
        timeRemaining := timeRemaining - 1;
        outcome := CountedDown;
      } else {
        timerRunning := false;
        timerCompletions := timerCompletions + 1;
        outcome := Completed(false);
      }
    }

    /** `update_progress_file`: apply one completed workout of `program` at the
        current duration to the progress document, in place, and write it
        back; any failure writes nothing. */
    method UpdateProgressFile(program: Program, today: int) returns (recorded: bool)
      modifies this`progress
      ensures recorded <==> currentDuration.Some?
                            && ApplyCompletion(old(progress), program, currentDuration.value, today).Some?
      ensures progress == if recorded then ApplyCompletion(old(progress), program, currentDuration.value, today).value
                          else old(progress)
    {
      if currentDuration.None? {
        return false;
      }
      var duration := currentDuration.value;
      var stats := progress.stats;
      stats := stats.(totalWorkouts := stats.totalWorkouts + 1);
      stats := stats.(totalCalories := stats.totalCalories + duration.calories);
      match stats.lastWorkoutDate {
        case Some(last) =>
          if today - last == 1 {
            stats := stats.(streak := stats.streak + 1);
            stats := stats.(bestStreak := Max(stats.streak, stats.bestStreak));
          } else if today - last > 1 {
            stats := stats.(streak := 1);
          }
        case None =>
          stats := stats.(streak := 1);
      }
      stats := stats.(lastWorkoutDate := Some(today));
      var history := progress.history + [RecordOf(program, duration, today)];
      var kind := FirstWord(program.name);
      if kind.None? {
        return false;
      }
      var counts := progress.workoutCounts;
      if kind.value in counts {
        counts := counts[kind.value := counts[kind.value] + 1];
      }
      progress := ProgressDoc(stats, history, counts);
      recorded := true;
    }

    /** `reset_timer`: stop and put 60 seconds and the label "01:00" back. */
    method ResetTimer()
      modifies this`timerRunning, this`timeRemaining, this`timerLabel
      ensures Timer() == Reset(old(Timer()))
      ensures timerLabel == ClockLabel(DefaultSeconds)
    {
      timerRunning := false;
      timeRemaining := 60;
      timerLabel := "01:00";
      ResetLabelIsSixtySeconds();
    }

    /** `start_workout`: take the program and duration, arm the countdown and
        tick once at once. An unknown program id changes nothing. */
    method StartWorkout(programId: string, duration: Duration, today: int) returns (outcome: StartOutcome)
      modifies this`timerRunning, this`timeRemaining, this`totalTime, this`timerLabel, this`progressValue,
        this`currentProgram, this`currentDuration, this`progress
      ensures outcome == UnknownProgram <==> programId !in programs
      ensures outcome == UnknownProgram ==>
        Timer() == old(Timer()) && progress == old(progress)
        && currentProgram == old(currentProgram) && currentDuration == old(currentDuration)
        && timerLabel == old(timerLabel) && progressValue == old(progressValue)
      ensures outcome.Started? ==>
        && currentProgram == Some(programs[programId]) && currentDuration == Some(duration)
        && Timer() == Tick(Armed(duration.time))
        && progressValue == 0.0
        && timerLabel == (if duration.time > 0 then SecondsLabel(duration.time) else FormatInt02(duration.time))
        && outcome.first == (if duration.time > 0 then CountedDown
                             else Completed(ApplyCompletion(old(progress), programs[programId], duration, today).Some?))
        && progress == (if duration.time <= 0 && ApplyCompletion(old(progress), programs[programId], duration, today).Some?
                        then ApplyCompletion(old(progress), programs[programId], duration, today).value
                        else old(progress))
    {
      if programId !in programs {
        return UnknownProgram;
      }
      currentProgram := Some(programs[programId]);
      currentDuration := Some(duration);
      timeRemaining := duration.time;
      totalTime := duration.time;
      timerLabel := FormatInt02(duration.time);
      progressValue := 0.0;
      timerRunning := true;
      var first := UpdateWorkoutTimer(today);
      outcome := Started(first);
    }

    /** `update_workout_timer`, the one-second tick of a workout session: show
        the seconds left and the progress fraction, then count down; at zero run
        the completion. */
    method UpdateWorkoutTimer(today: int) returns (outcome: TickOutcome)
      modifies this`timerRunning, this`timeRemaining, this`timerLabel, this`progressValue, this`progress
      ensures outcome == Paused <==> !old(timerRunning)
      ensures outcome == DivisionByZero <==> old(timerRunning) && old(timeRemaining) > 0 && old(totalTime) == 0
      ensures outcome == CountedDown <==> old(timerRunning) && old(timeRemaining) > 0 && old(totalTime) != 0
      ensures outcome.Completed? <==> CompletesOnTick(old(Timer()))
      ensures outcome == Paused ==>
        progress == old(progress) && timerLabel == old(timerLabel)
        && progressValue == old(progressValue)
      ensures outcome == DivisionByZero ==>
        Timer() == old(Timer()) && progress == old(progress)
        && timerLabel == SecondsLabel(old(timeRemaining)) && progressValue == old(progressValue)
      ensures outcome != DivisionByZero ==> Timer() == Tick(old(Timer()))
      ensures InSession(old(Timer())) ==> InSession(Timer()) && outcome != DivisionByZero
      ensures outcome == CountedDown ==>
        && timerLabel == SecondsLabel(old(timeRemaining))
        && progressValue == (old(totalTime) - old(timeRemaining)) as real / old(totalTime) as real
        && (InSession(old(Timer())) ==> progressValue == Fraction(old(Timer())))
        && progress == old(progress)
      ensures outcome.Completed? ==>
        && timerLabel == old(timerLabel) && progressValue == old(progressValue)
        && outcome.recorded == (currentProgram.Some? && currentDuration.Some?
            && ApplyCompletion(old(progress), currentProgram.value, currentDuration.value, today).Some?)
        && progress == if outcome.recorded
                       then ApplyCompletion(old(progress), currentProgram.value, currentDuration.value, today).value
                       else old(progress)
    {
      if !timerRunning {
        return Paused;
      }
      if timeRemaining > 0 {
        timerLabel := SecondsLabel(timeRemaining);
        var elapsed := totalTime - timeRemaining;
        if totalTime == 0 {
          return DivisionByZero;
        }
        progressValue := elapsed as real / totalTime as real;
        timeRemaining := timeRemaining - 1;
        outcome := CountedDown;
      } else {
        var recorded := CompleteWorkout(today);
        outcome := Completed(recorded);
      }
    }

    /** `complete_workout`: stop the countdown and record the workout of the
        current program. Without a current program the lookup raises and
        nothing is recorded. */
    method CompleteWorkout(today: int) returns (recorded: bool)
      modifies this`timerRunning, this`progress
      ensures !timerRunning
      ensures recorded <==> currentProgram.Some? && currentDuration.Some?
                            && ApplyCompletion(old(progress), currentProgram.value, currentDuration.value, today).Some?
      ensures progress == if recorded
                          then ApplyCompletion(old(progress), currentProgram.value, currentDuration.value, today).value
                          else old(progress)
    {
      timerRunning := false;
      if currentProgram.None? {
        return false;
      }
      recorded := UpdateProgressFile(currentProgram.value, today);
    }

    /** `reset_workout_view`, scheduled one second after a completion: stop the
        countdown (the rest is widget work). */
    method ResetWorkoutView()
      modifies this`timerRunning
      ensures !timerRunning
    {
      timerRunning := false;
    }

    /** `save_program`: store the form's program under the given id, or under a
        new id when there is none. */
    method SaveProgram(programId: Option<string>, name: string, description: string)
      modifies this`programs
      ensures programs == Catalog.SaveProgram(old(programs), programId, name, description)
      ensures programs[TargetId(old(programs), programId)] == NewProgram(name, description)
    {
      var newProgram := Program(name, description, DefaultDurations, []);
      var id := programId;
      if id.None? {
        id := Some("program_" + Digits(|programs| + 1));
      }
      programs := programs[id.value := newProgram];
    }

    /** `delete_program`: after confirmation, remove the given id if present,
        otherwise report it as not found. */
    method DeleteProgram(programId: string, confirmed: bool) returns (outcome: DeleteOutcome)
      modifies this`programs
      ensures (programs, outcome) == Catalog.DeleteProgram(old(programs), programId, confirmed)
      ensures outcome == Deleted ==> programs.Keys == old(programs).Keys - {programId}
      ensures outcome != Deleted ==> programs == old(programs)
    {
      if !confirmed {
        return Cancelled;
      }
      if programId in programs {
        programs := programs - {programId};
        outcome := Deleted;
      } else {
        outcome := NotFound;
      }
    }
  }
}
