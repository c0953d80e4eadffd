# Fitness Pro: verified model of the workout timer, progress ledger and program catalog

Fitness Pro is a desktop fitness tracker built as one GUI class, `ModernFitnessApp`.
Most of that class builds widgets and reads or writes three JSON documents. This
project models the parts of it that hold state and rules:

- **The workout countdown.** The fields `timer_running`, `time_remaining`,
  `total_time` and `timer_completions` change through `start_workout`,
  the one-second ticks `update_workout_timer` and the older `update_timer`,
  `toggle_timer`, `reset_timer`, `complete_workout` and `reset_workout_view`.
  Module `Session` holds the transition as a pure function `Tick`, with `Run`
  and `Completions` for k ticks in a row. Module `TimerLabel` holds the `MM:SS`
  label built with `divmod`, and module `Decimal` holds the `:02d` rendering it uses.
- **The progress ledger.** `update_progress_file` applies one completed workout to
  the progress document: totals, the streak rule, the last date, one new history
  entry and a per-type counter. Module `Streak` holds the streak rule (`NextStreak`).
  Module `Progress` holds the document and the whole update (`ApplyCompletion`).
  Its result is `None` when the update raises, in which case nothing is written.
- **The program catalog.** `save_program` and `delete_program` edit the map from
  program id to program. They are modelled in module `Catalog` (`SaveProgram`,
  `DeleteProgram`).

Module `FitnessApp` holds the class `ModernFitnessApp` with the source's fields.
Its methods change those fields step by step, as the source does. Their
`ensures` clauses tie the new state to the pure functions above, and the lemmas
state what those functions guarantee. The host's `window.after` callbacks become
explicit calls of `UpdateWorkoutTimer` and `UpdateTimer`. The current date is a
parameter `today`, given as a day number. The two JSON files are fields holding
their decoded values: `programs` for the catalog and `progress` for the ledger.

Behaviour kept as coded:

- A duration of 0 (or less) is not rejected. Such a session completes on its
  immediate first tick.
- `best_streak` moves only in the next-day branch. A first workout from a zero
  record therefore gives streak 1 and best streak 0, so `best_streak >= streak`
  does not hold in general (`Streak.BestCanTrailStreak`), although a reader of the
  statistics would expect best streak 1 there. The model follows the code.
- The gap between the last workout and today is `(now - midnight(last)).days`.
  For day numbers this is exactly `today - last`. A date in the future gives a
  negative gap, which matches no branch, so the streak is left as it is.
- The legacy tick `update_timer` completes by adding 1 to `timer_completions`. It
  then calls `update_progress_file()` without the `program` argument that method
  requires. Python raises a TypeError there, so nothing is recorded and no
  completion message is shown. The model gives `Completed(false)`.
- The workout tick divides by `total_time`. With time left and a total of 0 it
  raises ZeroDivisionError after setting the label. The model gives
  `DivisionByZero`, with the timer unchanged. This cannot happen inside a session.
- A new program's id is `program_{len+1}`. After a deletion this can be an id
  still in use, and the save then overwrites that program (`Catalog.NewIdCanOverwrite`).

## Model

| member | source | states |
|---|---|---|
| `FitnessApp.ModernFitnessApp.constructor` | fitness_app.py:31-36 | a fresh application has 60 seconds on the clock, is not running and has 0 completions |
| `FitnessApp.ModernFitnessApp.ToggleTimer` | fitness_app.py:454-461 | pausing only clears `timer_running`; resuming sets it and immediately applies one legacy tick, with its `MM:SS` label and its completion count |
| `FitnessApp.ModernFitnessApp.UpdateTimer` | fitness_app.py:463-477 | the legacy tick follows `Tick`: paused ticks change nothing; with time left it shows `MM:SS` of the old value and counts down by exactly 1; at 0 it stops, adds exactly 1 to `timer_completions` and records nothing |
| `FitnessApp.ModernFitnessApp.UpdateProgressFile` | fitness_app.py:479-528 | the in-place update of the document writes exactly `ApplyCompletion` of the old document; a missing current duration or a name with no word writes nothing |
| `FitnessApp.ModernFitnessApp.ResetTimer` | fitness_app.py:530-534 | from any state: not running, 60 seconds, and the label is the `MM:SS` rendering of 60 |
| `FitnessApp.ModernFitnessApp.StartWorkout` | fitness_app.py:599-675 | an unknown program id changes nothing, label and progress bar included; otherwise program and duration become current, the progress bar is 0, the state is one tick after arming with the duration, the label shows the seconds (or the `:02d` duration when it is <= 0), and a duration <= 0 completes and records on that first tick |
| `FitnessApp.ModernFitnessApp.UpdateWorkoutTimer` | fitness_app.py:755-777 | the workout tick follows `Tick` (or raises on a zero total with time left); it keeps `0 <= remaining <= total`; while counting down it shows the seconds and the progress `Fraction`; on a zero total it shows the seconds and leaves the bar; at 0 it records the workout through `ApplyCompletion` and leaves label and bar |
| `FitnessApp.ModernFitnessApp.CompleteWorkout` | fitness_app.py:779-785 | stops the timer and records the current program's workout exactly when `ApplyCompletion` succeeds |
| `FitnessApp.ModernFitnessApp.ResetWorkoutView` | fitness_app.py:787-789 | the timer is stopped |
| `FitnessApp.ModernFitnessApp.SaveProgram` | fitness_app.py:1019-1039 | the catalog becomes `Catalog.SaveProgram` of the old one: the new program sits under the target id |
| `FitnessApp.ModernFitnessApp.DeleteProgram` | fitness_app.py:880-908 | the catalog and the outcome are those of `Catalog.DeleteProgram`: only the given key goes, and only when confirmed and present |
| `Session.Tick` | fitness_app.py:755-777 | one tick of either countdown never changes the total, never starts a stopped timer, and takes exactly one second off exactly when running with time left; its runs are stated by `Session.CountdownRun` and `Session.PausedTicksAreIdle` |
| `TimerLabel.ClockLabel` | fitness_app.py:468-469 | the `MM:SS` label has at least 5 characters with `:` third from the end; `TimerLabel.ClockLabelRoundTrip` and `TimerLabel.ClockLabelShape` state that it reads back as the time |
| `TimerLabel.SecondsLabel` | fitness_app.py:761 | the seconds label is all digits and reads back as the remaining time |
| `Decimal.Digits` | fitness_app.py:1037 | `str(n)` is a non-empty string of digits; `Decimal.DigitsRoundTrip` states that it decodes to n |
| `Decimal.ZeroPad2` | fitness_app.py:469 | `:02d` of n >= 0 is at least two digits; `Decimal.ZeroPad2RoundTrip` states that it decodes to n |
| `Decimal.FormatInt02` | fitness_app.py:641 | `:02d` of any integer shows that integer: at least two characters, `-` first exactly for a negative number; a non-negative n is all digits reading back as n (two characters exactly below 100), a negative n is `-` followed by digits reading back as -n |
| `Streak.NextStreak` | fitness_app.py:491-505 | the new streak is 1, the old streak or the old streak + 1; the best never goes down and, when it moves, becomes the new streak; `Streak.StreakRules` states each branch |
| `Progress.RecordOf` | fitness_app.py:508-516 | the history entry is marked completed, dated today, names the program and counts its exercises |
| `Progress.ApplyCompletion` | fitness_app.py:487-522 | the update succeeds exactly when the name has a first word; then one more workout, today as last date, one more history entry and the same counter keys; `Progress.CompletionStats`, `Progress.CompletionAppendsHistory`, `Progress.CompletionCounts` and `Progress.CompletionKeepsConsistent` state the rest |
| `Catalog.NewProgramId` | fitness_app.py:1037 | the new id is `program_` followed by the digits of the catalog size + 1 |
| `Catalog.TargetId` | fitness_app.py:1035-1037 | the key written is the given id, or a `program_` id numbered size + 1 when none is given |
| `Catalog.SaveProgram` | fitness_app.py:1024-1039 | the key set gains the target id, which maps to the form's name and description with the default durations and no exercises; every other entry is kept |
| `Catalog.DeleteProgram` | fitness_app.py:887-908 | deleted exactly when confirmed and present, and then only that key goes; no entry changes; otherwise the catalog is unchanged |
| `Session.Fraction` | fitness_app.py:763-766 | the progress fraction of a counting-down tick in a session has a positive denominator and lies in [0, 1) |
| `Session.TickKeepsSession` | fitness_app.py:759-774 | one tick keeps `0 <= remaining <= total` and the total, and removes exactly one second when running with time left, none otherwise |
| `Session.PausedTicksAreIdle` | fitness_app.py:755-757 | any number of ticks while not running, or after completion, change nothing and complete nothing |
| `Session.CountdownRun` | fitness_app.py:755-782 | from r >= 0 seconds while running, the first r ticks count down one each and complete nothing; every later tick count ends stopped at 0 with exactly one completion |
| `Session.SessionCompletesOnce` | fitness_app.py:599-603 | an N-second session (N >= 0, first tick immediate) stays within bounds, has N - k seconds left after k <= N ticks, completes on tick N + 1 and completes exactly once |
| `TimerLabel.MinutesSeconds` | fitness_app.py:468 | `divmod(t, 60)` gives seconds below 60 with `mins * 60 + secs == t` |
| `TimerLabel.ClockLabelRoundTrip` | fitness_app.py:468-469 | every `MM:SS` label ends in `:` and two digits below 60, and reading it back gives the remaining time |
| `TimerLabel.ClockLabelShape` | fitness_app.py:468-469 | below 6000 seconds the label has 5 characters, `:` at index 2, seconds below 60 and `mins * 60 + secs` equal to the time |
| `TimerLabel.ResetLabelIsSixtySeconds` | fitness_app.py:530-533 | "01:00", the label `reset_timer` writes, is the rendering of 60 seconds |
| `TimerLabel.SecondsLabelRoundTrip` | fitness_app.py:761 | the seconds label of the workout tick reads back as the remaining time and has 2 characters below 100 |
| `Decimal.DigitsRoundTrip` | fitness_app.py:1037 | the decimal rendering of n is all digits, decodes to n, and has one character exactly when n < 10 |
| `Decimal.DigitsInjective` | fitness_app.py:1037 | two numbers have the same rendering only when they are equal |
| `Decimal.ZeroPad2RoundTrip` | fitness_app.py:469 | the `:02d` rendering decodes to the number and has two characters exactly below 100 |
| `Streak.StreakRules` | fitness_app.py:491-505 | no last date gives 1; a gap of 1 adds one and raises the best to the streak; a gap above 1 gives 1; a gap of 0 or less changes nothing; the best moves only in the next-day branch and never down |
| `Streak.BestCanTrailStreak` | fitness_app.py:502-503 | a first workout from a zero record gives streak 1 with best streak 0 |
| `Streak.ExtendedStreak` | fitness_app.py:494-499 | workouts on each following day add one each to the streak and raise the best to it |
| `Streak.ConsecutiveDaysStreak` | fitness_app.py:491-505 | N consecutive days from a fresh start give streak N, and best streak max(previous best, N) once N >= 2 (a single day leaves the best unchanged) |
| `Progress.FirstWord` | fitness_app.py:520 | `split()[0]` is absent exactly when the name is empty or all separators; otherwise it is the first non-empty separator-free run after the leading separators |
| `Progress.CompletionStats` | fitness_app.py:487-505 | the update fails exactly for a name with no word; otherwise one more workout, the duration's calories added, the streak rule applied, and today as the last date |
| `Progress.CompletionAppendsHistory` | fitness_app.py:507-517 | exactly one entry is appended, equal to `RecordOf` of the workout: marked completed, with today, the program name, the duration name, its seconds, the calories and the exercise count; earlier entries are unchanged |
| `Progress.CompletionCounts` | fitness_app.py:519-522 | only the counter named by the first word grows, by one, and only when it already exists; no key is added or removed |
| `Progress.SumCaloriesAppend` | fitness_app.py:488-517 | the calories of a history grow by the appended entry's calories |
| `Progress.CompletionKeepsConsistent` | fitness_app.py:487-517 | totals that agree with the history (one workout and its calories per entry) still agree after a completion |
| `Catalog.SaveProgramStores` | fitness_app.py:1024-1039 | the target id then maps to the form's program with the durations 15/20, 30/40, 60/80 and no exercises; other entries are kept; the size grows only for an unused id |
| `Catalog.DeleteProgramRemoves` | fitness_app.py:880-908 | deleted exactly when confirmed and present, and then only that key is gone; otherwise the catalog is unchanged and the outcome says not found or cancelled |
| `Catalog.DeleteUndoesSave` | fitness_app.py:887-888 | deleting the id just saved leaves the catalog without that id, which is the original catalog when the id was new |
| `Catalog.NewProgramIdInjective` | fitness_app.py:1037 | different catalog sizes give different new ids |
| `Catalog.NewIdFreshWhileNumbered` | fitness_app.py:1035-1037 | while the ids are `program_1` to `program_N`, a new program gets an unused id and the catalog grows by one |
| `Catalog.NewIdCanOverwrite` | fitness_app.py:1035-1039 | with only `program_2` left, a new program is saved as `program_2` and replaces it |

## Left out

- Widget construction, layout, view switching, message boxes, the completion pop-up and the program form: user interface only.
- `ToggleTimer`, `UpdateTimer` and `ResetTimer` are modelled with the start button and the timer label present, as the unit tests set them up. The application itself never creates `start_button` and binds no widget to `toggle_timer` or `reset_timer`, so in the running program these methods are unreachable, and if called they would raise AttributeError at the button (and `reset_timer`, before any workout, already at the timer label): resuming before the first legacy tick, the legacy completion before `timer_completions` grows. The button texts themselves are not modelled; the timer label and the progress-bar value are.
- JSON reading and writing: the documents are values held in fields. A file that cannot be read or parsed, a failed write, and values of the wrong JSON type are not modelled. Wherever the source catches such a failure, the effect is that nothing is persisted.
- The in-memory copy `workout_programs` that `start_workout` reads is taken to be the catalog document. The source reloads it from that file every time the workout view is shown.
- `datetime.now`, `strptime` and `strftime`: dates are day numbers passed in as `today`. A malformed stored date string is not modelled.
- `window.after` scheduling: ticks are explicit method calls. There is no concurrency in the source.
- `Session.Fraction`: the progress value is an exact real number, while the source computes a floating-point number. Rounding is not modelled.
- `hsv_to_rgb`, `animate_circles`, the pulse effect and the logo colour cycle: floating-point `sin`/`cos` and wall-clock numerics, purely cosmetic.
- `save_user_settings` and the avatar initials: Python `int()` and `str.upper()` library semantics over file I/O.
- The statistics view, which only displays the documents.
- Exercise entries are opaque strings; only their number is used by the core.
