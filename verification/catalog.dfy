/**
  The workout catalog document: program ids mapped to programs, and the two
  edits the program-management screen makes to it.
*/
module Catalog {
  import opened Wrappers
  import opened Decimal

  /** An exercise entry; the core only ever counts them. */
  type Exercise = string

  /** A selectable duration: seconds, display name, calories burnt. */
  datatype Duration = Duration(time: int, name: string, calories: int)

  datatype Program = Program(name: string, description: string, durations: seq<Duration>, exercises: seq<Exercise>)

  type Programs = map<string, Program>

  /** The three durations every saved program gets. */
  const DefaultDurations: seq<Duration> :=
    [Duration(15, "15 sec", 20), Duration(30, "30 sec", 40), Duration(60, "60 sec", 80)]

  /** The program `save_program` writes: the form's name and description, the
      default durations and no exercises. */
  function NewProgram(name: string, description: string): Program
  {
    Program(name, description, DefaultDurations, [])
  }

  /** The id a new program gets in a catalog of `count` programs. */
  function NewProgramId(count: nat): (id: string)
    ensures |id| > 8 && id[..8] == "program_"
    ensures AllDigits(id[8..]) && ValueOf(id[8..]) == count + 1
  {
    DigitsRoundTrip(count + 1);
    var id := "program_" + Digits(count + 1);
    assert id[8..] == Digits(count + 1);
    id
  }

  /** The key `save_program` writes under: the given id, or a new one. */
  function TargetId(programs: Programs, id: Option<string>): (key: string)
    ensures id.Some? ==> key == id.value
    ensures id.None? ==> |key| > 8 && key[..8] == "program_" && AllDigits(key[8..]) && ValueOf(key[8..]) == |programs| + 1
  {
    match id
    case Some(key) => key
    case None => NewProgramId(|programs|)
  }

  /** The catalog after `save_program`. */
  function SaveProgram(programs: Programs, id: Option<string>, name: string, description: string): (saved: Programs)
    ensures saved.Keys == programs.Keys + {TargetId(programs, id)}
    ensures saved[TargetId(programs, id)] == Program(name, description, DefaultDurations, [])
    ensures forall k :: k in programs && k != TargetId(programs, id) ==> saved[k] == programs[k]
  {
    programs[TargetId(programs, id) := NewProgram(name, description)]
  }

  datatype DeleteOutcome = Deleted | NotFound | Cancelled

  /** The catalog after `delete_program`, and what the user is told. */
  function DeleteProgram(programs: Programs, id: string, confirmed: bool): (r: (Programs, DeleteOutcome))
    ensures r.1 == Deleted <==> confirmed && id in programs
    ensures r.1 == Deleted ==> r.0.Keys == programs.Keys - {id}
    ensures forall k :: k in r.0 ==> k in programs && r.0[k] == programs[k]
    ensures r.1 != Deleted ==> r.0 == programs
  {
    if !confirmed then (programs, Cancelled)
    else if id in programs then (programs - {id}, Deleted)
    else (programs, NotFound)
  }

  /** Saving stores the new program under the target id, overwriting whatever
      was there, and keeps every other entry; the catalog grows by one exactly
      when the target id was not in use. */
  lemma SaveProgramStores(programs: Programs, id: Option<string>, name: string, description: string)
    ensures var saved := SaveProgram(programs, id, name, description);
      var key := TargetId(programs, id);
      && saved.Keys == programs.Keys + {key}
      && saved[key] == Program(name, description, DefaultDurations, [])
      && (forall k :: k in programs && k != key ==> saved[k] == programs[k])
      && |saved| == if key in programs then |programs| else |programs| + 1
  {
  }

  /** Deleting removes exactly the given id when the user confirms and it is
      present; otherwise the catalog is unchanged and the outcome says why. */
  lemma DeleteProgramRemoves(programs: Programs, id: string, confirmed: bool)
    ensures var (after, outcome) := DeleteProgram(programs, id, confirmed);
      && (outcome == Deleted <==> confirmed && id in programs)
      && (outcome == NotFound <==> confirmed && id !in programs)
      && (outcome == Deleted ==> after.Keys == programs.Keys - {id} && |after| == |programs| - 1)
      && (outcome != Deleted ==> after == programs)
      && (forall k :: k in after ==> k in programs && after[k] == programs[k])
  {
  }

  /** Deleting what was just saved under a given id undoes the save when the id
      was new, and otherwise leaves the catalog without that id. */
  lemma DeleteUndoesSave(programs: Programs, id: string, name: string, description: string)
    ensures DeleteProgram(SaveProgram(programs, Some(id), name, description), id, true) == (programs - {id}, Deleted)
    ensures id !in programs ==> programs - {id} == programs
  {
    var saved := SaveProgram(programs, Some(id), name, description);
    assert (saved - {id}).Keys == (programs - {id}).Keys;
    assert saved - {id} == programs - {id};
    assert id in saved;
  }

  /** Two different counts give two different new ids. */
  lemma NewProgramIdInjective(m: nat, n: nat)
    ensures NewProgramId(m) == NewProgramId(n) <==> m == n
  {
  }

  /** While the catalog holds only ids `program_1` .. `program_N` for N its size,
      the id given to a new program is unused. */
  lemma NewIdFreshWhileNumbered(programs: Programs)
    requires forall k :: k in programs ==> exists i :: 0 <= i < |programs| && k == NewProgramId(i)
    ensures NewProgramId(|programs|) !in programs
    ensures |SaveProgram(programs, None, "", "")| == |programs| + 1
  {
  }

  /** After a deletion the new id can be one still in use: with only
      `program_2` left, a new program is saved as `program_2` and replaces it. */
  lemma NewIdCanOverwrite(previous: Program, name: string, description: string)
    ensures var programs := map["program_2" := previous];
      var saved := SaveProgram(programs, None, name, description);
      && NewProgramId(|programs|) == "program_2"
      && |saved| == 1
      && saved["program_2"] == NewProgram(name, description)
  {
  }
}
