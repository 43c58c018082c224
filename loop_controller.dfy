/**
 * The implement-loop stop hook: a small state machine over the loop-state record kept in
 * `.claude/.loop-state.json`. Each invocation either ends the session (exit 0) or bumps the
 * iteration, re-injects the command on stdout and continues the loop (exit 2).
 */
module LoopControl {
  import opened Wrappers
  import opened Strings

  /**
   * The `active` key: missing, a JSON boolean, or any other JSON value together with its
   * Python truthiness (`1`, `"yes"` are truthy; `0`, `""`, `null` are not).
   */
  datatype Active = Absent | Flag(b: bool) | Other(truthy: bool)

  /** `bool(state.get("active"))`. */
  predicate Truthy(a: Active) {
    match a
    case Absent => false
    case Flag(b) => b
    case Other(t) => t
  }

  /** The keys the hooks read; a missing key is None. Other keys of the record are not modelled. */
  datatype LoopState = LoopState(
    active: Active,
    command: Option<string>,
    completionSignal: Option<string>,
    maxIterations: Option<int>,
    iteration: Option<int>)

  /** The state file's content: a decoded record, or text `json.loads` rejects. */
  datatype StateFile = Parsed(state: LoopState) | Unparseable

  /** The defaults of lines 41-44. */
  const DefaultMax := 50
  const DefaultIteration := 1

  function Signal(st: LoopState): string { st.completionSignal.GetOr("") }
  function MaxOf(st: LoopState): int { st.maxIterations.GetOr(DefaultMax) }
  function IterationOf(st: LoopState): int { st.iteration.GetOr(DefaultIteration) }
  function CommandOf(st: LoopState): string { st.command.GetOr("") }

  /** The state file after the run (None: deleted or never there), the exit code and the stdout. */
  datatype Outcome = Outcome(file: Option<StateFile>, exitCode: int, printed: Option<string>)

  /** An active state whose output carries the non-empty completion signal. */
  predicate Completes(st: LoopState, output: string) {
    Signal(st) != "" && Contains(output, Signal(st))
  }

  /**
   * One invocation of the hook given the state file and the assistant's last output. An absent,
   * unparseable or inactive state: exit 0 with the file untouched. A present non-empty
   * signal stops first; then running out of iterations stops; a stop deletes the file and
   * exits 0. Only the continue path exits 2, changing `iteration` alone, by one, and printing
   * the command.
   */
  function Transition(file: Option<StateFile>, output: string): (r: Outcome)
    ensures !IsActive(file) ==> r == Outcome(file, 0, None)
    ensures r.exitCode == 2 <==> Continues(file, output)
    ensures !Continues(file, output) ==> r.exitCode == 0 && r.printed.None?
    ensures IsActive(file) && !Continues(file, output) ==> r.file.None?
    ensures IsActive(file) && Completes(file.value.state, output) ==> r == Outcome(None, 0, None)
    ensures Continues(file, output) ==>
      r.file.Some? && r.file.value.Parsed?
      && r.file.value.state.iteration == Some(IterationOf(file.value.state) + 1)
      && r.file.value.state.(iteration := file.value.state.iteration) == file.value.state
      && r.printed == Some(CommandOf(file.value.state))
  {
    match file
    case None => Outcome(None, 0, None)
    case Some(Unparseable) => Outcome(file, 0, None)
    case Some(Parsed(st)) =>
      if !Truthy(st.active) then Outcome(file, 0, None)
      else if Completes(st, output) then Outcome(None, 0, None)
      else if IterationOf(st) >= MaxOf(st) then Outcome(None, 0, None)
      else Outcome(Some(Parsed(st.(iteration := Some(IterationOf(st) + 1)))), 2, Some(CommandOf(st)))
  }

  /** A decoded state file whose `active` is truthy. */
  predicate IsActive(file: Option<StateFile>) {
    file.Some? && file.value.Parsed? && Truthy(file.value.state.active)
  }

  /** The loop goes on: an active state, no completion signal, and iterations left. */
  predicate Continues(file: Option<StateFile>, output: string) {
    IsActive(file) && !Completes(file.value.state, output)
    && IterationOf(file.value.state) < MaxOf(file.value.state)
  }

  /** The hook holding the state file, which `Step` rewrites or deletes in place. */
  class Controller {
    var stateFile: Option<StateFile>

    constructor(file: Option<StateFile>)
      ensures stateFile == file
    {
      stateFile := file;
    }

    /** `main()`: returns the exit code and what was printed. */
    method Step(output: string) returns (exitCode: int, printed: Option<string>)
      modifies this
      ensures Outcome(stateFile, exitCode, printed) == Transition(old(stateFile), output)
    {
      printed := None;
      exitCode := 0;
      if stateFile.None? || stateFile.value.Unparseable? {
        return;
      }
      var state := stateFile.value.state;
      if !Truthy(state.active) {
        return;
      }
      var completionSignal := state.completionSignal.GetOr("");
      var maxIterations := state.maxIterations.GetOr(DefaultMax);
      var currentIteration := state.iteration.GetOr(DefaultIteration);
      var command := state.command.GetOr("");
      if completionSignal != "" && Contains(output, completionSignal) {
        stateFile := None;
        return;
      }
      if currentIteration >= maxIterations {
        stateFile := None;
        return;
      }
      state := state.(iteration := Some(currentIteration + 1));
      stateFile := Some(Parsed(state));
      printed := Some(command);
      exitCode := 2;
    }
  }

  /* ---- one step ---- */

  /** An empty signal never completes: the output then makes no difference. */
  lemma EmptySignalIgnoresOutput(st: LoopState, o1: string, o2: string)
    requires Signal(st) == ""
    ensures Transition(Some(Parsed(st)), o1) == Transition(Some(Parsed(st)), o2)
  {
  }

  /** A record holding only `active: true` runs with the defaults: iteration 1 of 50, command "". */
  lemma Defaults(output: string)
    ensures Transition(Some(Parsed(LoopState(Flag(true), None, None, None, None))), output)
      == Outcome(Some(Parsed(LoopState(Flag(true), None, None, None, Some(2)))), 2, Some(""))
  {
    var st := LoopState(Flag(true), None, None, None, None);
    assert Signal(st) == "" && IterationOf(st) == 1 && MaxOf(st) == 50;
  }

  /* ---- repeated runs ---- */

  /** The exit codes of successive runs, each on the state the previous one left. */
  function Codes(file: Option<StateFile>, outputs: seq<string>): (r: seq<int>)
    ensures |r| == |outputs|
    decreases |outputs|
  {
    if outputs == [] then []
    else
      var o := Transition(file, outputs[0]);
      [o.exitCode] + Codes(o.file, outputs[1..])
  }

  /** The state file after successive runs. */
  function After(file: Option<StateFile>, outputs: seq<string>): Option<StateFile>
    decreases |outputs|
  {
    if outputs == [] then file else After(Transition(file, outputs[0]).file, outputs[1..])
  }

  /** How many more times an active state continues before it is deleted. */
  function Budget(st: LoopState): nat {
    if IterationOf(st) >= MaxOf(st) then 0 else MaxOf(st) - IterationOf(st)
  }

  /** Once the file is gone every run exits 0 and nothing is created. */
  lemma {:induction false} AbsentStaysAbsent(outputs: seq<string>)
    ensures forall k :: 0 <= k < |outputs| ==> Codes(None, outputs)[k] == 0
    ensures After(None, outputs) == None
  {
    if outputs != [] {
      AbsentStaysAbsent(outputs[1..]);
    }
  }

  /**
   * Without the completion signal in any output, an active state continues exactly
   * `max(0, maxIterations - iteration)` times and is deleted by the next run, after which
   * every run exits 0.
   */
  lemma {:induction false} RunsOut(st: LoopState, outputs: seq<string>)
    requires Truthy(st.active)
    requires forall k :: 0 <= k < |outputs| ==> !Completes(st, outputs[k])
    ensures forall k :: 0 <= k < |outputs| ==>
      Codes(Some(Parsed(st)), outputs)[k] == (if k < Budget(st) then 2 else 0)
    ensures |outputs| > Budget(st) ==> After(Some(Parsed(st)), outputs) == None
    decreases |outputs|
  {
    if outputs != [] {
      var file := Some(Parsed(st));
      var o := Transition(file, outputs[0]);
      var rest := outputs[1..];
      if Budget(st) == 0 {
        assert o.file == None;
        AbsentStaysAbsent(rest);
      } else {
        var st' := st.(iteration := Some(IterationOf(st) + 1));
        assert o.file == Some(Parsed(st'));
        assert Budget(st') == Budget(st) - 1;
        assert Signal(st') == Signal(st);
        forall k | 0 <= k < |rest|
          ensures !Completes(st', rest[k])
        {
          assert rest[k] == outputs[k + 1];
        }
        RunsOut(st', rest);
      }
    }
  }
}
