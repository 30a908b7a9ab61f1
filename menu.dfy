/**
 * The menu loop as a state machine over the homework store: each round
 * reads one integer choice and runs one operation; choice 0 is the only
 * way out, and every other unknown choice is reported and the loop goes on.
 */
module Menu {
  import opened Wrappers
  import opened Tasks

  /**
   * What one round of the menu reads: the integer choice and, for the
   * operations that need them, the name typed and the parsed deadline
   * (choice 1) and the clock reading (choice 3).
   */
  datatype Input = Input(choice: int, name: string, parsed: Option<Instant>, now: Instant)

  /** What one round reports. */
  datatype Outcome =
    | AddResult(added: bool)
    | ListResult(listing: Listing)
    | CheckResult(report: seq<Notice>)
    | Farewell
    | InvalidChoice(choice: int)

  /** One round of the menu: the store afterwards and what was reported. */
  datatype Round = Round(store: seq<Homework>, outcome: Outcome)

  function Step(store: seq<Homework>, input: Input): (r: Round)
    ensures input.choice == 1 ==>
      r == Round(Added(store, input.name, input.parsed), AddResult(input.parsed.Some?))
    ensures input.choice != 1 ==> r.store == store
    ensures r.outcome == Farewell <==> input.choice == 0
    ensures input.choice == 2 ==> r.outcome == ListResult(ListingOf(store))
    ensures input.choice == 3 ==> r.outcome == CheckResult(Report(store, input.now))
    ensures input.choice !in {0, 1, 2, 3} ==> r.outcome == InvalidChoice(input.choice)
  {
    match input.choice
    case 1 => Round(Added(store, input.name, input.parsed), AddResult(input.parsed.Some?))
    case 2 => Round(store, ListResult(ListingOf(store)))
    case 3 => Round(store, CheckResult(Report(store, input.now)))
    case 0 => Round(store, Farewell)
    case _ => Round(store, InvalidChoice(input.choice))
  }

  /** The state of a session after a run of rounds. */
  datatype Session = Session(store: seq<Homework>, outputs: seq<Outcome>, exited: bool)

  /**
   * Runs the menu over the given inputs from `store`, stopping after the
   * round that chose 0, or when the inputs run out.
   */
  function Run(store: seq<Homework>, inputs: seq<Input>): (r: Session)
    ensures |r.outputs| <= |inputs|
    ensures r.exited ==> r.outputs != [] && r.outputs[|r.outputs| - 1] == Farewell
    decreases |inputs|
  {
    if inputs == [] then Session(store, [], false)
    else
      var round := Step(store, inputs[0]);
      if inputs[0].choice == 0 then Session(round.store, [round.outcome], true)
      else
        var rest := Run(round.store, inputs[1..]);
        Session(rest.store, [round.outcome] + rest.outputs, rest.exited)
  }

  /** The number of rounds before the first that chooses 0 (all of them if none does). */
  function RoundsBeforeExit(inputs: seq<Input>): (n: nat)
    ensures n <= |inputs|
    ensures forall k :: 0 <= k < n ==> inputs[k].choice != 0
    ensures n < |inputs| ==> inputs[n].choice == 0
  {
    if inputs == [] || inputs[0].choice == 0 then 0 else 1 + RoundsBeforeExit(inputs[1..])
  }

  /** The records the successful adds among `inputs` append, in input order. */
  function AddedRecords(inputs: seq<Input>): (r: seq<Homework>)
    ensures |r| <= |inputs|
  {
    if inputs == [] then []
    else
      var first := inputs[0];
      (if first.choice == 1 && first.parsed.Some? then [Homework(first.name, first.parsed.value)] else [])
      + AddedRecords(inputs[1..])
  }

  /**
   * The session ends exactly when some round chooses 0; it then stops at the
   * first such round, whose report is the only farewell, and every earlier
   * round is reported in order.
   */
  lemma {:induction false} RunExitsOnlyOnZero(store: seq<Homework>, inputs: seq<Input>)
    decreases |inputs|
    ensures var r := Run(store, inputs); var n := RoundsBeforeExit(inputs);
      && (r.exited <==> n < |inputs|)
      && |r.outputs| == (if r.exited then n + 1 else |inputs|)
      && forall k :: 0 <= k < |r.outputs| ==> (r.outputs[k] == Farewell <==> k == n)
  {
    if inputs != [] && inputs[0].choice != 0 {
      var round := Step(store, inputs[0]);
      RunExitsOnlyOnZero(round.store, inputs[1..]);
      var rest := Run(round.store, inputs[1..]);
      assert Run(store, inputs).outputs == [round.outcome] + rest.outputs;
    }
  }

  /** One round appends the record of a successful add and nothing else. */
  lemma StepAppends(store: seq<Homework>, input: Input)
    ensures Step(store, input).store == store + AddedRecords([input])
  {
    assert [input][1..] == [];
  }

  /**
   * The store only grows, and only by the records of successful adds: after
   * a session it is the starting store followed by what the adds of the
   * rounds it ran appended, in order.
   */
  lemma {:induction false} RunAppendOnly(store: seq<Homework>, inputs: seq<Input>)
    ensures var r := Run(store, inputs); var n := RoundsBeforeExit(inputs);
      r.store == store + AddedRecords(inputs[..n])
    decreases |inputs|
  {
    var n := RoundsBeforeExit(inputs);
    if inputs == [] || inputs[0].choice == 0 {
      assert inputs[..n] == [];
    } else {
      var first, rest := inputs[0], inputs[1..];
      var next := Step(store, first).store;
      StepAppends(store, first);
      RunAppendOnly(next, rest);
      assert Run(store, inputs).store == Run(next, rest).store;
      var taken := inputs[..n];
      assert taken[0] == first && taken[1..] == rest[..n - 1];
      assert AddedRecords(taken) == AddedRecords([first]) + AddedRecords(rest[..n - 1]);
    }
  }

  /** Hence what was stored before a session stays, unchanged, at its front. */
  lemma RunKeepsEarlierRecords(store: seq<Homework>, inputs: seq<Input>)
    ensures var r := Run(store, inputs);
      |store| <= |r.store| && r.store[..|store|] == store
  {
    RunAppendOnly(store, inputs);
  }
}
