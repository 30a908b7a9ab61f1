/**
 * The reminder program itself: one object owning the in-memory homework
 * list, whose operations add to it, list it, check it for due items and
 * dispatch menu choices over it.
 */
module Reminder {
  import opened Wrappers
  import opened Tasks
  import opened Menu

  class HomeworkReminder {
    /** Every record added so far, in the order it was added. */
    var homework: seq<Homework>

    constructor ()
      ensures homework == []
    {
      homework := [];
    }

    /**
     * Adds a record when the deadline text parsed (`parsed` is the outcome of
     * that parse) and reports whether it did; a failed parse changes nothing.
     */
    method AddHomework(name: string, parsed: Option<Instant>) returns (added: bool)
      modifies this
      ensures added <==> parsed.Some?
      ensures homework == Added(old(homework), name, parsed)
    {
      match parsed {
        case Some(deadline) =>
          homework := homework + [Homework(name, deadline)];
          added := true;
        case None =>
          added := false;
      }
    }

    /** The listing of every record, numbered from 1 in insertion order. */
    method ShowAllHomework() returns (listing: Listing)
      ensures listing == ListingOf(homework)
    {
      if homework == [] {
        return NoHomework;
      }
      var entries := [];
      for i := 0 to |homework|
        invariant |entries| == i
        invariant forall j :: 0 <= j < i ==>
          entries[j] == Entry(j + 1, homework[j].name, homework[j].deadline)
      {
        var hw := homework[i];
        entries := entries + [Entry(i + 1, hw.name, hw.deadline)];
      }
      listing := Entries(entries);
      assert listing.entries == ListingOf(homework).entries;
    }

    /**
     * Classifies every record at clock reading `now`: the notices of the
     * urgent and overdue records in store order, then the "nothing urgent"
     * message when there were none. The store is only read.
     */
    method CheckReminders(now: Instant) returns (report: seq<Notice>)
      ensures report == Report(homework, now)
    {
      var hasUrgent := false;
      report := [];
      for i := 0 to |homework|
        invariant report == Notices(homework[..i], now)
        invariant hasUrgent <==> AnyDue(homework[..i], now)
      {
        var hw := homework[i];
        var hours := HoursToDeadline(hw, now);
        assert homework[..i + 1] == homework[..i] + [hw];
        NoticesAppend(homework[..i], [hw], now);
        AnyDueAppend(homework[..i], hw, now);
        if hours > 0 && hours <= 24 {
          report := report + [Urgent(hw.name, hours)];
          hasUrgent := true;
        } else if hours <= 0 {
          report := report + [Overdue(hw.name)];
          hasUrgent := true;
        }
      }
      assert homework[..|homework|] == homework;
      if !hasUrgent {
        report := report + [NothingUrgent];
      }
    }

    /**
     * One round of the menu for an integer choice: 1 adds, 2 lists, 3 checks,
     * 0 says farewell and asks the loop to stop, and anything else is
     * reported as an invalid choice.
     */
    method Dispatch(input: Input) returns (outcome: Outcome, exit: bool)
      modifies this
      ensures Round(homework, outcome) == Step(old(homework), input)
      ensures exit <==> input.choice == 0
    {
      exit := false;
      match input.choice {
        case 1 =>
          var added := AddHomework(input.name, input.parsed);
          outcome := AddResult(added);
        case 2 =>
          var listing := ShowAllHomework();
          outcome := ListResult(listing);
        case 3 =>
          var report := CheckReminders(input.now);
          outcome := CheckResult(report);
        case 0 =>
          outcome := Farewell;
          exit := true;
        case _ =>
          outcome := InvalidChoice(input.choice);
      }
    }

    /**
     * The menu loop over a finite run of inputs: dispatches round after round
     * until a round chooses 0 or the inputs run out.
     */
    method MenuLoop(inputs: seq<Input>) returns (outputs: seq<Outcome>, exited: bool)
      modifies this
      ensures Run(old(homework), inputs) == Session(homework, outputs, exited)
    {
      outputs, exited := [], false;
      var i := 0;
      while i < |inputs| && !exited
        invariant 0 <= i <= |inputs|
        invariant exited ==> Run(old(homework), inputs) == Session(homework, outputs, true)
        invariant !exited ==>
          var rest := Run(homework, inputs[i..]);
          Run(old(homework), inputs) == Session(rest.store, outputs + rest.outputs, rest.exited)
        decreases |inputs| - i, !exited
      {
        ghost var before := homework;
        assert inputs[i..][1..] == inputs[i + 1..];
        var outcome, exit := Dispatch(inputs[i]);
        outputs := outputs + [outcome];
        if exit {
          exited := true;
        } else {
          assert [outcome] + Run(homework, inputs[i + 1..]).outputs
              == Run(before, inputs[i..]).outputs;
          i := i + 1;
        }
      }
      if !exited {
        assert inputs[i..] == [];
      }
    }
  }
}
