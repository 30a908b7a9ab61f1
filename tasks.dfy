/**
 * The homework records, the whole-hour distance to a deadline, the reminder
 * notices and the numbered listing: the pure part of the reminder.
 *
 * Time is a point on the local timeline (no time zone), counted in
 * nanoseconds from an arbitrary origin, the resolution of a local date-time.
 */
module Tasks {
  import opened Wrappers

  type Instant = int

  const NanosPerHour: int := 3_600_000_000_000

  /** One homework item: its name and its deadline. */
  datatype Homework = Homework(name: string, deadline: Instant)

  /**
   * The number of complete hours from `now` to `deadline`, truncated toward
   * zero: positive when the deadline lies at least an hour ahead, negative
   * when it lies at least an hour behind, zero within an hour either way.
   */
  function HoursBetween(now: Instant, deadline: Instant): (h: int)
    ensures now <= deadline ==>
      0 <= h && h * NanosPerHour <= deadline - now < (h + 1) * NanosPerHour
    ensures deadline < now ==>
      h <= 0 && (h - 1) * NanosPerHour < deadline - now <= h * NanosPerHour
  {
    var d := deadline - now;
    if d >= 0 then d / NanosPerHour else -((-d) / NanosPerHour)
  }

  /** The whole hours left before a homework item is due. */
  function HoursToDeadline(hw: Homework, now: Instant): (h: int)
    ensures h > 0 <==> hw.deadline - now >= NanosPerHour
    ensures h <= 24 <==> hw.deadline - now < 25 * NanosPerHour
  {
    HoursBetween(now, hw.deadline)
  }

  // ---------------------------------------------------------------------
  // Reminder notices

  datatype Notice =
    | Urgent(name: string, hours: int)
    | Overdue(name: string)
    | NothingUrgent

  /**
   * The notice one record produces during a reminder check: urgent when it
   * is due within (0, 24] whole hours, overdue at zero or fewer whole hours,
   * none beyond 24 hours.
   */
  function NoticeFor(hw: Homework, now: Instant): (r: seq<Notice>)
    ensures |r| <= 1
    ensures r != [] <==> IsDue(hw, now)
  {
    var hours := HoursToDeadline(hw, now);
    if hours > 0 && hours <= 24 then [Urgent(hw.name, hours)]
    else if hours <= 0 then [Overdue(hw.name)]
    else []
  }

  /** True when a record is urgent or overdue at `now`. */
  predicate IsDue(hw: Homework, now: Instant)
    ensures IsDue(hw, now) <==> hw.deadline < now + 25 * NanosPerHour
  {
    HoursToDeadline(hw, now) <= 24
  }

  /** True when some record of the store is urgent or overdue at `now`. */
  predicate AnyDue(store: seq<Homework>, now: Instant)
    ensures AnyDue(store, now) <==>
      exists i :: 0 <= i < |store| && store[i].deadline < now + 25 * NanosPerHour
  {
    exists i :: 0 <= i < |store| && IsDue(store[i], now)
  }

  /** The per-record notices of a check, in store order. */
  function Notices(store: seq<Homework>, now: Instant): (r: seq<Notice>)
    ensures |r| <= |store|
    ensures NothingUrgent !in r
  {
    if store == [] then [] else NoticeFor(store[0], now) + Notices(store[1..], now)
  }

  /**
   * Everything a reminder check reports after its header: the per-record
   * notices, then the "nothing urgent" message when no record was due.
   */
  function Report(store: seq<Homework>, now: Instant): (r: seq<Notice>)
    ensures NothingUrgent in r <==> !AnyDue(store, now)
  {
    Notices(store, now) + (if AnyDue(store, now) then [] else [NothingUrgent])
  }

  /** A single record yields exactly the notice its whole-hour distance calls for. */
  lemma NoticeClassification(hw: Homework, now: Instant)
    ensures var h := HoursToDeadline(hw, now);
      && (0 < h <= 24 <==> NoticeFor(hw, now) == [Urgent(hw.name, h)])
      && (h <= 0 <==> NoticeFor(hw, now) == [Overdue(hw.name)])
      && (h > 24 <==> NoticeFor(hw, now) == [])
  {
  }

  /**
   * The classification in terms of time alone: no notice for a deadline 25
   * hours or more ahead, overdue for one less than an hour ahead or already
   * past, and urgent, with its whole hours, in between.
   */
  lemma ClassifyByDistance(hw: Homework, now: Instant)
    ensures NoticeFor(hw, now) == [] <==> hw.deadline - now >= 25 * NanosPerHour
    ensures NoticeFor(hw, now) == [Overdue(hw.name)] <==> hw.deadline - now < NanosPerHour
    ensures NoticeFor(hw, now) == [Urgent(hw.name, HoursToDeadline(hw, now))]
        <==> NanosPerHour <= hw.deadline - now < 25 * NanosPerHour
  {
  }

  /** A deadline less than an hour ahead counts zero whole hours and so is overdue. */
  lemma SubHourAheadIsOverdue(hw: Homework, now: Instant)
    requires now <= hw.deadline < now + NanosPerHour
    ensures HoursToDeadline(hw, now) == 0
    ensures NoticeFor(hw, now) == [Overdue(hw.name)]
  {
  }

  /** A deadline exactly `k` hours ahead, 0 < k <= 24, is urgent with `k` hours. */
  lemma WholeHoursAheadIsUrgent(hw: Homework, now: Instant, k: int)
    requires 0 < k <= 24 && hw.deadline == now + k * NanosPerHour
    ensures NoticeFor(hw, now) == [Urgent(hw.name, k)]
  {
  }

  /** The notices of two stores placed one after the other. */
  lemma {:induction false} NoticesAppend(s: seq<Homework>, t: seq<Homework>, now: Instant)
    ensures Notices(s + t, now) == Notices(s, now) + Notices(t, now)
  {
    if s == [] {
      assert s + t == t;
    } else {
      assert (s + t)[1..] == s[1..] + t;
      NoticesAppend(s[1..], t, now);
    }
  }

  /**
   * Record `i` contributes exactly its own notice, between the notices of the
   * records before it and those after it: at most one notice per record, in
   * store order.
   */
  lemma NoticesSplit(store: seq<Homework>, now: Instant, i: int)
    requires 0 <= i < |store|
    ensures Notices(store, now)
         == Notices(store[..i], now) + NoticeFor(store[i], now) + Notices(store[i + 1..], now)
  {
    assert store == store[..i] + ([store[i]] + store[i + 1..]);
    NoticesAppend(store[..i], [store[i]] + store[i + 1..], now);
    NoticesAppend([store[i]], store[i + 1..], now);
    assert Notices([store[i]], now) == NoticeFor(store[i], now);
  }

  /**
   * The notice of a due record sits at the position counted by the notices of
   * the records before it, and a later due record's notice comes after it.
   */
  lemma NoticeOrder(store: seq<Homework>, now: Instant, i: int, j: int)
    requires 0 <= i < j < |store| && IsDue(store[i], now)
    ensures var p := |Notices(store[..i], now)|;
      && p < |Notices(store[..j], now)|
      && p < |Notices(store, now)| && |NoticeFor(store[i], now)| == 1
      && Notices(store, now)[p] == NoticeFor(store[i], now)[0]
  {
    NoticeClassification(store[i], now);
    NoticesSplit(store, now, i);
    NoticesSplit(store[..j], now, i);
    assert store[..j][..i] == store[..i];
  }

  /** No notice is produced exactly when no record is urgent or overdue. */
  lemma {:induction false} NoticesEmptyIff(store: seq<Homework>, now: Instant)
    ensures Notices(store, now) == [] <==> !AnyDue(store, now)
  {
    if store != [] {
      NoticesEmptyIff(store[1..], now);
      NoticeClassification(store[0], now);
      if AnyDue(store[1..], now) {
        var i :| 0 <= i < |store[1..]| && IsDue(store[1..][i], now);
        assert IsDue(store[i + 1], now);
      }
      if AnyDue(store, now) && !IsDue(store[0], now) {
        var i :| 0 <= i < |store| && IsDue(store[i], now);
        assert IsDue(store[1..][i - 1], now);
      }
    }
  }

  /** A store with one more record has a due record exactly when the old store or the new record does. */
  lemma AnyDueAppend(store: seq<Homework>, hw: Homework, now: Instant)
    ensures AnyDue(store + [hw], now) <==> AnyDue(store, now) || IsDue(hw, now)
  {
    var longer := store + [hw];
    if AnyDue(longer, now) && !IsDue(hw, now) {
      var i :| 0 <= i < |longer| && IsDue(longer[i], now);
      assert IsDue(store[i], now);
    }
    if AnyDue(store, now) {
      var i :| 0 <= i < |store| && IsDue(store[i], now);
      assert IsDue(longer[i], now);
    }
    if IsDue(hw, now) {
      assert IsDue(longer[|store|], now);
    }
  }

  /**
   * The "nothing urgent" message is reported exactly when no record is
   * urgent or overdue (the empty store included), and it is then the only
   * message of the report.
   */
  lemma NothingUrgentIff(store: seq<Homework>, now: Instant)
    ensures NothingUrgent in Report(store, now)
        <==> forall i :: 0 <= i < |store| ==> HoursToDeadline(store[i], now) > 24
    ensures NothingUrgent in Report(store, now) ==> Report(store, now) == [NothingUrgent]
  {
    NoticesEmptyIff(store, now);
  }

  // ---------------------------------------------------------------------
  // Adding a record

  /** The store after an add whose deadline text parsed to `parsed`. */
  function Added(store: seq<Homework>, name: string, parsed: Option<Instant>): (r: seq<Homework>)
    ensures parsed.None? ==> r == store
    ensures parsed.Some? ==>
      |r| == |store| + 1 && r[..|store|] == store && r[|store|] == Homework(name, parsed.value)
  {
    match parsed
    case None => store
    case Some(deadline) => store + [Homework(name, deadline)]
  }

  // ---------------------------------------------------------------------
  // The numbered listing

  /** One line of the listing: a 1-based ordinal, a name and a deadline. */
  datatype Entry = Entry(ordinal: nat, name: string, deadline: Instant)

  datatype Listing = NoHomework | Entries(entries: seq<Entry>)

  /** The records of `store` numbered from `first` on, in store order. */
  function Numbered(store: seq<Homework>, first: nat): (r: seq<Entry>)
    ensures |r| == |store|
    ensures forall i :: 0 <= i < |store| ==>
      r[i] == Entry(first + i, store[i].name, store[i].deadline)
  {
    if store == [] then []
    else [Entry(first, store[0].name, store[0].deadline)] + Numbered(store[1..], first + 1)
  }

  /**
   * What listing the store shows: the empty message for an empty store,
   * otherwise entry `i` numbered `i + 1` with the `i`-th record.
   */
  function ListingOf(store: seq<Homework>): (r: Listing)
    ensures r == NoHomework <==> store == []
    ensures r.Entries? ==> |r.entries| == |store| && forall i :: 0 <= i < |store| ==>
      r.entries[i] == Entry(i + 1, store[i].name, store[i].deadline)
  {
    if store == [] then NoHomework else Entries(Numbered(store, 1))
  }

  /** The record an entry of the listing shows. */
  function RecordOf(e: Entry): Homework
  {
    Homework(e.name, e.deadline)
  }

  /** The records a sequence of entries shows, in order. */
  function Records(entries: seq<Entry>): (r: seq<Homework>)
    ensures |r| == |entries|
    ensures forall i :: 0 <= i < |entries| ==> r[i] == RecordOf(entries[i])
  {
    if entries == [] then [] else [RecordOf(entries[0])] + Records(entries[1..])
  }

  /** A listing shows every record of the store, and nothing else, in store order. */
  lemma ListingRoundTrip(store: seq<Homework>)
    requires store != []
    ensures Records(ListingOf(store).entries) == store
  {
    var r := Records(ListingOf(store).entries);
    assert |r| == |store|;
    forall i | 0 <= i < |store| ensures r[i] == store[i] {
      assert ListingOf(store).entries[i] == Entry(i + 1, store[i].name, store[i].deadline);
    }
  }

  /**
   * After a successful add, the listing keeps every earlier entry as it was
   * and shows the new record last, numbered one past the old store's size.
   */
  lemma AddThenList(store: seq<Homework>, name: string, deadline: Instant)
    ensures var after := ListingOf(Added(store, name, Some(deadline)));
      && after.Entries?
      && |after.entries| == |store| + 1
      && after.entries[|store|] == Entry(|store| + 1, name, deadline)
      && (store != [] ==> after.entries[..|store|] == ListingOf(store).entries)
  {
  }
}
