/**
 * The completion ledger (an append-only list of completion records under one
 * storage key) and the per-user progress summary computed from it.
 *
 * Calendar days are integers: the caller supplies `dayOf`, the local calendar
 * day of a timestamp, and consecutive days differ by one.
 */
module Completion {
  import opened Wrappers
  import opened Storage
  import Sequences

  datatype CompletedSession = CompletedSession(
    sessionId: string,
    userId: string,
    completedAt: Timestamp,
    duration: int)          // minutes practised

  datatype UserProgress = UserProgress(
    totalCompletedSessions: nat,
    totalMinutesPracticed: int,
    currentStreak: nat,
    lastCompletionDate: Option<Timestamp>)

  /** Local calendar day of a timestamp. */
  type DayOf = Timestamp -> int

  function OfUser(userId: string): CompletedSession -> bool {
    (c: CompletedSession) => c.userId == userId
  }

  /** The records of one user, in ledger order. */
  function ByUser(records: seq<CompletedSession>, userId: string): (r: seq<CompletedSession>)
    ensures forall c :: c in r <==> c in records && c.userId == userId
    ensures Sequences.IsSubsequence(r, records)
  {
    Sequences.FilterSubsequence(records, OfUser(userId));
    Sequences.Filter(records, OfUser(userId))
  }

  /** Sum of the `duration` fields, folded from the left as `reduce` does. */
  function TotalMinutes(records: seq<CompletedSession>): (r: int)
    ensures (forall i :: 0 <= i < |records| ==> records[i].duration >= 0) ==>
              0 <= r && forall i :: 0 <= i < |records| ==> records[i].duration <= r
  {
    if records == [] then 0
    else
      var front := records[..|records| - 1];
      assert forall i :: 0 <= i < |front| ==> front[i] == records[i];
      TotalMinutes(front) + records[|records| - 1].duration
  }

  /** The latest completion time: what is first after sorting newest-first. */
  function Latest(records: seq<CompletedSession>): (t: Timestamp)
    requires records != []
    ensures exists i :: 0 <= i < |records| && records[i].completedAt == t
    ensures forall i :: 0 <= i < |records| ==> records[i].completedAt <= t
  {
    if |records| == 1 then records[0].completedAt
    else
      var rest := Latest(records[1..]);
      assert forall i :: 1 <= i < |records| ==> records[i] == records[1..][i - 1];
      if records[0].completedAt >= rest then records[0].completedAt else rest
  }

  /** The calendar days on which at least one of the records was completed. */
  function DaysOf(records: seq<CompletedSession>, dayOf: DayOf): set<int> {
    set c | c in records :: dayOf(c.completedAt)
  }

  /** The active days no later than `d`. */
  function DaysUpTo(days: set<int>, d: int): set<int> {
    set x | x in days && x <= d
  }

  lemma DaysUpToStep(days: set<int>, d: int)
    ensures DaysUpTo(days, d - 1) == DaysUpTo(days, d) - {d}
    ensures d in days ==> |DaysUpTo(days, d - 1)| == |DaysUpTo(days, d)| - 1
    ensures d !in days ==> DaysUpTo(days, d - 1) == DaysUpTo(days, d)
  {
  }

  /** Length of the run of consecutive active days that ends at day `d`. */
  function RunLength(days: set<int>, d: int): (n: nat)
    ensures n == 0 <==> d !in days
    ensures n <= |DaysUpTo(days, d)|
    decreases |DaysUpTo(days, d)|
  {
    if d in days then
      DaysUpToStep(days, d);
      1 + RunLength(days, d - 1)
    else 0
  }

  /**
   * The streak: the run of active days ending at today, or at yesterday when
   * today has no record yet (the grace day).
   */
  function Streak(days: set<int>, today: int): (n: nat)
    ensures n == 0 <==> today !in days && today - 1 !in days
  {
    RunLength(days, if today in days then today else today - 1)
  }

  /** The summary `getUserProgress` reports for the records of one user. */
  function ProgressOf(records: seq<CompletedSession>, today: int, dayOf: DayOf): (p: UserProgress)
    ensures p.totalCompletedSessions == |records|
    ensures p.lastCompletionDate.None? <==> records == []
    ensures records == [] ==> p.totalMinutesPracticed == 0 && p.currentStreak == 0
  {
    if records == [] then UserProgress(0, 0, 0, None)
    else UserProgress(|records|, TotalMinutes(records), Streak(DaysOf(records, dayOf), today), Some(Latest(records)))
  }

  /** The keys of the date-to-records map `getUserProgress` fills with `forEach`. */
  method GroupByDate(completions: seq<CompletedSession>, dayOf: DayOf) returns (days: set<int>)
    ensures days == DaysOf(completions, dayOf)
  {
    days := {};
    for i := 0 to |completions|
      invariant days == DaysOf(completions[..i], dayOf)
    {
      assert completions[..i + 1] == completions[..i] + [completions[i]];
      days := days + {dayOf(completions[i].completedAt)};
    }
    assert completions[..|completions|] == completions;
  }

  /**
   * The `while (true)` walk: a cursor starts at today and moves back one day per
   * step, counting active days, stepping once past today when it has no record,
   * and stopping at the first other day without one. `graceSkips` counts the
   * steps taken past a day without a record.
   */
  method WalkStreak(days: set<int>, today: int) returns (currentStreak: nat, ghost graceSkips: nat)
    ensures currentStreak == Streak(days, today)
    ensures graceSkips == if today in days then 0 else 1
  {
    currentStreak := 0;
    graceSkips := 0;
    var checkDate := today;
    while true
      invariant checkDate <= today
      invariant checkDate == today ==> currentStreak == 0 && graceSkips == 0
      invariant checkDate < today ==> graceSkips == if today in days then 0 else 1
      invariant checkDate < today ==> currentStreak + RunLength(days, checkDate) == Streak(days, today)
      decreases |DaysUpTo(days, checkDate)| + (if checkDate == today then 1 else 0)
    {
      DaysUpToStep(days, checkDate);
      if checkDate in days {
        currentStreak := currentStreak + 1;
        checkDate := checkDate - 1;
      } else {
        if checkDate == today {
          graceSkips := graceSkips + 1;
          checkDate := checkDate - 1;
          continue;
        }
        break;
      }
    }
  }

  // ---------------------------------------------------------------------------
  // The streak

  /** The run ending at `d` is made of active days, and the day before it is not active. */
  lemma {:induction false} RunLengthSpec(days: set<int>, d: int)
    ensures forall x :: d - RunLength(days, d) < x <= d ==> x in days
    ensures d - RunLength(days, d) !in days
    decreases |DaysUpTo(days, d)|
  {
    if d in days {
      DaysUpToStep(days, d);
      RunLengthSpec(days, d - 1);
    }
  }

  /** Conversely, any run of active days ending at `d` and preceded by an inactive day has that length. */
  lemma {:induction false} RunLengthUnique(days: set<int>, d: int, n: nat)
    requires forall x :: d - n < x <= d ==> x in days
    requires d - n !in days
    ensures RunLength(days, d) == n
    decreases n
  {
    if n > 0 {
      assert d in days;
      RunLengthUnique(days, d - 1, n - 1);
    }
  }

  /**
   * The streak counts the consecutive active days ending at today, or at
   * yesterday when today has none; the first day before them is not active.
   */
  lemma StreakSpec(days: set<int>, today: int)
    ensures var end := if today in days then today else today - 1;
            && (forall x :: end - Streak(days, today) < x <= end ==> x in days)
            && end - Streak(days, today) !in days
  {
    RunLengthSpec(days, if today in days then today else today - 1);
  }

  /** The streak is at most the number of distinct days with a completion. */
  lemma StreakBound(days: set<int>, today: int)
    ensures Streak(days, today) <= |days|
  {
    var end := if today in days then today else today - 1;
    RunLengthSpec(days, end);
    assert DaysUpTo(days, end) <= days;
    SubsetCardinality(DaysUpTo(days, end), days);
  }

  lemma SubsetCardinality(a: set<int>, b: set<int>)
    requires a <= b
    ensures |a| <= |b|
  {
    assert b == a + (b - a);
    assert a * (b - a) == {};
  }

  /** More active days never make a run or the streak shorter. */
  lemma {:induction false} RunLengthMonotone(days: set<int>, more: set<int>, d: int)
    requires days <= more
    ensures RunLength(days, d) <= RunLength(more, d)
    decreases |DaysUpTo(days, d)|
  {
    if d in days {
      DaysUpToStep(days, d);
      RunLengthMonotone(days, more, d - 1);
    }
  }

  lemma StreakMonotone(days: set<int>, more: set<int>, today: int)
    requires days <= more
    ensures Streak(days, today) <= Streak(more, today)
  {
    RunLengthMonotone(days, more, today - 1);
    RunLengthMonotone(days, more, today);
  }

  /** The worked examples: no days, today only, three days up to today, yesterday and three days ago. */
  lemma StreakExamples(today: int)
    ensures Streak({}, today) == 0
    ensures Streak({today}, today) == 1
    ensures Streak({today, today - 1, today - 2}, today) == 3
    ensures Streak({today - 1, today - 3}, today) == 1
  {
    RunLengthUnique({today}, today, 1);
    RunLengthUnique({today, today - 1, today - 2}, today, 3);
    RunLengthUnique({today - 1, today - 3}, today - 1, 1);
  }

  /** Two records on the same day today: both are counted, the day once. */
  lemma SameDayTwice(a: CompletedSession, b: CompletedSession, today: int, dayOf: DayOf)
    requires dayOf(a.completedAt) == today && dayOf(b.completedAt) == today
    ensures ProgressOf([a, b], today, dayOf).totalCompletedSessions == 2
    ensures ProgressOf([a, b], today, dayOf).totalMinutesPracticed == a.duration + b.duration
    ensures ProgressOf([a, b], today, dayOf).currentStreak == 1
  {
    assert DaysOf([a, b], dayOf) == {today};
    assert [a, b][..1] == [a];
    assert [a][..0] == [];
    assert TotalMinutes([a]) == a.duration;
    assert TotalMinutes([a, b]) == TotalMinutes([a]) + b.duration;
    StreakExamples(today);
  }

  // ---------------------------------------------------------------------------
  // Totals and order independence

  lemma {:induction false} TotalMinutesAppend(a: seq<CompletedSession>, b: seq<CompletedSession>)
    ensures TotalMinutes(a + b) == TotalMinutes(a) + TotalMinutes(b)
    decreases |b|
  {
    if b == [] {
      assert a + b == a;
    } else {
      var last := |b| - 1;
      assert (a + b)[..|a + b| - 1] == a + b[..last];
      TotalMinutesAppend(a, b[..last]);
    }
  }

  lemma TotalMinutesSnoc(a: seq<CompletedSession>, x: CompletedSession)
    ensures TotalMinutes(a + [x]) == TotalMinutes(a) + x.duration
  {
    assert (a + [x])[..|a|] == a;
  }

  lemma TotalMinutesSplit(front: seq<CompletedSession>, x: CompletedSession, back: seq<CompletedSession>)
    ensures TotalMinutes(front + [x] + back) == TotalMinutes(front + back) + x.duration
  {
    TotalMinutesAppend(front + [x], back);
    TotalMinutesSnoc(front, x);
    TotalMinutesAppend(front, back);
  }

  lemma TotalMinutesRemove(b: seq<CompletedSession>, i: nat)
    requires i < |b|
    ensures TotalMinutes(b) == TotalMinutes(b[..i] + b[i + 1..]) + b[i].duration
  {
    Sequences.SplitAt(b, i);
    TotalMinutesSplit(b[..i], b[i], b[i + 1..]);
  }

  lemma MultisetRemove(a: seq<CompletedSession>, x: CompletedSession, b: seq<CompletedSession>, i: nat)
    requires multiset(a + [x]) == multiset(b)
    requires i < |b| && b[i] == x
    ensures multiset(a) == multiset(b[..i] + b[i + 1..])
  {
    assert b == b[..i] + ([x] + b[i + 1..]);
    assert multiset(b) == multiset(b[..i] + b[i + 1..]) + multiset{x};
    assert multiset(a + [x]) == multiset(a) + multiset{x};
    forall y
      ensures multiset(a)[y] == multiset(b[..i] + b[i + 1..])[y]
    {
      assert (multiset(a) + multiset{x})[y] == (multiset(b[..i] + b[i + 1..]) + multiset{x})[y];
    }
  }

  /** Reordering the records does not change the minutes total. */
  lemma {:induction false} TotalMinutesPermutation(a: seq<CompletedSession>, b: seq<CompletedSession>)
    requires multiset(a) == multiset(b)
    ensures TotalMinutes(a) == TotalMinutes(b)
    decreases |a|
  {
    if a == [] {
      assert |b| == |multiset(b)| == 0;
    } else {
      var x := a[|a| - 1];
      var a' := a[..|a| - 1];
      assert a == a' + [x];
      assert x in multiset(b);
      var i :| 0 <= i < |b| && b[i] == x;
      MultisetRemove(a', x, b, i);
      TotalMinutesPermutation(a', b[..i] + b[i + 1..]);
      TotalMinutesRemove(b, i);
    }
  }

  /** Two lists with the same records have the same latest completion time. */
  lemma LatestSameRecords(a: seq<CompletedSession>, b: seq<CompletedSession>)
    requires a != [] && b != []
    requires forall c :: c in a <==> c in b
    ensures Latest(a) == Latest(b)
  {
    var i :| 0 <= i < |a| && a[i].completedAt == Latest(a);
    var j :| 0 <= j < |b| && b[j].completedAt == Latest(b);
    assert a[i] in b;
    assert b[j] in a;
  }

  /** The summary depends only on which records there are, not on their stored order. */
  lemma ProgressOrderIndependent(a: seq<CompletedSession>, b: seq<CompletedSession>, today: int, dayOf: DayOf)
    requires multiset(a) == multiset(b)
    ensures ProgressOf(a, today, dayOf) == ProgressOf(b, today, dayOf)
  {
    assert |a| == |multiset(a)| == |multiset(b)| == |b|;
    assert forall c :: c in a <==> c in b by {
      forall c ensures c in a <==> c in b {
        assert c in a <==> c in multiset(a);
        assert c in b <==> c in multiset(b);
      }
    }
    TotalMinutesPermutation(a, b);
    assert DaysOf(a, dayOf) == DaysOf(b, dayOf);
    if a != [] {
      LatestSameRecords(a, b);
    }
  }

  /** Recording a completion adds it at the end of its user's records; other users see no change. */
  lemma {:induction false} ByUserAppend(records: seq<CompletedSession>, c: CompletedSession, u: string)
    ensures ByUser(records + [c], u) == if c.userId == u then ByUser(records, u) + [c] else ByUser(records, u)
  {
    Sequences.FilterAppend(records, [c], OfUser(u));
    assert Sequences.Filter([c], OfUser(u)) == if c.userId == u then [c] else [];
  }

  /**
   * One more record of a user: the count grows by one, the minutes by its
   * duration, the latest time is at least its time, the streak does not get
   * shorter, and a record dated today makes it at least one.
   */
  lemma ProgressAfterCompletion(mine: seq<CompletedSession>, c: CompletedSession, today: int, dayOf: DayOf)
    ensures ProgressOf(mine + [c], today, dayOf).totalCompletedSessions
         == ProgressOf(mine, today, dayOf).totalCompletedSessions + 1
    ensures ProgressOf(mine + [c], today, dayOf).totalMinutesPracticed
         == ProgressOf(mine, today, dayOf).totalMinutesPracticed + c.duration
    ensures ProgressOf(mine + [c], today, dayOf).lastCompletionDate.Some?
    ensures ProgressOf(mine + [c], today, dayOf).lastCompletionDate.value >= c.completedAt
    ensures ProgressOf(mine + [c], today, dayOf).currentStreak >= ProgressOf(mine, today, dayOf).currentStreak
    ensures dayOf(c.completedAt) == today ==> ProgressOf(mine + [c], today, dayOf).currentStreak >= 1
  {
    var mine' := mine + [c];
    assert mine'[..|mine'| - 1] == mine;
    assert mine'[|mine'| - 1] == c;
    assert Latest(mine') >= mine'[|mine'| - 1].completedAt;
    assert TotalMinutes(mine') == TotalMinutes(mine) + c.duration;
    assert mine == [] ==> TotalMinutes(mine) == 0;
    var days := DaysOf(mine, dayOf);
    var days' := DaysOf(mine', dayOf);
    assert days <= days';
    assert dayOf(c.completedAt) in days';
    StreakMonotone(days, days', today);
    assert ProgressOf(mine', today, dayOf).currentStreak == Streak(days', today);
    if dayOf(c.completedAt) == today {
      assert today in days';
      assert Streak(days', today) == RunLength(days', today) == 1 + RunLength(days', today - 1);
    }
  }

  class CompletionLedger {
    /** The `wellness_completions` key. */
    var slot: Slot<CompletedSession>

    constructor (initial: Slot<CompletedSession>)
      ensures slot == initial
    {
      slot := initial;
    }

    /** The user's records in stored order; none when nothing is stored or it does not parse. */
    function GetCompletionsByUser(userId: string): (r: seq<CompletedSession>)
      reads this
      ensures !slot.Stored? ==> r == []
      ensures forall c :: c in r <==> c in slot.Contents() && c.userId == userId
      ensures Sequences.IsSubsequence(r, slot.Contents())
    {
      ByUser(slot.Contents(), userId)
    }

    /** Appends one record stamped `now`; a store that does not parse is left alone. */
    method MarkSessionComplete(sessionId: string, userId: string, duration: int, now: Timestamp)
      modifies this
      ensures old(slot).Unparseable? ==> slot == old(slot)
      ensures !old(slot).Unparseable? ==>
        slot == Stored(old(slot).Contents() + [CompletedSession(sessionId, userId, now, duration)])
      ensures !old(slot).Unparseable? ==>
        && GetCompletionsByUser(userId) == old(GetCompletionsByUser(userId)) + [CompletedSession(sessionId, userId, now, duration)]
        && forall u :: u != userId ==> GetCompletionsByUser(u) == old(GetCompletionsByUser(u))
    {
      if slot.Unparseable? {
        return;
      }
      var completions := slot.Contents();
      var record := CompletedSession(sessionId, userId, now, duration);
      ghost var before := completions;
      completions := completions + [record];
      slot := Stored(completions);
      ByUserAppend(before, record, userId);
      forall u | u != userId
        ensures GetCompletionsByUser(u) == ByUser(before, u)
      {
        ByUserAppend(before, record, u);
      }
    }

    /** Counts, minutes, the latest timestamp and the streak of the user's records. */
    method GetUserProgress(userId: string, now: Timestamp, dayOf: DayOf)
      returns (p: UserProgress, ghost graceSkips: nat)
      ensures p == ProgressOf(GetCompletionsByUser(userId), dayOf(now), dayOf)
      ensures graceSkips <= 1
    {
      var completions := GetCompletionsByUser(userId);
      var totalCompletedSessions := |completions|;
      var totalMinutesPracticed := TotalMinutes(completions);
      var currentStreak := 0;
      var lastCompletionDate: Option<Timestamp> := None;
      graceSkips := 0;

      if |completions| > 0 {
        lastCompletionDate := Some(Latest(completions));
        var completionsByDate := GroupByDate(completions, dayOf);
        currentStreak, graceSkips := WalkStreak(completionsByDate, dayOf(now));
      }

      p := UserProgress(totalCompletedSessions, totalMinutesPracticed, currentStreak, lastCompletionDate);
    }

    /** Whether the user has a record of this session on today's calendar day. */
    function IsSessionCompletedToday(sessionId: string, userId: string, now: Timestamp, dayOf: DayOf): (r: bool)
      reads this
      ensures r <==> exists c :: c in slot.Contents() && c.userId == userId &&
                                 c.sessionId == sessionId && dayOf(c.completedAt) == dayOf(now)
    {
      var completions := GetCompletionsByUser(userId);
      Sequences.Any(completions, (c: CompletedSession) => c.sessionId == sessionId && dayOf(c.completedAt) == dayOf(now))
    }
  }
}
