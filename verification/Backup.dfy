/**
 * The backup scheduler (internal/backup/backup.go): the next run of a daily schedule, and the
 * worker's loop with the threads that request a backup or change the schedule, as interleaved
 * steps. An attempt succeeds or fails at will.
 */
module Backup {
  import opened Wrappers

  /** Instants and durations are in nanoseconds. */
  const MINUTE: int := 60000000000
  const HOUR: int := 60 * MINUTE
  const DAY: int := 24 * HOUR
  const MAX_OFFSET: int := 16 * HOUR

  /**
   * A time zone: its offset at an instant, and the offset time.Date settles on for the schedule's
   * time of a day, which where the clock changes is one of the day's two.
   */
  datatype Zone = Zone(offsetAt: int -> int, offsetOn: int -> int)

  datatype Daily = Daily(hour: nat, minute: nat, zone: Zone)

  ghost predicate IsDaily(d: Daily) {
    && d.hour < 24 && d.minute < 60
    && (forall t :: -MAX_OFFSET <= d.zone.offsetAt(t) <= MAX_OFFSET)
    && (forall day :: -MAX_OFFSET <= d.zone.offsetOn(day) <= MAX_OFFSET)
  }

  type Schedule = d: Daily | IsDaily(d) witness Daily(0, 0, Zone(t => 0, day => 0))

  /** The zone has this offset and never changes it. */
  ghost predicate Fixed(d: Daily, offset: int) {
    (forall t :: d.zone.offsetAt(t) == offset) && (forall day :: d.zone.offsetOn(day) == offset)
  }

  function TimeOfDay(d: Daily): int { d.hour * HOUR + d.minute * MINUTE }

  /** The day since the epoch that the zone shows. */
  function LocalDay(t: int, d: Daily): int { (t + d.zone.offsetAt(t)) / DAY }

  /** time.Date in the zone: the schedule's time on a day since the epoch. */
  function Date(day: int, d: Daily): int { day * DAY + TimeOfDay(d) - d.zone.offsetOn(day) }

  function Later(a: int, b: Option<int>): int { if b.Some? && b.value > a then b.value else a }

  /** The schedule's first time after an instant, from the given day on. */
  function FirstFrom(day: int, from: int, d: Schedule): int
    decreases from + MAX_OFFSET - day * DAY
  {
    if Date(day, d) > from then Date(day, d) else FirstFrom(day + 1, from, d)
  }

  function FirstAfter(from: int, d: Schedule): int { FirstFrom(LocalDay(from, d), from, d) }

  /** Counting starts at the last backup or the last schedule change; without a backup, one is due now. */
  function NextTime(last: Option<int>, d: Schedule, rescheduled: Option<int>, now: int): int {
    if last.None? then now else FirstAfter(Later(last.value, rescheduled), d)
  }

  /** nextRun. */
  method NextRun(last: Option<int>, d: Schedule, rescheduled: Option<int>, now: int) returns (next: int)
    ensures next == NextTime(last, d, rescheduled, now)
  {
    if last.None? { return now; }
    var from := last.value;
    if rescheduled.Some? && rescheduled.value > from { from := rescheduled.value; }
    var local := LocalDay(from, d);
    var day := 0;
    while true
      invariant FirstFrom(local + day, from, d) == FirstAfter(from, d)
      decreases from + MAX_OFFSET - (local + day) * DAY
    {
      var at := Date(local + day, d);
      if at > from { return at; }
      day := day + 1;
    }
  }

  /** next is the schedule's first time after an instant, counted from the day the zone shows at it. */
  ghost predicate IsFirst(next: int, from: int, d: Daily) {
    exists day :: LocalDay(from, d) <= day && next == Date(day, d) > from
                  && forall k :: LocalDay(from, d) <= k < day ==> Date(k, d) <= from
  }

  lemma {:induction false} FirstFromIsFirst(day: int, from: int, d: Schedule)
    requires LocalDay(from, d) <= day && forall k :: LocalDay(from, d) <= k < day ==> Date(k, d) <= from
    ensures IsFirst(FirstFrom(day, from, d), from, d)
    decreases from + MAX_OFFSET - day * DAY
  {
    if Date(day, d) > from {
    } else {
      FirstFromIsFirst(day + 1, from, d);
    }
  }

  /** In any zone the next run is later than the last backup and the last change, by less than six days. */
  lemma NextIsFirst(from: int, d: Schedule)
    ensures from < FirstAfter(from, d) < from + 6 * DAY && IsFirst(FirstAfter(from, d), from, d)
  {
    FirstFromIsFirst(LocalDay(from, d), from, d);
    var day :| LocalDay(from, d) <= day && FirstAfter(from, d) == Date(day, d) > from
               && forall k :: LocalDay(from, d) <= k < day ==> Date(k, d) <= from;
    NotFarAhead(from, d, day);
  }

  lemma NotFarAhead(from: int, d: Schedule, day: int)
    requires LocalDay(from, d) <= day && forall k :: LocalDay(from, d) <= k < day ==> Date(k, d) <= from
    ensures Date(day, d) < from + 6 * DAY
  {
    var local := LocalDay(from, d);
    var shown := from + d.zone.offsetAt(from);
    assert local * DAY <= shown < (local + 1) * DAY;
    assert 0 <= TimeOfDay(d) < DAY;
    if day > local {
      assert Date(day - 1, d) <= from;
      assert (day - 1) * DAY == day * DAY - DAY;
    }
  }

  /** The instants at which a zone of the given offset shows the schedule's time of day. */
  predicate Scheduled(t: int, d: Daily, offset: int) {
    (t + offset) / HOUR % 24 == d.hour && (t + offset) % HOUR == d.minute * MINUTE
  }

  /** Reading the hour and the minute off a clock is reading the time of day. */
  lemma ClockShows(shown: int, d: Daily)
    requires d.hour < 24 && d.minute < 60
    ensures shown / HOUR % 24 == d.hour && shown % HOUR == d.minute * MINUTE <==> shown % DAY == TimeOfDay(d)
  {
    var hours, rest := shown / HOUR, shown % HOUR;
    assert hours == hours / 24 * 24 + hours % 24;
    assert shown == hours / 24 * DAY + (hours % 24 * HOUR + rest);
    assert 0 <= hours % 24 * HOUR + rest < DAY;
    assert shown % DAY == hours % 24 * HOUR + rest;
  }

  lemma ScheduledIsDate(t: int, d: Schedule, offset: int)
    requires Fixed(d, offset)
    ensures Scheduled(t, d, offset) <==> t == Date((t + offset) / DAY, d)
  {
    ClockShows(t + offset, d);
    assert t + offset == (t + offset) / DAY * DAY + (t + offset) % DAY;
  }

  lemma DateIsScheduled(day: int, d: Schedule, offset: int)
    requires Fixed(d, offset)
    ensures Scheduled(Date(day, d), d, offset)
  {
    assert 0 <= TimeOfDay(d) < DAY;
    assert (day * DAY + TimeOfDay(d)) % DAY == TimeOfDay(d);
    ClockShows(day * DAY + TimeOfDay(d), d);
  }

  /** In a zone without clock changes it is the least scheduled instant after them, at most a day later. */
  lemma NextIsLeast(from: int, d: Schedule, offset: int, t: int)
    requires Fixed(d, offset)
    ensures FirstAfter(from, d) <= from + DAY && Scheduled(FirstAfter(from, d), d, offset)
    ensures Scheduled(t, d, offset) && from < t ==> FirstAfter(from, d) <= t
  {
    NextIsFirst(from, d);
    var day :| LocalDay(from, d) <= day && FirstAfter(from, d) == Date(day, d) > from
               && forall k :: LocalDay(from, d) <= k < day ==> Date(k, d) <= from;
    DateIsScheduled(day, d, offset);
    ScheduledIsDate(t, d, offset);
    hide FirstAfter;
    if Scheduled(t, d, offset) && from < t { LaterDay(from, t, d, offset, day); }
    WithinADay(from, d, offset, day);
  }

  lemma LaterDay(from: int, t: int, d: Schedule, offset: int, day: int)
    requires Fixed(d, offset) && from < t && t == Date((t + offset) / DAY, d)
    requires forall k :: LocalDay(from, d) <= k < day ==> Date(k, d) <= from
    ensures Date(day, d) <= t
  {
    var other := (t + offset) / DAY;
    assert LocalDay(from, d) <= other;
    assert other >= day by { assert other < day ==> Date(other, d) <= from; }
    assert other * DAY >= day * DAY;
  }

  lemma WithinADay(from: int, d: Schedule, offset: int, day: int)
    requires Fixed(d, offset) && LocalDay(from, d) <= day
    requires forall k :: LocalDay(from, d) <= k < day ==> Date(k, d) <= from
    ensures Date(day, d) <= from + DAY
  {
    var local := LocalDay(from, d);
    assert local * DAY <= from + offset;
    if day == local {
      assert 0 <= TimeOfDay(d) < DAY;
    } else {
      assert Date(day - 1, d) <= from;
      assert Date(day, d) == Date(day - 1, d) + DAY;
    }
  }

  // The worker and its callers.

  datatype Phase =
    | Idle                           // about to resolve the schedule
    | Resolved(next: int)            // has the next run, about to look for a request
    | Asleep(next: int)              // waiting in waitDue
    | Starting(due: Option<int>)     // due at this time, or None for a request
    | Attempting(due: Option<int>)
    | BackingOff(deadline: int)      // waiting in backoff

  datatype State = State(
    running: bool, requested: bool, wake: bool, phase: Phase,
    last: Option<int>, daily: Schedule, rescheduled: Option<int>, clock: int,
    retry: int,               // what the delay after the next failure is taken from
    starters: set<int>,       // Start calls between setting the request and waking
    changers: set<int>,       // schedule changes saved, with Reschedule still to come
    announcers: set<int>)     // Reschedule calls between setting the time and waking

  datatype Step =
    | StartRequest(thread: int)
    | StartWake(thread: int)
    | SaveSchedule(thread: int, d: Schedule)
    | RescheduleSet(thread: int)
    | RescheduleWake(thread: int)
    | Resolve
    | Look
    | Wake
    | Timer
    | Begin
    | Succeed
    | Fail(random: nat)
    | Tick(later: int)

  /** retryDelay: half the base plus a random part of the other half. */
  function RetryDelay(base: int, random: nat): int { base / 2 + random }

  predicate Enabled(s: State, step: Step) {
    match step
    case StartRequest(thread) => thread !in s.starters
    case StartWake(thread) => thread in s.starters
    case SaveSchedule(thread, _) => thread !in s.changers + s.announcers
    case RescheduleSet(thread) => thread in s.changers
    case RescheduleWake(thread) => thread in s.announcers
    case Resolve => s.phase.Idle?
    case Look => s.phase.Resolved?
    case Wake => s.wake && (s.phase.Asleep? || s.phase.BackingOff?)
    case Timer => s.phase.Asleep? || s.phase.BackingOff?
    case Begin => s.phase.Starting?
    case Succeed => s.phase.Attempting?
    case Fail(random) => s.phase.Attempting? && random <= s.retry / 2
    case Tick(_) => true
  }

  function Next(s: State, step: Step): State
    requires Enabled(s, step)
  {
    match step
    case StartRequest(thread) =>
      if s.running || s.requested then s else s.(requested := true, starters := s.starters + {thread})
    case StartWake(thread) => s.(wake := true, starters := s.starters - {thread})
    case SaveSchedule(thread, d) => s.(daily := d, changers := s.changers + {thread})
    case RescheduleSet(thread) =>
      s.(rescheduled := Some(s.clock), changers := s.changers - {thread}, announcers := s.announcers + {thread})
    case RescheduleWake(thread) => s.(wake := true, announcers := s.announcers - {thread})
    case Resolve => s.(phase := Resolved(NextTime(s.last, s.daily, s.rescheduled, s.clock)))
    case Look => s.(phase := if s.requested then Starting(None) else Asleep(s.phase.next))
    case Wake =>
      s.(wake := false,
         phase := if s.phase.Asleep? || s.phase.deadline <= s.clock || s.requested then Idle else s.phase)
    case Timer =>
      s.(phase := if s.phase.Asleep? && s.clock >= s.phase.next then Starting(Some(s.phase.next)) else Idle)
    case Begin => s.(running := true, requested := false, phase := Attempting(s.phase.due))
    case Succeed => s.(running := false, last := Some(s.clock), phase := Idle, retry := MINUTE)
    case Fail(random) =>
      s.(running := false, phase := BackingOff(s.clock + RetryDelay(s.retry, random)), retry := Min(s.retry * 2, HOUR))
    case Tick(later) => s.(clock := later)
  }

  /** A worker that has just loaded its last backup and schedule change. */
  ghost predicate Init(s: State) {
    && !s.running && !s.requested && !s.wake && s.phase.Idle? && s.retry == MINUTE
    && s.starters == {} && s.changers == {} && s.announcers == {}
  }

  /** Some schedule change still has to wake the worker. */
  predicate ChangePending(s: State) { s.wake || s.changers != {} || s.announcers != {} }

  /** The time the worker waits for is the one its schedule asks for. */
  predicate Current(s: State) {
    (s.phase.Resolved? || s.phase.Asleep?) && s.last.Some? ==>
      s.phase.next == NextTime(s.last, s.daily, s.rescheduled, s.clock)
  }

  predicate Due(s: State, due: Option<int>) { due.Some? && s.last.Some? ==> due.value > s.last.value }

  predicate Inv(s: State) {
    && (s.running <==> s.phase.Attempting?) && (s.running ==> !s.requested)
    && (s.requested && (s.phase.Asleep? || s.phase.BackingOff?) ==> s.wake || s.starters != {})
    && (Current(s) || ChangePending(s))
    && (s.phase.Starting? && s.phase.due.None? ==> s.requested)
    && (s.phase.Resolved? || s.phase.Asleep? ==> Due(s, Some(s.phase.next)))
    && (s.phase.Starting? || s.phase.Attempting? ==> Due(s, s.phase.due))
  }

  lemma StepInv(s: State, step: Step)
    requires Inv(s) && Enabled(s, step)
    ensures Inv(Next(s, step))
  {
    if step.Resolve? && s.last.Some? {
      NextIsFirst(Later(s.last.value, s.rescheduled), s.daily);
    }
    hide FirstAfter;
  }

  /** A run: any interleaving of the worker, its callers and the clock. */
  ghost predicate IsRun(states: seq<State>, steps: seq<Step>) {
    && |states| == |steps| + 1 && Init(states[0])
    && (forall i {:trigger steps[i]} :: 0 <= i < |steps| ==>
          Enabled(states[i], steps[i]) && states[i + 1] == Next(states[i], steps[i]))
  }

  lemma {:induction false} RunInv(states: seq<State>, steps: seq<Step>, i: nat)
    requires IsRun(states, steps) && i < |states|
    ensures Inv(states[i])
  {
    hide Next, Enabled;
    if i == 0 {
    } else {
      RunInv(states, steps, i - 1);
      assert Enabled(states[i - 1], steps[i - 1]);
      StepInv(states[i - 1], steps[i - 1]);
    }
  }

  /**
   * No lost request: while the worker sleeps, be it until the next run or until a retry, and a
   * backup is requested, the wake slot is full or the requesting call is about to fill it. A
   * request is accepted unless an attempt is running, and stays set until one begins.
   */
  lemma NoLostRequest(states: seq<State>, steps: seq<Step>, i: nat)
    requires IsRun(states, steps) && i < |states|
    ensures states[i].requested && (states[i].phase.Asleep? || states[i].phase.BackingOff?) ==>
              states[i].wake || states[i].starters != {}
    ensures i < |steps| && states[i].requested && !states[i + 1].requested ==>
              steps[i].Begin? && states[i + 1].phase.Attempting?
    ensures i < |steps| && steps[i].StartRequest? ==> (states[i + 1].requested <==> !states[i].running)
    ensures states[i].running ==> !states[i].requested
  {
    RunInv(states, steps, i);
    if i < |steps| { assert states[i + 1] == Next(states[i], steps[i]); }
  }

  /**
   * The scheduled time a backup was due at is served once: the next run comes after it when the
   * snapshot was not taken before it, and in a zone without clock changes only then. A clock set
   * back during the attempt makes the backup run again.
   */
  lemma ServedOnceIff(from: int, d: Schedule, rescheduled: Option<int>, snapshot: int)
    requires Later(from, rescheduled) == from
    ensures var due := FirstAfter(from, d);
            && (snapshot >= due ==> NextTime(Some(snapshot), d, rescheduled, snapshot) > due)
            && forall offset :: Fixed(d, offset) ==>
                 (NextTime(Some(snapshot), d, rescheduled, snapshot) > due <==> snapshot >= due)
  {
    var due := FirstAfter(from, d);
    NextIsFirst(from, d);
    NextIsFirst(Later(snapshot, rescheduled), d);
    forall offset | Fixed(d, offset) && snapshot < due
      ensures NextTime(Some(snapshot), d, rescheduled, snapshot) <= due
    {
      NextIsLeast(from, d, offset, due);
      NextIsLeast(Later(snapshot, rescheduled), d, offset, due);
    }
  }

  // What the worker remembers, read from the steps of its run.

  /** The time of the last success before step i, or what the worker had loaded. */
  function LastSuccess(states: seq<State>, steps: seq<Step>, i: nat): Option<int>
    requires i <= |steps| < |states|
  {
    if i == 0 then states[0].last
    else if steps[i - 1].Succeed? then Some(states[i - 1].clock) else LastSuccess(states, steps, i - 1)
  }

  /** The time of the last schedule change. */
  function LastChange(states: seq<State>, steps: seq<Step>, i: nat): Option<int>
    requires i <= |steps| < |states|
  {
    if i == 0 then states[0].rescheduled
    else if steps[i - 1].RescheduleSet? then Some(states[i - 1].clock) else LastChange(states, steps, i - 1)
  }

  /** The schedule saved last. */
  function LastSaved(states: seq<State>, steps: seq<Step>, i: nat): Schedule
    requires i <= |steps| < |states|
  {
    if i == 0 then states[0].daily
    else if steps[i - 1].SaveSchedule? then steps[i - 1].d else LastSaved(states, steps, i - 1)
  }

  lemma StepRemembers(s: State, step: Step)
    requires Enabled(s, step)
    ensures Next(s, step).last == if step.Succeed? then Some(s.clock) else s.last
    ensures Next(s, step).rescheduled == if step.RescheduleSet? then Some(s.clock) else s.rescheduled
    ensures Next(s, step).daily == if step.SaveSchedule? then step.d else s.daily
  {
    hide FirstAfter, Enabled;
  }

  /** A call is under way from its first step to its last. */
  lemma CallsReturn(s: State, step: Step)
    requires Enabled(s, step)
    ensures step.StartWake? ==> Next(s, step).starters == s.starters - {step.thread}
    ensures step.SaveSchedule? ==> Next(s, step).changers == s.changers + {step.thread}
    ensures step.RescheduleSet? ==>
              Next(s, step).changers == s.changers - {step.thread}
              && Next(s, step).announcers == s.announcers + {step.thread}
    ensures step.RescheduleWake? ==> Next(s, step).announcers == s.announcers - {step.thread}
  {
    hide FirstAfter, Enabled;
  }

  lemma {:induction false} StateRemembers(states: seq<State>, steps: seq<Step>, i: nat)
    requires IsRun(states, steps) && i < |states|
    ensures states[i].last == LastSuccess(states, steps, i)
    ensures states[i].rescheduled == LastChange(states, steps, i)
    ensures states[i].daily == LastSaved(states, steps, i)
  {
    hide Next, Enabled;
    if i == 0 {
    } else {
      StateRemembers(states, steps, i - 1);
      assert Enabled(states[i - 1], steps[i - 1]) && states[i] == Next(states[i - 1], steps[i - 1]);
      StepRemembers(states[i - 1], steps[i - 1]);
    }
  }

  /**
   * Each time the worker resolves its schedule, the next run is the first time the schedule saved
   * last names after the last success and the last change, or at once without a success.
   */
  lemma ResolvesNextRun(states: seq<State>, steps: seq<Step>, i: nat)
    requires IsRun(states, steps) && i < |steps| && steps[i].Resolve?
    ensures states[i + 1].phase.Resolved?
    ensures match LastSuccess(states, steps, i)
            case None => states[i + 1].phase.next == states[i].clock
            case Some(success) =>
              IsFirst(states[i + 1].phase.next, Later(success, LastChange(states, steps, i)),
                      LastSaved(states, steps, i))
  {
    StateRemembers(states, steps, i);
    assert Enabled(states[i], steps[i]) && states[i + 1] == Next(states[i], steps[i]);
    if states[i].last.Some? { NextIsFirst(Later(states[i].last.value, states[i].rescheduled), states[i].daily); }
    hide FirstAfter, IsFirst;
  }

  /**
   * A changed schedule takes effect: a sleeping worker waits for the first time the schedule saved
   * last names after the last success and the last change, unless a change is about to wake it.
   */
  lemma WaitsForCurrentSchedule(states: seq<State>, steps: seq<Step>, i: nat)
    requires IsRun(states, steps) && i < |states| && states[i].phase.Asleep?
    requires LastSuccess(states, steps, i).Some? && !ChangePending(states[i])
    ensures IsFirst(states[i].phase.next,
                    Later(LastSuccess(states, steps, i).value, LastChange(states, steps, i)),
                    LastSaved(states, steps, i))
  {
    RunInv(states, steps, i);
    StateRemembers(states, steps, i);
    NextIsFirst(Later(states[i].last.value, states[i].rescheduled), states[i].daily);
  }

  /**
   * An attempt begins exactly on request, or when the timer finds its due time come, which is later
   * than the last success.
   */
  lemma AttemptsAreDue(states: seq<State>, steps: seq<Step>, i: nat)
    requires IsRun(states, steps) && i < |steps| && !states[i].phase.Starting?
    ensures states[i + 1].phase.Starting?
            <==> (steps[i].Look? && states[i].requested)
                 || (steps[i].Timer? && states[i].phase.Asleep? && states[i].clock >= states[i].phase.next)
    ensures states[i + 1].phase.Starting? ==>
              match states[i + 1].phase.due
              case None => steps[i].Look?
              case Some(due) =>
                steps[i].Timer? && due == states[i].phase.next
                && (LastSuccess(states, steps, i).Some? ==> due > LastSuccess(states, steps, i).value)
  {
    RunInv(states, steps, i);
    StateRemembers(states, steps, i);
    assert Enabled(states[i], steps[i]) && states[i + 1] == Next(states[i], steps[i]);
    hide FirstAfter;
  }

  /**
   * In a zone without clock changes a scheduled time is passed over if and only if it is not later
   * than the last success or the last change, so a time is named again exactly after a success before it.
   */
  lemma PassesOverIff(states: seq<State>, steps: seq<Step>, i: nat, offset: int, t: int)
    requires IsRun(states, steps) && i < |steps| && steps[i].Resolve? && LastSuccess(states, steps, i).Some?
    requires Fixed(LastSaved(states, steps, i), offset) && Scheduled(t, LastSaved(states, steps, i), offset)
    ensures states[i + 1].phase.Resolved?
    ensures states[i + 1].phase.next > t
            <==> t <= LastSuccess(states, steps, i).value
                 || (LastChange(states, steps, i).Some? && t <= LastChange(states, steps, i).value)
  {
    StateRemembers(states, steps, i);
    assert Enabled(states[i], steps[i]) && states[i + 1] == Next(states[i], steps[i]);
    var from := Later(states[i].last.value, states[i].rescheduled);
    NextIsFirst(from, states[i].daily);
    NextIsLeast(from, states[i].daily, offset, t);
    hide FirstAfter, IsFirst, Scheduled, Fixed;
  }

  lemma {:induction false} LaterSuccess(states: seq<State>, steps: seq<Step>, k: nat, i: nat)
    requires k < i <= |steps| < |states| && steps[k].Succeed?
    requires forall m :: k < m < i && steps[m].Succeed? ==> states[m].clock >= states[k].clock
    ensures LastSuccess(states, steps, i).Some? && LastSuccess(states, steps, i).value >= states[k].clock
  {
    if i == k + 1 {
    } else {
      LaterSuccess(states, steps, k, i - 1);
    }
  }

  /**
   * A served time is not served again: whatever happens in between, a scheduled attempt after a
   * success is due later than that success, unless the clock went back to an earlier one since.
   */
  lemma SuccessServes(states: seq<State>, steps: seq<Step>, k: nat, i: nat)
    requires IsRun(states, steps) && k < i < |steps| && steps[k].Succeed?
    requires forall m :: k < m < i && steps[m].Succeed? ==> states[m].clock >= states[k].clock
    requires !states[i].phase.Starting? && states[i + 1].phase.Starting?
    ensures states[i + 1].phase.due.Some? ==> states[i + 1].phase.due.value > states[k].clock
  {
    LaterSuccess(states, steps, k, i);
    AttemptsAreDue(states, steps, i);
    hide IsRun, LastSuccess;
  }

  // Retries.

  /** The number of failures since the last success. */
  function FailuresInRow(steps: seq<Step>): nat {
    if steps == [] then 0
    else
      var before := FailuresInRow(steps[..|steps| - 1]);
      match steps[|steps| - 1]
      case Fail(_) => before + 1
      case Succeed => 0
      case _ => before
  }

  /** The base after a number of failures in a row: it doubles from a minute up to an hour. */
  function RetryBase(failures: nat): (base: int)
    ensures MINUTE <= base <= HOUR
  {
    if failures == 0 then MINUTE else Min(RetryBase(failures - 1) * 2, HOUR)
  }

  lemma {:induction false} SixFailuresReachTheHour(failures: nat)
    requires failures >= 6
    ensures RetryBase(failures) == HOUR
  {
    if failures == 6 {
      assert RetryBase(3) == 8 * MINUTE;
    } else {
      SixFailuresReachTheHour(failures - 1);
    }
  }

  lemma StepRetry(s: State, step: Step)
    requires Enabled(s, step)
    ensures Next(s, step).retry == match step
                                   case Fail(_) => Min(s.retry * 2, HOUR)
                                   case Succeed => MINUTE
                                   case _ => s.retry
  {
    hide FirstAfter, Enabled;
  }

  lemma {:induction false} RetryIsBase(states: seq<State>, steps: seq<Step>, i: nat)
    requires IsRun(states, steps) && i < |states|
    ensures states[i].retry == RetryBase(FailuresInRow(steps[..i]))
  {
    hide Next, Enabled;
    if i == 0 {
    } else {
      RetryIsBase(states, steps, i - 1);
      assert Enabled(states[i - 1], steps[i - 1]) && states[i] == Next(states[i - 1], steps[i - 1]);
      StepRetry(states[i - 1], steps[i - 1]);
      assert steps[..i][..i - 1] == steps[..i - 1];
    }
  }

  /**
   * After each failure the worker retries within the last half of a base that doubles with every
   * failure in a row, from a minute to an hour, which the sixth reaches: never sooner than half a
   * minute, never later than an hour. A success starts over.
   */
  lemma RetriesSlowDown(states: seq<State>, steps: seq<Step>, i: nat)
    requires IsRun(states, steps) && i < |steps| && steps[i].Fail?
    ensures var base := RetryBase(FailuresInRow(steps[..i]));
            && states[i + 1].phase.BackingOff?
            && base / 2 <= states[i + 1].phase.deadline - states[i].clock <= base
            && MINUTE / 2 <= states[i + 1].phase.deadline - states[i].clock <= HOUR
            && (FailuresInRow(steps[..i]) >= 6 ==> base == HOUR)
  {
    RetryIsBase(states, steps, i);
    assert Enabled(states[i], steps[i]) && states[i + 1] == Next(states[i], steps[i]);
    if FailuresInRow(steps[..i]) >= 6 { SixFailuresReachTheHour(FailuresInRow(steps[..i])); }
  }

  /** A retry delay ends at its deadline, or early on request; a wake for a changed schedule does not end it. */
  lemma OnlyRequestsEndBackoff(states: seq<State>, steps: seq<Step>, i: nat)
    requires IsRun(states, steps) && i < |steps| && states[i].phase.BackingOff?
    ensures steps[i].Wake? ==>
              (states[i + 1].phase.Idle? <==> states[i].requested || states[i].clock >= states[i].phase.deadline)
    ensures steps[i].Timer? ==> states[i + 1].phase.Idle?
    ensures !steps[i].Wake? && !steps[i].Timer? ==> states[i + 1].phase == states[i].phase
  {
    assert Enabled(states[i], steps[i]) && states[i + 1] == Next(states[i], steps[i]);
    hide FirstAfter;
  }

  /** Every delay from half the base to the base may be drawn. */
  lemma AnyDelayMayBeDrawn(s: State, delay: int)
    requires s.phase.Attempting? && 0 <= s.retry / 2 <= delay <= s.retry / 2 * 2
    ensures var step := Fail(delay - s.retry / 2);
            Enabled(s, step) && Next(s, step).phase == BackingOff(s.clock + delay)
  {
  }
}
