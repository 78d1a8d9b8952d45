/** Runs of the notification service beside a relay that stores events: sessions that crash at any
    point, saves that fail or tear the file, events published at any time, and replies in any order. */
module CursorRuns {
  import opened Options
  import opened EventModel
  import opened Cursor
  import Classifier
  import Pruner

  datatype State = State(
    store: set<Event>,      // the events of the subscribed kinds that the relay holds
    mem: Mem,
    up: bool,
    found: File,            // the cursor file the current session started from
    since: int,             // where its subscription begins
    owed: set<Event>,       // what the relay has still to deliver to it
    earlier: seq<Event>,    // what was handled before it
    base: int,              // the start of the session that first got a cursor onto disk
    mark: Option<int>,      // the last cursor that got there whole
    late: set<Event>,       // published when that cursor was already past them
    omitted: set<Event>,    // left out of the reply to some session
    overtaken: set<Event>)  // still owed when a newer event moved that cursor past them

  datatype Step =
    | Publish(e: Event)
    | Start(now: int, save: Save, reply: set<Event>)
    | Deliver(e: Event, save: Save)
    | Die(e: Event, save: Save)  // a crash inside the event's save, or between it and the handling
    | Crash
    | Repair                     // an operator removes a torn cursor file

  const START: State := State({}, Mem(0, Absent, []), false, Absent, 0, {}, [], 0, None, {}, {}, {})

  // What a subscription from this time on asks for.
  function Asked(store: set<Event>, since: int): set<Event> { set e | e in store && e.createdAt >= since }

  // The relay replies with the newest of them, at most its default limit.
  predicate Reply(asked: set<Event>, reply: set<Event>) {
    && reply <= asked
    && |reply| == Pruner.Min(Pruner.QUERY_LIMIT, |asked|)
    && forall x, y :: x in asked && x !in reply && y in reply ==> x.createdAt <= y.createdAt
  }

  function SinceOf(file: File, now: int): int { if file.At? then file.time else now }

  // A torn file does not load, so no session starts from it. Events reach a session in any order.
  predicate Enabled(s: State, step: Step) {
    match step
    case Publish(e) => e.kind in Classifier.SUBSCRIBED_KINDS && e !in s.store
    case Start(now, _, reply) =>
      !s.up && !s.mem.file.Torn? && Reply(Asked(s.store, SinceOf(s.mem.file, now)), reply)
    case Deliver(e, _) => s.up && e in s.owed
    case Die(e, _) => s.up && e in s.owed
    case Crash => s.up
    case Repair => !s.up && s.mem.file.Torn?
  }

  predicate Passed(e: Event, mark: Option<int>) { mark.Some? && e.createdAt < mark.value }

  function MarkOf(mark: Option<int>, file: File): Option<int> { if file.At? then Some(file.time) else mark }

  // Those of the owed events that a move of the saved cursor leaves behind.
  function LeftBehind(owed: set<Event>, before: Option<int>, after: Option<int>): set<Event> {
    set e | e in owed && before != after && Passed(e, after)
  }

  function Next(s: State, step: Step): State {
    match step
    case Publish(e) =>
      s.(store := s.store + {e},
         owed := if s.up && e.createdAt >= s.since then s.owed + {e} else s.owed,
         late := if Passed(e, s.mark) then s.late + {e} else s.late)
    case Start(now, save, reply) => if s.mem.file.Torn? then s else Started(s, now, save, reply)
    case Deliver(e, save) =>
      var t := Observed(s, e, save);
      t.(mem := Handle(t.mem, e))
    case Die(e, save) => Observed(s, e, save).(up := false, owed := {})
    case Crash => s.(up := false, owed := {})
    case Repair =>
      s.(mem := s.mem.(file := Absent), mark := None, late := {}, omitted := {}, overtaken := {})
  }

  function Started(s: State, now: int, save: Save, reply: set<Event>): State
    requires !s.mem.file.Torn?
  {
    var since := SinceOf(s.mem.file, now);
    var m := Begin(s.mem.file, s.mem.handled, Session(now, save, [], [], false));
    s.(mem := m, up := true, found := s.mem.file, since := since, owed := reply, earlier := s.mem.handled,
       base := if s.mem.file.At? then s.base else now, mark := MarkOf(s.mark, m.file),
       omitted := s.omitted + (Asked(s.store, since) - reply))
  }

  function Observed(s: State, e: Event, save: Save): State {
    var m := Observe(s.mem, e, save);
    var mark := MarkOf(s.mark, m.file);
    s.(mem := m, owed := s.owed - {e}, mark := mark,
       overtaken := s.overtaken + LeftBehind(s.owed - {e}, s.mark, mark))
  }

  ghost function Run(steps: seq<Step>): State
    decreases |steps|
  {
    if steps == [] then START else Next(Run(steps[..|steps| - 1]), steps[|steps| - 1])
  }

  ghost predicate Valid(steps: seq<Step>)
    decreases |steps|
  {
    steps == [] ||
    (Valid(steps[..|steps| - 1]) && Enabled(Run(steps[..|steps| - 1]), steps[|steps| - 1]))
  }

  lemma Snoc(steps: seq<Step>, step: Step)
    ensures Run(steps + [step]) == Next(Run(steps), step)
    ensures Valid(steps + [step]) <==> Valid(steps) && Enabled(Run(steps), step)
  {
    assert (steps + [step])[..|steps|] == steps;
  }

  // A run and its continuation, one step back.
  lemma Continues(steps: seq<Step>, more: seq<Step>)
    requires more != []
    ensures var front, last := more[..|more| - 1], more[|more| - 1];
      && Run(steps + more) == Next(Run(steps + front), last)
      && (Valid(steps + more) <==> Valid(steps + front) && Enabled(Run(steps + front), last))
      && (NoRepair(more) ==> NoRepair(front) && last != Repair)
  {
    var front, last := more[..|more| - 1], more[|more| - 1];
    assert steps + more == (steps + front) + [last];
    Snoc(steps + front, last);
    assert more[|more| - 1] in more;
  }

  predicate NoRepair(steps: seq<Step>) { Repair !in steps }

  // ----- what every run keeps -----

  ghost predicate SetsHold(s: State) {
    && s.owed <= s.store && s.late <= s.store && (!s.up ==> s.owed == {})
    && (forall e :: e in s.mem.handled ==> e in s.store)
    && (forall e :: e in s.owed ==> e.createdAt >= s.since)
  }

  predicate CursorsHold(s: State) {
    && (s.mem.file.At? ==> s.mark == Some(s.mem.file.time))
    && (s.mem.file.Absent? ==> s.mark == None)
    && (s.up ==>
        && s.since <= s.mem.lastSeen
        && (s.mark.Some? ==> s.since <= s.mark.value <= s.mem.lastSeen)
        && (s.mark.None? ==> s.base == s.since && s.found == Absent))
  }

  // In a session everything asked for is handled, owed, or was left out of a reply.
  ghost predicate SessionServes(s: State, e: Event) {
    s.up && e in s.store && e.createdAt >= s.since ==> e in s.mem.handled || e in s.owed || e in s.omitted
  }

  // An unhandled event the saved cursor has passed got there in one of three ways.
  ghost predicate CauseKnown(s: State, e: Event) {
    e in s.store && s.base <= e.createdAt && Passed(e, s.mark) && e !in s.mem.handled ==>
      e in s.late || e in s.omitted || e in s.overtaken
  }

  predicate CausePasses(s: State, e: Event) { e in s.late || e in s.overtaken ==> Passed(e, s.mark) }

  ghost predicate Inv(s: State) {
    && SetsHold(s) && CursorsHold(s)
    && forall e :: SessionServes(s, e) && CauseKnown(s, e) && CausePasses(s, e)
  }

  lemma NextServes(s: State, step: Step, e: Event)
    requires Inv(s) && Enabled(s, step)
    ensures SessionServes(Next(s, step), e)
  {
    assert SessionServes(s, e);
  }

  lemma NextCause(s: State, step: Step, e: Event)
    requires Inv(s) && Enabled(s, step)
    ensures CauseKnown(Next(s, step), e)
  {
    assert SessionServes(s, e) && CauseKnown(s, e);
  }

  lemma NextCausePasses(s: State, step: Step, e: Event)
    requires Inv(s) && Enabled(s, step)
    ensures CausePasses(Next(s, step), e)
  {
    assert CausePasses(s, e);
  }

  lemma NextHolds(s: State, step: Step)
    requires Inv(s) && Enabled(s, step)
    ensures Inv(Next(s, step))
  {
    forall e ensures SessionServes(Next(s, step), e) && CauseKnown(Next(s, step), e) && CausePasses(Next(s, step), e) {
      NextServes(s, step, e);
      NextCause(s, step, e);
      NextCausePasses(s, step, e);
    }
  }

  lemma {:induction false} RunHolds(steps: seq<Step>)
    requires Valid(steps)
    ensures Inv(Run(steps))
    decreases |steps|
  {
    if steps != [] {
      RunHolds(steps[..|steps| - 1]);
      NextHolds(Run(steps[..|steps| - 1]), steps[|steps| - 1]);
    }
  }

  // ----- what is lost, and why -----

  // Stored, not handled, not on its way, and older than anything a later session asks for.
  predicate Lost(s: State, e: Event) {
    e in s.store && e !in s.mem.handled && e !in s.owed && Passed(e, s.mark)
  }

  /** Whatever the relay's order and limit, and whatever becomes of the saves: an event at or after the
      base that the saved cursor has passed unhandled was published late, left out of a truncated reply,
      or overtaken by a newer one while it was owed; and the first and the last always put it behind. */
  lemma LossHasACause(steps: seq<Step>, e: Event)
    requires Valid(steps)
    requires e in Run(steps).store && Run(steps).base <= e.createdAt && e !in Run(steps).mem.handled
    ensures var s := Run(steps);
      Passed(e, s.mark) <==> e in s.late || e in s.overtaken || (e in s.omitted && Passed(e, s.mark))
  {
    RunHolds(steps);
    assert CauseKnown(Run(steps), e) && CausePasses(Run(steps), e);
  }

  lemma StaysLost(s: State, step: Step, e: Event)
    requires Inv(s) && Enabled(s, step) && !step.Repair? && Lost(s, e)
    ensures Lost(Next(s, step), e)
  {}

  /** What is lost stays lost: no continuation handles the event, unless someone removes the file. */
  lemma {:induction false} LostForever(steps: seq<Step>, more: seq<Step>, e: Event)
    requires Valid(steps + more) && Valid(steps) && NoRepair(more) && Lost(Run(steps), e)
    ensures Lost(Run(steps + more), e)
    decreases |more|
  {
    if more == [] {
      assert steps + more == steps;
    } else {
      var front, last := more[..|more| - 1], more[|more| - 1];
      Continues(steps, more);
      LostForever(steps, front, e);
      RunHolds(steps + front);
      StaysLost(Run(steps + front), last, e);
    }
  }

  lemma CompleteReply(asked: set<Event>)
    requires |asked| <= Pruner.QUERY_LIMIT
    ensures forall reply :: Reply(asked, reply) <==> reply == asked
  {
    forall reply | Reply(asked, reply) ensures reply == asked {
      assert asked == reply + (asked - reply);
    }
  }

  // A restart that finds the cursor file and hears everything it asks for.
  function Restart(s: State): Step { Start(0, Saved, Asked(s.store, SinceOf(s.mem.file, 0))) }

  /** And nothing else is: an unhandled stored event that is not lost is handled at once if it is owed,
      and else in the next session, as long as what that session asks for fits the query limit. */
  lemma NotLostCanBeHandled(steps: seq<Step>, e: Event)
    requires Valid(steps)
    requires e in Run(steps).store && e !in Run(steps).mem.handled && !Lost(Run(steps), e)
    requires e in Run(steps).owed ||
      (Run(steps).mem.file.At? && |Asked(Run(steps).store, Run(steps).mem.file.time)| <= Pruner.QUERY_LIMIT)
    ensures exists more :: Valid(steps + more) && e in Run(steps + more).mem.handled
  {
    RunHolds(steps);
    if e in Run(steps).owed {
      assert steps + [] == steps;
      HandledNext(steps, [], e);
    } else {
      var down := if Run(steps).up then [Crash] else [];
      Downed(steps, down);
      Restarted(steps + down, e);
      var more := down + [Restart(Run(steps + down))];
      assert steps + more == (steps + down) + [Restart(Run(steps + down))];
      HandledNext(steps, more, e);
    }
  }

  lemma Downed(steps: seq<Step>, down: seq<Step>)
    requires Valid(steps) && down == if Run(steps).up then [Crash] else []
    ensures Valid(steps + down) && !Run(steps + down).up
    ensures Run(steps + down).store == Run(steps).store && Run(steps + down).mem == Run(steps).mem
  {
    if Run(steps).up {
      Snoc(steps, Crash);
    } else {
      assert steps + down == steps;
    }
  }

  lemma Restarted(steps: seq<Step>, e: Event)
    requires Valid(steps) && !Run(steps).up && Run(steps).mem.file.At?
    requires e in Run(steps).store && e.createdAt >= Run(steps).mem.file.time
    requires |Asked(Run(steps).store, Run(steps).mem.file.time)| <= Pruner.QUERY_LIMIT
    ensures var restart := Restart(Run(steps));
      Valid(steps + [restart]) && Run(steps + [restart]).up && e in Run(steps + [restart]).owed
  {
    var s := Run(steps);
    CompleteReply(Asked(s.store, SinceOf(s.mem.file, 0)));
    Snoc(steps, Restart(s));
  }

  lemma HandledNext(steps: seq<Step>, more: seq<Step>, e: Event)
    requires Valid(steps + more) && Run(steps + more).up && e in Run(steps + more).owed
    ensures exists more' :: Valid(steps + more') && e in Run(steps + more').mem.handled
  {
    var last := Deliver(e, Saved);
    Snoc(steps + more, last);
    assert steps + (more + [last]) == (steps + more) + [last];
    assert Run((steps + more) + [last]).mem.handled[|Run(steps + more).mem.handled|] == e;
  }

  // ----- relays that hold nothing back -----

  predicate Oldest(owed: set<Event>, e: Event) { forall x :: x in owed ==> e.createdAt <= x.createdAt }

  // The reply is not truncated, and what is owed comes oldest first.
  predicate InOrder(s: State, step: Step) {
    match step
    case Start(now, _, _) => |Asked(s.store, SinceOf(s.mem.file, now))| <= Pruner.QUERY_LIMIT
    case Deliver(e, _) => Oldest(s.owed, e)
    case Die(e, _) => Oldest(s.owed, e)
    case _ => true
  }

  ghost predicate Orderly(steps: seq<Step>)
    decreases |steps|
  {
    steps == [] ||
    (Orderly(steps[..|steps| - 1]) && InOrder(Run(steps[..|steps| - 1]), steps[|steps| - 1]))
  }

  lemma {:induction false} OrderlyRunsHoldNothingBack(steps: seq<Step>)
    requires Valid(steps) && Orderly(steps)
    ensures Run(steps).omitted == {} && Run(steps).overtaken == {}
    decreases |steps|
  {
    if steps != [] {
      var s, step := Run(steps[..|steps| - 1]), steps[|steps| - 1];
      OrderlyRunsHoldNothingBack(steps[..|steps| - 1]);
      RunHolds(steps[..|steps| - 1]);
      if step.Start? {
        CompleteReply(Asked(s.store, SinceOf(s.mem.file, step.now)));
      }
    }
  }

  /** Under any crashes and however the saves end, an orderly run never loses an event that was published
      in time: from the base on, it is handled or at least as recent as the saved cursor; and while the
      file is whole, as it is when no save tore it, that is the cursor the next session starts from. */
  lemma NothingIsLost(steps: seq<Step>, e: Event)
    requires Valid(steps) && Orderly(steps) && Run(steps).mark.Some?
    requires e in Run(steps).store && Run(steps).base <= e.createdAt && e !in Run(steps).late
    ensures e in Run(steps).mem.handled || e.createdAt >= Run(steps).mark.value
    ensures Run(steps).mem.file.At? ==> Run(steps).mem.file.time == Run(steps).mark.value
    ensures (forall i :: 0 <= i < |steps| ==> !Tears(steps[i])) ==> Run(steps).mem.file.At?
  {
    RunHolds(steps);
    OrderlyRunsHoldNothingBack(steps);
    if forall i :: 0 <= i < |steps| ==> !Tears(steps[i]) {
      WholeUnlessTears(steps);
    }
    if e !in Run(steps).mem.handled {
      LossHasACause(steps, e);
    }
  }

  /** An orderly run loses exactly the events published late that their own session did not handle. */
  lemma LostExactlyWhenLate(steps: seq<Step>, e: Event)
    requires Valid(steps) && Orderly(steps)
    requires e in Run(steps).store && Run(steps).base <= e.createdAt
    ensures var s := Run(steps); Lost(s, e) <==> e in s.late && e !in s.mem.handled && e !in s.owed
  {
    OrderlyRunsHoldNothingBack(steps);
    if e !in Run(steps).mem.handled {
      LossHasACause(steps, e);
    }
  }

  lemma LatenessStays(s: State, step: Step, e: Event)
    requires Enabled(s, step) && step != Repair && e in s.store
    ensures e in Next(s, step).store
    ensures e in Next(s, step).late <==> e in s.late
  {}

  // Whether an event is late is settled when it is published.
  lemma {:induction false} LatenessIsSettled(steps: seq<Step>, more: seq<Step>, e: Event)
    requires Valid(steps) && Valid(steps + more) && NoRepair(more) && e in Run(steps).store
    ensures e in Run(steps + more).store
    ensures e in Run(steps + more).late <==> e in Run(steps).late
    decreases |more|
  {
    if more == [] {
      assert steps + more == steps;
    } else {
      var front, last := more[..|more| - 1], more[|more| - 1];
      Continues(steps, more);
      LatenessIsSettled(steps, front, e);
      LatenessStays(Run(steps + front), last, e);
    }
  }

  /** Of the events published while the service is down, an orderly run loses exactly those older than
      the cursor then on disk. */
  lemma PublishedWhileDown(before: seq<Step>, e: Event, after: seq<Step>)
    requires Valid(before) && !Run(before).up && Enabled(Run(before), Publish(e))
    requires Valid(before + [Publish(e)] + after) && Orderly(before + [Publish(e)] + after) && NoRepair(after)
    requires Run(before + [Publish(e)] + after).base <= e.createdAt
    ensures Lost(Run(before + [Publish(e)] + after), e) <==> Passed(e, Run(before).mark)
  {
    Snoc(before, Publish(e));
    RunHolds(before);
    LatenessIsSettled(before + [Publish(e)], after, e);
    if Passed(e, Run(before).mark) {
      LostForever(before + [Publish(e)], after, e);
    } else {
      LostExactlyWhenLate(before + [Publish(e)] + after, e);
    }
  }

  // ----- relays that answer in full, in any order -----

  // No reply is truncated, and no session ends before everything owed to it was handed over.
  predicate Drains(s: State, step: Step) {
    match step
    case Start(now, _, _) => |Asked(s.store, SinceOf(s.mem.file, now))| <= Pruner.QUERY_LIMIT
    case Die(_, _) => false
    case Crash => s.owed == {}
    case _ => true
  }

  ghost predicate Drained(steps: seq<Step>)
    decreases |steps|
  {
    steps == [] ||
    (Drained(steps[..|steps| - 1]) && Drains(Run(steps[..|steps| - 1]), steps[|steps| - 1]))
  }

  // Anything published in time that the saved cursor has passed is handled or still to come.
  ghost predicate StillComing(s: State, e: Event) {
    e in s.store && s.base <= e.createdAt && Passed(e, s.mark) && e !in s.late ==>
      e in s.mem.handled || e in s.owed
  }

  lemma NextStillComing(s: State, step: Step, e: Event)
    requires Inv(s) && s.omitted == {} && Enabled(s, step) && Drains(s, step) && StillComing(s, e)
    ensures StillComing(Next(s, step), e)
  {
    assert SessionServes(s, e);
  }

  lemma DrainedOmitsNothing(s: State, step: Step)
    requires s.omitted == {} && Enabled(s, step) && Drains(s, step)
    ensures Next(s, step).omitted == {}
  {
    if step.Start? {
      CompleteReply(Asked(s.store, SinceOf(s.mem.file, step.now)));
    }
  }

  /** Whatever the order of delivery, newest first included: in a run whose replies are complete and whose
      sessions hand over all they owe before they end, exactly the late events are lost that their own
      session did not handle. */
  lemma {:induction false} DrainedLosesOnlyLate(steps: seq<Step>, e: Event)
    requires Valid(steps) && Drained(steps)
    ensures var s := Run(steps); s.omitted == {} && StillComing(s, e)
    ensures var s := Run(steps);
      e in s.store && s.base <= e.createdAt ==>
      (Lost(s, e) <==> e in s.late && e !in s.mem.handled && e !in s.owed)
    decreases |steps|
  {
    if steps != [] {
      var front, last := steps[..|steps| - 1], steps[|steps| - 1];
      DrainedLosesOnlyLate(front, e);
      RunHolds(front);
      NextStillComing(Run(front), last, e);
      DrainedOmitsNothing(Run(front), last);
    }
    RunHolds(steps);
    assert CausePasses(Run(steps), e);
  }

  /** A session that stops early loses, in any order of delivery, exactly what it still owed that is older
      than the saved cursor, beside what was lost before. */
  lemma EarlyStopLoses(steps: seq<Step>, end: Step, e: Event)
    requires Valid(steps + [end]) && Valid(steps) && (end.Crash? || end.Die?)
    requires Run(steps).base <= e.createdAt && e !in Run(steps).omitted
    ensures var s, t := Run(steps), Run(steps + [end]);
      Lost(t, e) <==> Lost(s, e) || (e in s.owed && e !in s.mem.handled && Passed(e, t.mark))
  {
    Snoc(steps, end);
    RunHolds(steps);
    EndLoses(Run(steps), end, e);
  }

  lemma EndLoses(s: State, end: Step, e: Event)
    requires Inv(s) && Enabled(s, end) && (end.Crash? || end.Die?)
    requires s.base <= e.createdAt && e !in s.omitted
    ensures Lost(Next(s, end), e) <==> Lost(s, e) || (e in s.owed && e !in s.mem.handled && Passed(e, Next(s, end).mark))
  {
    assert SessionServes(s, e);
  }

  // The newest event of a reply has been handed over and saved, and what is owed is no newer.
  predicate NewestSaved(s: State, x: Event) {
    && s.up && s.mem.lastSeen == x.createdAt && s.mem.file == At(x.createdAt) && s.mark == Some(x.createdAt)
    && forall e :: e in s.owed ==> e.createdAt <= x.createdAt
  }

  lemma {:induction false} NewestStaysSaved(steps: seq<Step>, rest: seq<Step>, x: Event)
    requires NewestSaved(Run(steps), x) && Valid(steps + rest)
    requires forall i :: 0 <= i < |rest| ==> rest[i].Deliver?
    ensures NewestSaved(Run(steps + rest), x)
    decreases |rest|
  {
    if rest == [] {
      assert steps + rest == steps;
    } else {
      Continues(steps, rest);
      NewestStaysSaved(steps, rest[..|rest| - 1], x);
    }
  }

  lemma NewestFirstSaves(before: seq<Step>, start: Step, x: Event)
    requires start.Start? && x in start.reply && forall y :: y in start.reply ==> y.createdAt <= x.createdAt
    requires x.createdAt > SinceOf(Run(before).mem.file, start.now)
    requires Valid(before + [start] + [Deliver(x, Saved)])
    ensures NewestSaved(Run(before + [start] + [Deliver(x, Saved)]), x)
  {
    Snoc(before, start);
    Snoc(before + [start], Deliver(x, Saved));
  }

  lemma StopLosesOlder(steps: seq<Step>, x: Event, e: Event)
    requires Valid(steps) && NewestSaved(Run(steps), x)
    requires e in Run(steps).owed && e !in Run(steps).mem.handled
    ensures Lost(Run(steps + [Crash]), e) <==> e.createdAt < x.createdAt
  {
    RunHolds(steps);
    Snoc(steps, Crash);
  }

  /** Beside a newest-first relay: once a session has saved the newest event of its reply, stopping after
      any number of further deliveries loses exactly what it still owes that is older than that event. */
  lemma NewestFirstStopLoses(
      before: seq<Step>, start: Step, x: Event, rest: seq<Step>, e: Event)
    requires start.Start? && x in start.reply && forall y :: y in start.reply ==> y.createdAt <= x.createdAt
    requires x.createdAt > SinceOf(Run(before).mem.file, start.now)
    requires Valid(before + [start] + [Deliver(x, Saved)]) && Valid(before + [start] + [Deliver(x, Saved)] + rest)
    requires forall i :: 0 <= i < |rest| ==> rest[i].Deliver?
    requires e in Run(before + [start] + [Deliver(x, Saved)] + rest).owed
    requires e !in Run(before + [start] + [Deliver(x, Saved)] + rest).mem.handled
    ensures Lost(Run(before + [start] + [Deliver(x, Saved)] + rest + [Crash]), e) <==> e.createdAt < x.createdAt
  {
    NewestFirstSaves(before, start, x);
    NewestStaysSaved(before + [start] + [Deliver(x, Saved)], rest, x);
    StopLosesOlder(before + [start] + [Deliver(x, Saved)] + rest, x, e);
  }

  // ----- the base -----

  lemma NextKeepsBase(s: State, step: Step)
    requires Inv(s) && Enabled(s, step) && !step.Repair? && s.mark.Some?
    ensures var t := Next(s, step);
      t.mark.Some? && s.mark.value <= t.mark.value && t.base == s.base && !t.mem.file.Absent?
  {}

  /** Once a cursor is on disk the saved cursor never moves back and the base is fixed, until someone
      removes the file; the file itself is there, whole or torn. */
  lemma {:induction false} BaseIsFixed(steps: seq<Step>, more: seq<Step>)
    requires Valid(steps) && Valid(steps + more) && NoRepair(more) && Run(steps).mark.Some?
    ensures var s, t := Run(steps), Run(steps + more);
      t.mark.Some? && s.mark.value <= t.mark.value && t.base == s.base && !t.mem.file.Absent?
    decreases |more|
  {
    RunHolds(steps);
    if more == [] {
      assert steps + more == steps;
    } else {
      var front, last := more[..|more| - 1], more[|more| - 1];
      Continues(steps, more);
      BaseIsFixed(steps, front);
      RunHolds(steps + front);
      NextKeepsBase(Run(steps + front), last);
    }
  }

  // The first cursor since the file was missing reached the disk at step j, in a session that began at
  // the base.
  ghost predicate FirstSave(steps: seq<Step>, j: nat, base: int) {
    && j < |steps| && Run(steps[..j]).mark.None?
    && (forall i :: j < i <= |steps| ==> Run(steps[..i]).mark.Some?)
    && Run(steps[..j + 1]).found == Absent && Run(steps[..j + 1]).since == base
  }

  /** The base is where the first session that got a cursor onto disk began. */
  lemma {:induction false} BaseIsFirstSavingSession(steps: seq<Step>)
    requires Valid(steps) && Run(steps).mark.Some?
    ensures exists j: nat :: FirstSave(steps, j, Run(steps).base)
    decreases |steps|
  {
    var front, last := steps[..|steps| - 1], steps[|steps| - 1];
    RunHolds(front);
    if Run(front).mark.Some? {
      BaseIsFirstSavingSession(front);
      var j: nat :| FirstSave(front, j, Run(front).base);
      NextKeepsBase(Run(front), last);
      FirstSaveStays(steps, j);
    } else {
      FirstCursorInSession(Run(front), last);
      assert steps[..|steps|] == steps;
      assert FirstSave(steps, |steps| - 1, Run(steps).base);
    }
  }

  lemma FirstSaveStays(steps: seq<Step>, j: nat)
    requires steps != [] && Run(steps).mark.Some?
    requires FirstSave(steps[..|steps| - 1], j, Run(steps).base)
    ensures FirstSave(steps, j, Run(steps).base)
  {
    PrefixesOfFront(steps);
    assert steps[..|steps|] == steps;
    forall i | j < i <= |steps| ensures Run(steps[..i]).mark.Some? {
      if i < |steps| {
        assert Run(steps[..|steps| - 1][..i]).mark.Some?;
      }
    }
  }

  lemma PrefixesOfFront(steps: seq<Step>)
    requires steps != []
    ensures forall i :: 0 <= i < |steps| ==> steps[..|steps| - 1][..i] == steps[..i]
  {}

  lemma FirstCursorInSession(s: State, step: Step)
    requires Inv(s) && Enabled(s, step) && s.mark.None? && Next(s, step).mark.Some?
    ensures Next(s, step).found == Absent && Next(s, step).since == Next(s, step).base
  {}

  // ----- torn files -----

  // What a step did to the contents of the file, if anything.
  function WriteOf(s: State, step: Step): Option<Save> {
    match step
    case Start(_, save, _) => if s.mem.file.Absent? && save != Kept then Some(save) else None
    case Deliver(e, save) => if e.createdAt > s.mem.lastSeen && save != Kept then Some(save) else None
    case Die(e, save) => if e.createdAt > s.mem.lastSeen && save != Kept then Some(save) else None
    case _ => None
  }

  // How the last write since the file was last removed ended.
  ghost function LastWrite(steps: seq<Step>): Option<Save>
    decreases |steps|
  {
    if steps == [] then None else
      var front, last := steps[..|steps| - 1], steps[|steps| - 1];
      if last.Repair? then None
      else if WriteOf(Run(front), last).Some? then WriteOf(Run(front), last)
      else LastWrite(front)
  }

  lemma WriteDecides(s: State, step: Step)
    requires Enabled(s, step)
    ensures Next(s, step).mem.file.Torn? <==>
      WriteOf(s, step) == Some(Tore) || (WriteOf(s, step) == None && step != Repair && s.mem.file.Torn?)
  {}

  lemma {:induction false} TornByLastWrite(steps: seq<Step>)
    requires Valid(steps)
    ensures Run(steps).mem.file.Torn? <==> LastWrite(steps) == Some(Tore)
    decreases |steps|
  {
    if steps != [] {
      TornByLastWrite(steps[..|steps| - 1]);
      WriteDecides(Run(steps[..|steps| - 1]), steps[|steps| - 1]);
    }
  }

  lemma {:induction false} OldestExists(asked: set<Event>)
    requires asked != {}
    ensures exists e :: e in asked && Oldest(asked, e)
    decreases asked
  {
    var a :| a in asked;
    if asked != {a} {
      var rest := asked - {a};
      OldestExists(rest);
      var b :| b in rest && Oldest(rest, b);
      var m := if a.createdAt <= b.createdAt then a else b;
      assert asked == rest + {a};
      assert m in asked && Oldest(asked, m);
    } else {
      assert Oldest(asked, a);
    }
  }

  // A relay can always reply.
  lemma {:induction false} ReplyExists(asked: set<Event>)
    ensures exists reply :: Reply(asked, reply)
    decreases asked
  {
    if |asked| <= Pruner.QUERY_LIMIT {
      assert Reply(asked, asked);
    } else {
      OldestExists(asked);
      var e :| e in asked && Oldest(asked, e);
      var rest := asked - {e};
      ReplyExists(rest);
      var reply :| Reply(rest, reply);
      assert Reply(asked, reply);
    }
  }

  /** While the service is down it can start again if and only if its last write was not torn. */
  lemma RestartsUnlessTorn(steps: seq<Step>, now: int, save: Save)
    requires Valid(steps) && !Run(steps).up
    ensures (exists reply :: Enabled(Run(steps), Start(now, save, reply))) <==> LastWrite(steps) != Some(Tore)
  {
    TornByLastWrite(steps);
    var s := Run(steps);
    if !s.mem.file.Torn? {
      ReplyExists(Asked(s.store, SinceOf(s.mem.file, now)));
      var reply :| Reply(Asked(s.store, SinceOf(s.mem.file, now)), reply);
      assert Enabled(s, Start(now, save, reply));
    }
  }

  lemma TornStays(s: State, step: Step)
    requires Enabled(s, step) && step != Repair && !s.up && s.mem.file.Torn?
    ensures !Next(s, step).up && Next(s, step).mem == s.mem
  {}

  /** A torn file stops the service for good: until someone removes it no session starts, and what was
      unhandled stays so. */
  lemma {:induction false} TornStopsService(steps: seq<Step>, more: seq<Step>)
    requires Valid(steps) && Valid(steps + more) && NoRepair(more)
    requires !Run(steps).up && Run(steps).mem.file.Torn?
    ensures !Run(steps + more).up && Run(steps + more).mem == Run(steps).mem
    decreases |more|
  {
    if more == [] {
      assert steps + more == steps;
    } else {
      var front, last := more[..|more| - 1], more[|more| - 1];
      Continues(steps, more);
      TornStopsService(steps, front);
      TornStays(Run(steps + front), last);
    }
  }

  predicate Tears(step: Step) { (step.Start? || step.Deliver? || step.Die?) && step.save == Tore }

  /** A run in which no save tears the file keeps it whole once it is there. */
  lemma {:induction false} WholeUnlessTears(steps: seq<Step>)
    requires Valid(steps) && forall i :: 0 <= i < |steps| ==> !Tears(steps[i])
    ensures !Run(steps).mem.file.Torn?
    ensures Run(steps).mark.Some? ==> Run(steps).mem.file == At(Run(steps).mark.value)
    decreases |steps|
  {
    if steps != [] {
      WholeUnlessTears(steps[..|steps| - 1]);
    }
    RunHolds(steps);
  }

  /** Removing a torn file and starting over loses exactly the unhandled events older than the restart,
      those that a whole file would have brought back among them. */
  lemma RepairLoses(steps: seq<Step>, now: int, reply: set<Event>, e: Event)
    requires Valid(steps) && Enabled(Run(steps), Repair)
    requires Valid(steps + [Repair] + [Start(now, Saved, reply)])
    requires e in Run(steps).store && e !in Run(steps).mem.handled
    ensures Lost(Run(steps + [Repair] + [Start(now, Saved, reply)]), e) <==> e.createdAt < now
  {
    Snoc(steps, Repair);
    Snoc(steps + [Repair], Start(now, Saved, reply));
  }

  // ----- duplicates -----

  predicate Saves(step: Step) {
    match step
    case Start(_, save, _) => save == Saved
    case Deliver(_, save) => save == Saved
    case Die(_, save) => save == Saved
    case _ => true
  }

  // With every save succeeding the cursor on disk is as far as anything handled.
  predicate UpToCursor(m: Mem) {
    && !m.file.Torn?
    && (m.file.Absent? ==> m.handled == [])
    && (m.file.At? ==> forall i :: 0 <= i < |m.handled| ==> m.handled[i].createdAt <= m.file.time)
  }

  // What was handled before the session, and what it handled itself.
  ghost predicate Handlings(s: State) {
    && s.earlier <= s.mem.handled
    && (s.found.Absent? ==> s.earlier == [])
    && (s.found.At? ==> forall i :: 0 <= i < |s.earlier| ==> s.earlier[i].createdAt <= s.found.time)
    && (s.up ==>
        && s.mem.file == At(s.mem.lastSeen)
        && !s.found.Torn? && (s.found.At? ==> s.found.time == s.since)
        && forall i :: |s.earlier| <= i < |s.mem.handled| ==> s.mem.handled[i] !in s.owed)
  }

  lemma NextHandlings(s: State, step: Step)
    requires Inv(s) && Enabled(s, step) && Saves(step) && UpToCursor(s.mem) && Handlings(s)
    ensures UpToCursor(Next(s, step).mem) && Handlings(Next(s, step))
  {}

  lemma {:induction false} RunHandlings(steps: seq<Step>)
    requires Valid(steps) && forall i :: 0 <= i < |steps| ==> Saves(steps[i])
    ensures UpToCursor(Run(steps).mem) && Handlings(Run(steps))
    decreases |steps|
  {
    if steps != [] {
      RunHandlings(steps[..|steps| - 1]);
      RunHolds(steps[..|steps| - 1]);
      NextHandlings(Run(steps[..|steps| - 1]), steps[|steps| - 1]);
    }
  }

  /** In every run whose saves all succeed, whatever the order of delivery: an event a session is about
      to handle was handled before only in an earlier session, and then its time is exactly that of the
      cursor the session started from. */
  lemma DuplicatesOnlyAtCursor(steps: seq<Step>, e: Event)
    requires Valid(steps) && forall i :: 0 <= i < |steps| ==> Saves(steps[i])
    requires e in Run(steps).owed && e in Run(steps).mem.handled
    ensures e in Run(steps).earlier && Run(steps).found == At(e.createdAt)
  {
    RunHolds(steps);
    RunHandlings(steps);
    OwedTwice(Run(steps), e);
  }

  lemma OwedTwice(s: State, e: Event)
    requires Inv(s) && Handlings(s) && e in s.owed && e in s.mem.handled
    ensures e in s.earlier && s.found == At(e.createdAt)
  {
    var i :| 0 <= i < |s.mem.handled| && s.mem.handled[i] == e;
    assert i < |s.earlier|;
    assert s.earlier[i] == e;
  }

  /** And they do come back: a session whose reply is complete repeats exactly the handled events whose
      time is the cursor's. */
  lemma RepeatedExactlyAtCursor(steps: seq<Step>, now: int, e: Event)
    requires Valid(steps) && forall i :: 0 <= i < |steps| ==> Saves(steps[i])
    requires !Run(steps).up && e in Run(steps).mem.handled
    requires |Asked(Run(steps).store, SinceOf(Run(steps).mem.file, now))| <= Pruner.QUERY_LIMIT
    ensures forall reply :: Enabled(Run(steps), Start(now, Saved, reply)) ==>
      (e in reply <==> Run(steps).mem.file == At(e.createdAt))
  {
    RunHolds(steps);
    RunHandlings(steps);
    RepliesAtCursor(Run(steps), now, e);
  }

  lemma RepliesAtCursor(s: State, now: int, e: Event)
    requires Inv(s) && UpToCursor(s.mem) && e in s.mem.handled
    requires |Asked(s.store, SinceOf(s.mem.file, now))| <= Pruner.QUERY_LIMIT
    ensures forall reply :: Reply(Asked(s.store, SinceOf(s.mem.file, now)), reply) ==>
      (e in reply <==> s.mem.file == At(e.createdAt))
  {
    CompleteReply(Asked(s.store, SinceOf(s.mem.file, now)));
  }

  // ----- the steps of a session are what its loop does -----

  predicate MidSession(steps: seq<Step>) {
    forall i :: 0 <= i < |steps| ==> steps[i].Publish? || steps[i].Deliver?
  }

  function Delivered(steps: seq<Step>): seq<Event>
    decreases |steps|
  {
    if steps == [] then [] else
      var last := steps[|steps| - 1];
      Delivered(steps[..|steps| - 1]) + if last.Deliver? then [last.e] else []
  }

  function SavesOf(steps: seq<Step>): (saves: seq<Save>)
    ensures |saves| == |Delivered(steps)|
    decreases |steps|
  {
    if steps == [] then [] else
      var last := steps[|steps| - 1];
      SavesOf(steps[..|steps| - 1]) + if last.Deliver? then [last.save] else []
  }

  lemma {:induction false} MidSessionProcesses(before: seq<Step>, steps: seq<Step>)
    requires MidSession(steps)
    ensures Run(before + steps).mem == Process(Run(before).mem, Delivered(steps), SavesOf(steps))
    decreases |steps|
  {
    if steps == [] {
      assert before + steps == before;
    } else {
      var front, last := steps[..|steps| - 1], steps[|steps| - 1];
      MidSessionProcesses(before, front);
      assert before + steps == (before + front) + [last];
      Snoc(before + front, last);
      if last.Deliver? {
        ProcessSnoc(Run(before).mem, Delivered(front), SavesOf(front), last.e, last.save);
      } else {
        assert Delivered(steps) == Delivered(front) && SavesOf(steps) == SavesOf(front);
      }
    }
  }

  lemma ProcessSnoc(m: Mem, events: seq<Event>, saves: seq<Save>, e: Event, save: Save)
    requires |saves| == |events|
    ensures Process(m, events + [e], saves + [save]) == Handle(Observe(Process(m, events, saves), e, save), e)
  {
    assert (events + [e])[..|events|] == events && (saves + [save])[..|saves|] == saves;
  }

  // The session these steps amount to, ended by a crash or by dying over one more event.
  function SessionOf(start: Step, steps: seq<Step>, end: Step): Session
    requires start.Start? && (end.Crash? || end.Die?)
  {
    if end.Die? then
      Session(start.now, start.save, Delivered(steps) + [end.e], SavesOf(steps) + [end.save], true)
    else Session(start.now, start.save, Delivered(steps), SavesOf(steps), false)
  }

  /** A session of a run, with events published during it, leaves in the file and among the handled
      events exactly what the loop of the service does. */
  lemma SessionIsLoop(before: seq<Step>, start: Step, steps: seq<Step>, end: Step)
    requires start.Start? && MidSession(steps) && (end.Crash? || end.Die?)
    requires !Run(before).mem.file.Torn?
    ensures WellFormed(SessionOf(start, steps, end))
    ensures Run(before + [start] + steps + [end]).mem ==
      var s, m := SessionOf(start, steps, end), Run(before).mem;
      End(Begin(m.file, m.handled, s), s)
  {
    Snoc(before, start);
    MidSessionProcesses(before + [start], steps);
    Snoc(before + [start] + steps, end);
    var s, m := SessionOf(start, steps, end), Run(before).mem;
    assert Run(before + [start]).mem == Begin(m.file, m.handled, s);
    if end.Die? {
      assert s.events[..|s.events| - 1] == Delivered(steps) && s.saves[..|s.events| - 1] == SavesOf(steps);
    }
  }
}
