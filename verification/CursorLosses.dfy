/** The ways the cursor does lose events, each in a run of the service, and each with nothing else amiss. */
module CursorLosses {
  import opened Options
  import opened EventModel
  import opened Cursor
  import opened CursorRuns
  import Boot
  import Decimal
  import Classifier
  import Json
  import KindPolicy
  import PolicyStore
  import Pruner
  import Relay

  // One more step of a run, between named states.
  lemma StepTo(steps: seq<Step>, s: State, step: Step, t: State)
    requires Valid(steps) && Run(steps) == s && Enabled(s, step) && Next(s, step) == t
    ensures Valid(steps + [step]) && Run(steps + [step]) == t
    ensures Orderly(steps) && InOrder(s, step) ==> Orderly(steps + [step])
  {
    assert (steps + [step])[..|steps|] == steps;
  }

  lemma StartHere()
    ensures Valid([]) && Run([]) == START && Orderly([])
  {}

  // ----- published late -----

  // The same event under another identifier and an earlier time.
  function Backdated(e: Event, id: string, at: Decimal.GoInt): Event { e.(id := id, createdAt := at) }

  lemma BackdatedValidates(e: Event, id: string, at: Decimal.GoInt, decoder: string)
    ensures Validate(Backdated(e, id, at), decoder) == Validate(e, decoder)
  {}

  /** The relay bounds times from above only: whatever it admits, it admits back-dated as well. */
  lemma BackdatedIsAdmitted(cfg: Boot.Config, b: PolicyStore.Buckets, s: Relay.Submission, id: string, at: Decimal.GoInt)
    requires Relay.Judge(cfg, b, s) == None && at <= s.event.createdAt
    ensures Relay.Judge(cfg, b, s.(event := Backdated(s.event, id, at))) == None
  {
    Relay.AdmissionIsExact(cfg, b, s);
    Relay.AdmissionIsExact(cfg, b, s.(event := Backdated(s.event, id, at)));
    BackdatedValidates(s.event, id, at, s.decoder);
  }

  // A session that begins on an empty store at a given time.
  function Fresh(at: int): State {
    START.(mem := Mem(at, At(at), []), up := true, since := at, base := at, mark := Some(at))
  }

  lemma FreshStart(at: int)
    ensures Valid([] + [Start(at, Saved, {})]) && Orderly([] + [Start(at, Saved, {})])
    ensures Run([] + [Start(at, Saved, {})]) == Fresh(at)
  {
    StartHere();
    assert Next(START, Start(at, Saved, {})) == Fresh(at);
    StepTo([], START, Start(at, Saved, {}), Fresh(at));
  }

  function OneOwed(at: int, e: Event): State { Fresh(at).(store := {e}, owed := {e}) }

  function OneHandled(at: int, e: Event): State {
    OneOwed(at, e).(mem := Mem(e.createdAt, At(e.createdAt), [e]), owed := {}, mark := Some(e.createdAt))
  }

  function LatePublished(older: Event, newer: Event): State {
    OneHandled(older.createdAt, newer).(store := {newer, older}, up := false, late := {older})
  }

  function Resumed(older: Event, newer: Event): State {
    LatePublished(older, newer).(
      up := true, found := At(newer.createdAt), since := newer.createdAt, owed := {newer}, earlier := [newer])
  }

  lemma PublishOne(at: int, e: Event)
    requires e.kind in Classifier.SUBSCRIBED_KINDS && at < e.createdAt
    ensures Enabled(Fresh(at), Publish(e)) && Next(Fresh(at), Publish(e)) == OneOwed(at, e)
  {}

  lemma DeliverOne(at: int, e: Event)
    requires at < e.createdAt
    ensures Enabled(OneOwed(at, e), Deliver(e, Saved))
    ensures Next(OneOwed(at, e), Deliver(e, Saved)) == OneHandled(at, e)
    ensures InOrder(OneOwed(at, e), Deliver(e, Saved))
  {
    assert Observed(OneOwed(at, e), e, Saved).overtaken == {};
  }

  lemma PublishLate(older: Event, newer: Event)
    requires older.kind in Classifier.SUBSCRIBED_KINDS && older.createdAt < newer.createdAt
    ensures var s := OneHandled(older.createdAt, newer).(up := false);
      Enabled(s, Publish(older)) && Next(s, Publish(older)) == LatePublished(older, newer)
  {}

  lemma Resume(older: Event, newer: Event, now: int)
    requires older.createdAt < newer.createdAt
    ensures var s := LatePublished(older, newer);
      && Enabled(s, Start(now, Saved, {newer})) && InOrder(s, Start(now, Saved, {newer}))
      && Next(s, Start(now, Saved, {newer})) == Resumed(older, newer)
  {
    assert Asked({newer, older}, newer.createdAt) == {newer};
  }

  function Repeated(older: Event, newer: Event): State {
    Resumed(older, newer).(mem := Mem(newer.createdAt, At(newer.createdAt), [newer] + [newer]), owed := {})
  }

  lemma Repeat(older: Event, newer: Event)
    ensures var s := Resumed(older, newer);
      && Enabled(s, Deliver(newer, Saved)) && InOrder(s, Deliver(newer, Saved))
      && Next(s, Deliver(newer, Saved)) == Repeated(older, newer)
  {
    assert Observed(Resumed(older, newer), newer, Saved).overtaken == {};
  }

  // The service handles an event and goes down; an older one is published; the service comes back.
  function FirstHalf(older: Event, newer: Event): seq<Step> {
    [] + [Start(older.createdAt, Saved, {})] + [Publish(newer)] + [Deliver(newer, Saved)] + [Crash]
  }

  function LateRun(older: Event, newer: Event, now: int): seq<Step> {
    FirstHalf(older, newer) + [Publish(older)] + [Start(now, Saved, {newer})] + [Deliver(newer, Saved)]
  }

  lemma HandledAndDown(older: Event, newer: Event)
    requires newer.kind in Classifier.SUBSCRIBED_KINDS && older.createdAt < newer.createdAt
    ensures Valid(FirstHalf(older, newer)) && Orderly(FirstHalf(older, newer))
    ensures Run(FirstHalf(older, newer)) == OneHandled(older.createdAt, newer).(up := false)
  {
    var at := older.createdAt;
    var s1 := [] + [Start(at, Saved, {})];
    var s2 := s1 + [Publish(newer)];
    FreshStart(at);
    PublishOne(at, newer);
    StepTo(s1, Fresh(at), Publish(newer), OneOwed(at, newer));
    DeliverOne(at, newer);
    StepTo(s2, OneOwed(at, newer), Deliver(newer, Saved), OneHandled(at, newer));
    StepTo(s2 + [Deliver(newer, Saved)], OneHandled(at, newer), Crash, OneHandled(at, newer).(up := false));
  }

  lemma LateRunEnds(older: Event, newer: Event, now: int)
    requires older.kind in Classifier.SUBSCRIBED_KINDS && newer.kind in Classifier.SUBSCRIBED_KINDS
    requires older.createdAt < newer.createdAt
    ensures Valid(LateRun(older, newer, now)) && Orderly(LateRun(older, newer, now))
    ensures Run(LateRun(older, newer, now)) == Repeated(older, newer)
  {
    var s4 := FirstHalf(older, newer);
    var s5 := s4 + [Publish(older)];
    HandledAndDown(older, newer);
    PublishLate(older, newer);
    StepTo(s4, OneHandled(older.createdAt, newer).(up := false), Publish(older), LatePublished(older, newer));
    Resume(older, newer, now);
    StepTo(s5, LatePublished(older, newer), Start(now, Saved, {newer}), Resumed(older, newer));
    Repeat(older, newer);
    StepTo(s5 + [Start(now, Saved, {newer})], Resumed(older, newer), Deliver(newer, Saved), Repeated(older, newer));
  }

  ghost predicate AllSaved(steps: seq<Step>) { forall step :: step in steps ==> Saves(step) }

  lemma LateRunSaves(older: Event, newer: Event, now: int)
    ensures AllSaved(LateRun(older, newer, now))
  {}

  lemma LateRunLoses(older: Event, newer: Event, now: int)
    requires older.kind in Classifier.SUBSCRIBED_KINDS && newer.kind in Classifier.SUBSCRIBED_KINDS
    requires older.createdAt < newer.createdAt
    ensures var steps := LateRun(older, newer, now);
      && Valid(steps) && Orderly(steps) && AllSaved(steps)
      && Lost(Run(steps), older) && Run(steps).base <= older.createdAt
  {
    LateRunEnds(older, newer, now);
    LateRunSaves(older, newer, now);
    assert Lost(Repeated(older, newer), older);
  }

  /** So every admitted event of a subscribed kind has a back-dated twin that the relay admits too and
      that a run loses: no save fails, no reply is truncated, everything comes oldest first. */
  lemma BackdatedEventIsLost(
      cfg: Boot.Config, b: PolicyStore.Buckets, s: Relay.Submission, id: string, at: Decimal.GoInt, now: int)
    requires Relay.Judge(cfg, b, s) == None && s.event.kind in Classifier.SUBSCRIBED_KINDS
    requires at < s.event.createdAt
    ensures var older := Backdated(s.event, id, at);
      var steps := LateRun(older, s.event, now);
      && Relay.Judge(cfg, b, s.(event := older)) == None
      && Valid(steps) && Orderly(steps) && AllSaved(steps)
      && Lost(Run(steps), older) && Run(steps).base <= older.createdAt
  {
    BackdatedIsAdmitted(cfg, b, s, id, at);
    LateRunLoses(Backdated(s.event, id, at), s.event, now);
  }

  // A relay booted on an empty store, with an operator and a key that signs notices.
  const NO_POLICY: PolicyStore.Buckets := PolicyStore.Buckets(map[], map[], map[], map[], map[])

  function NoticeConfig(operator: string, author: string): Boot.Config {
    Boot.Config(operator, "", author, "", [], [], true, None, [], [], 100000)
  }

  // That key's empty system notice.
  function EmptyNotice(id: string, author: string, at: Decimal.GoInt): Event {
    Event(id, author, at, SYSTEM_EVENT, [], Json.Empty)
  }

  lemma NoticeRelayBooted(valid: Boot.KeyCheck, operator: string, author: string)
    requires !valid("") && valid(author)
    ensures var b := Boot.Booted(valid, NoticeConfig(operator, author), NO_POLICY);
      author in b.allowed && b.banned == map[] && b.kindsAllowed == map[] && b.kindsDenied == map[]
  {
    var cfg := NoticeConfig(operator, author);
    assert Boot.BootedReason(valid, cfg, NO_POLICY, author) == Some("portal");
    assert author in Boot.BootedKeys(valid, cfg, NO_POLICY);
    assert Boot.KindKeys([]) == {};
  }

  lemma EmptyNoticeIsAdmissible(
      b: PolicyStore.Buckets, operator: string, author: string, id: string, at: Decimal.GoInt)
    requires author != "" && author in b.allowed
    requires b.banned == map[] && b.kindsAllowed == map[] && b.kindsDenied == map[]
    ensures Relay.Admissible(NoticeConfig(operator, author), b,
                             Relay.Submission(EmptyNotice(id, author, at), author, at, true, ""))
  {
    assert KindPolicy.KindAllowed(b, SYSTEM_EVENT);
    assert Validate(EmptyNotice(id, author, at), "") == None;
  }

  lemma EmptyNoticeIsAdmitted(valid: Boot.KeyCheck, operator: string, author: string, id: string, at: Decimal.GoInt)
    requires !valid("") && valid(author)
    ensures var cfg := NoticeConfig(operator, author);
      Relay.Judge(cfg, Boot.Booted(valid, cfg, NO_POLICY),
                  Relay.Submission(EmptyNotice(id, author, at), author, at, true, "")) == None
  {
    var cfg := NoticeConfig(operator, author);
    var b := Boot.Booted(valid, cfg, NO_POLICY);
    NoticeRelayBooted(valid, operator, author);
    EmptyNoticeIsAdmissible(b, operator, author, id, at);
    Relay.AdmissionIsExact(cfg, b, Relay.Submission(EmptyNotice(id, author, at), author, at, true, ""));
  }

  /** A concrete loss: on a relay just booted the notice key publishes an empty notice, and while the
      service is down another dated earlier; both are admitted, and the second is lost. */
  lemma EmptyNoticeIsLost(valid: Boot.KeyCheck, operator: string, author: string, ids: (string, string),
                          early: Decimal.GoInt, at: Decimal.GoInt, now: int)
    requires !valid("") && valid(author) && operator != "" && early < at
    ensures var cfg := NoticeConfig(operator, author);
      var b := Boot.Booted(valid, cfg, NO_POLICY);
      var newer, older := EmptyNotice(ids.0, author, at), EmptyNotice(ids.1, author, early);
      && Relay.Judge(cfg, b, Relay.Submission(newer, author, at, true, "")) == None
      && Relay.Judge(cfg, b, Relay.Submission(older, author, at, true, "")) == None
      && Valid(LateRun(older, newer, now)) && Lost(Run(LateRun(older, newer, now)), older)
  {
    var cfg := NoticeConfig(operator, author);
    var newer := EmptyNotice(ids.0, author, at);
    EmptyNoticeIsAdmitted(valid, operator, author, ids.0, at);
    BackdatedEventIsLost(cfg, Boot.Booted(valid, cfg, NO_POLICY),
                         Relay.Submission(newer, author, at, true, ""), ids.1, early, now);
  }

  // ----- delivered newest first -----

  function TwoStored(older: Event, newer: Event): State {
    Fresh(older.createdAt).(store := {older, newer}, up := false)
  }

  function TwoOwed(older: Event, newer: Event): State {
    TwoStored(older, newer).(up := true, found := At(older.createdAt), owed := {older, newer})
  }

  function NewestHandled(older: Event, newer: Event): State {
    TwoOwed(older, newer).(
      mem := Mem(newer.createdAt, At(newer.createdAt), [newer]), owed := {older},
      mark := Some(newer.createdAt), overtaken := {older})
  }

  lemma OwesTwo(older: Event, newer: Event)
    requires older.createdAt < newer.createdAt
    ensures var s, start := TwoStored(older, newer), Start(newer.createdAt, Saved, {older, newer});
      Enabled(s, start) && Next(s, start) == TwoOwed(older, newer)
  {
    assert Asked({older, newer}, older.createdAt) == {older, newer};
  }

  lemma NewestOvertakes(older: Event, newer: Event)
    requires older.createdAt < newer.createdAt
    ensures var s := TwoOwed(older, newer);
      Enabled(s, Deliver(newer, Saved)) && Next(s, Deliver(newer, Saved)) == NewestHandled(older, newer)
  {
    var s := TwoOwed(older, newer);
    assert s.owed - {newer} == {older};
    assert Observed(s, newer, Saved).overtaken == {older};
  }

  function TwoPublished(older: Event, newer: Event): seq<Step> {
    [] + [Start(older.createdAt, Saved, {})] + [Crash] + [Publish(older)] + [Publish(newer)]
  }

  lemma TwoPublishedWhileDown(older: Event, newer: Event)
    requires older.kind in Classifier.SUBSCRIBED_KINDS && newer.kind in Classifier.SUBSCRIBED_KINDS
    requires older.createdAt < newer.createdAt
    ensures Valid(TwoPublished(older, newer)) && Run(TwoPublished(older, newer)) == TwoStored(older, newer)
  {
    var at := older.createdAt;
    var s1 := [] + [Start(at, Saved, {})];
    var s2 := s1 + [Crash];
    var down := Fresh(at).(up := false);
    FreshStart(at);
    StepTo(s1, Fresh(at), Crash, down);
    StepTo(s2, down, Publish(older), down.(store := {older}));
    StepTo(s2 + [Publish(older)], down.(store := {older}), Publish(newer), TwoStored(older, newer));
  }

  function NewestFirstRun(older: Event, newer: Event): seq<Step> {
    TwoPublished(older, newer) + [Start(newer.createdAt, Saved, {older, newer})] + [Deliver(newer, Saved)] + [Crash]
  }

  lemma NewestFirstEnds(older: Event, newer: Event)
    requires older.kind in Classifier.SUBSCRIBED_KINDS && newer.kind in Classifier.SUBSCRIBED_KINDS
    requires older.createdAt < newer.createdAt
    ensures Valid(NewestFirstRun(older, newer))
    ensures Run(NewestFirstRun(older, newer)) == NewestHandled(older, newer).(up := false, owed := {})
  {
    var s4, start := TwoPublished(older, newer), Start(newer.createdAt, Saved, {older, newer});
    TwoPublishedWhileDown(older, newer);
    OwesTwo(older, newer);
    StepTo(s4, TwoStored(older, newer), start, TwoOwed(older, newer));
    NewestOvertakes(older, newer);
    StepTo(s4 + [start], TwoOwed(older, newer), Deliver(newer, Saved), NewestHandled(older, newer));
    StepTo(s4 + [start] + [Deliver(newer, Saved)], NewestHandled(older, newer), Crash,
           NewestHandled(older, newer).(up := false, owed := {}));
  }

  lemma NewestFirstSaved(older: Event, newer: Event)
    ensures AllSaved(NewestFirstRun(older, newer))
  {}

  /** Delivery in order is needed: a complete reply that comes newest first, and a crash, lose an event
      that was published in time. */
  lemma NewestFirstLoses(older: Event, newer: Event)
    requires older.kind in Classifier.SUBSCRIBED_KINDS && newer.kind in Classifier.SUBSCRIBED_KINDS
    requires older.createdAt < newer.createdAt
    ensures var steps := NewestFirstRun(older, newer);
      && Valid(steps) && AllSaved(steps) && Run(steps).late == {} && Run(steps).omitted == {}
      && Lost(Run(steps), older) && Run(steps).base <= older.createdAt
  {
    NewestFirstEnds(older, newer);
    NewestFirstSaved(older, newer);
    assert Lost(NewestHandled(older, newer).(up := false, owed := {}), older);
  }

  // ----- left out of a truncated reply -----

  const MANY: nat := Pruner.QUERY_LIMIT + 1

  // One event at each time from 1 on.
  function Nth(e: Event, i: nat): Event
    requires i <= MANY
  {
    e.(createdAt := i)
  }

  function Burst(e: Event, n: nat): set<Event>
    requires n <= MANY
  {
    if n == 0 then {} else Burst(e, n - 1) + {Nth(e, n)}
  }

  predicate InBurst(e: Event, n: nat, x: Event) { 1 <= x.createdAt <= n && x == e.(createdAt := x.createdAt) }

  lemma {:induction false} BurstMember(e: Event, n: nat, x: Event)
    requires n <= MANY
    ensures x in Burst(e, n) <==> InBurst(e, n, x)
  {
    if n > 0 {
      BurstMember(e, n - 1, x);
    }
  }

  lemma {:induction false} BurstSize(e: Event, n: nat)
    requires n <= MANY
    ensures |Burst(e, n)| == n
  {
    if n > 0 {
      BurstSize(e, n - 1);
      BurstMember(e, n - 1, Nth(e, n));
    }
  }

  // A session on an empty store, and then the burst.
  function Publishes(e: Event, n: nat): seq<Step>
    requires n <= MANY
  {
    if n == 0 then [] + [Start(0, Saved, {})] + [Crash] else Publishes(e, n - 1) + [Publish(Nth(e, n))]
  }

  function BurstState(e: Event, n: nat): State
    requires n <= MANY
  {
    Fresh(0).(store := Burst(e, n), up := false)
  }

  lemma BurstGrows(e: Event, n: nat)
    requires 0 < n <= MANY && e.kind in Classifier.SUBSCRIBED_KINDS
    ensures Enabled(BurstState(e, n - 1), Publish(Nth(e, n)))
    ensures Next(BurstState(e, n - 1), Publish(Nth(e, n))) == BurstState(e, n)
  {
    BurstMember(e, n - 1, Nth(e, n));
  }

  lemma BurstBegins(e: Event)
    ensures Valid(Publishes(e, 0)) && Run(Publishes(e, 0)) == BurstState(e, 0)
  {
    FreshStart(0);
    StepTo([] + [Start(0, Saved, {})], Fresh(0), Crash, BurstState(e, 0));
  }

  lemma {:induction false} BurstPublished(e: Event, n: nat)
    requires n <= MANY && e.kind in Classifier.SUBSCRIBED_KINDS
    ensures Valid(Publishes(e, n)) && Run(Publishes(e, n)) == BurstState(e, n)
  {
    if n == 0 {
      BurstBegins(e);
    } else {
      BurstPublished(e, n - 1);
      BurstGrows(e, n);
      StepTo(Publishes(e, n - 1), BurstState(e, n - 1), Publish(Nth(e, n)), BurstState(e, n));
    }
  }

  function BurstReply(e: Event): set<Event> { Burst(e, MANY) - {Nth(e, 1)} }

  lemma BurstReplies(e: Event)
    ensures Asked(Burst(e, MANY), 0) == Burst(e, MANY)
    ensures Reply(Burst(e, MANY), BurstReply(e))
    ensures Nth(e, 1) in Burst(e, MANY) && Nth(e, 2) in BurstReply(e)
    ensures Oldest(BurstReply(e), Nth(e, 2))
  {
    BurstSize(e, MANY);
    BurstMember(e, MANY, Nth(e, 1));
    BurstMember(e, MANY, Nth(e, 2));
    forall x | x in Burst(e, MANY) ensures x.createdAt >= 1 && (x != Nth(e, 1) ==> x.createdAt >= 2) {
      BurstMember(e, MANY, x);
    }
  }

  function BurstOwed(e: Event): State {
    BurstState(e, MANY).(up := true, found := At(0), owed := BurstReply(e), omitted := {Nth(e, 1)})
  }

  function SecondHandled(e: Event): State {
    BurstOwed(e).(mem := Mem(2, At(2), [Nth(e, 2)]), owed := BurstReply(e) - {Nth(e, 2)}, mark := Some(2))
  }

  lemma BurstTruncated(e: Event, now: int)
    ensures Enabled(BurstState(e, MANY), Start(now, Saved, BurstReply(e)))
    ensures Next(BurstState(e, MANY), Start(now, Saved, BurstReply(e))) == BurstOwed(e)
  {
    BurstReplies(e);
    assert Burst(e, MANY) - BurstReply(e) == {Nth(e, 1)};
  }

  lemma SecondDelivered(e: Event)
    ensures Enabled(BurstOwed(e), Deliver(Nth(e, 2), Saved))
    ensures Next(BurstOwed(e), Deliver(Nth(e, 2), Saved)) == SecondHandled(e)
  {
    BurstReplies(e);
    assert Observed(BurstOwed(e), Nth(e, 2), Saved).overtaken == {};
  }

  /** The limit matters too: when one event more than the limit is published while the service is down,
      delivery oldest first loses the first of them, with no crash and no failed save. */
  lemma TruncatedReplyLoses(e: Event, now: int)
    requires e.kind in Classifier.SUBSCRIBED_KINDS
    ensures var restart := Publishes(e, MANY) + [Start(now, Saved, BurstReply(e))];
      var steps := restart + [Deliver(Nth(e, 2), Saved)];
      && Valid(steps) && Oldest(Run(restart).owed, Nth(e, 2))
      && Run(steps).late == {} && Run(steps).overtaken == {}
      && Lost(Run(steps), Nth(e, 1)) && Run(steps).base <= 1
  {
    BurstPublished(e, MANY);
    BurstTruncated(e, now);
    StepTo(Publishes(e, MANY), BurstState(e, MANY), Start(now, Saved, BurstReply(e)), BurstOwed(e));
    SecondDelivered(e);
    StepTo(Publishes(e, MANY) + [Start(now, Saved, BurstReply(e))], BurstOwed(e), Deliver(Nth(e, 2), Saved),
           SecondHandled(e));
    BurstReplies(e);
  }

  // ----- before there is a base -----

  /** Until a cursor is on disk nothing is promised: when the first save of a fresh install fails and it
      crashes, the next session starts over at the present, and what came in between is lost. */
  lemma FailedFirstSaveLoses(e: Event, now: int)
    requires e.kind in Classifier.SUBSCRIBED_KINDS && e.createdAt < now
    ensures var steps := [] + [Start(e.createdAt, Kept, {})] + [Crash] + [Publish(e)] + [Start(now, Saved, {})];
      && Valid(steps) && Orderly(steps)
      && Run(steps).late == {} && Lost(Run(steps), e) && Run(steps).base == now
  {
    var at := e.createdAt;
    var s1 := [] + [Start(at, Kept, {})];
    var s2 := s1 + [Crash];
    var unsaved := START.(mem := Mem(at, Absent, []), since := at, base := at);
    var back := unsaved.(
      store := {e}, mem := Mem(now, At(now), []), up := true, since := now, base := now, mark := Some(now));
    StartHere();
    assert Next(START, Start(at, Kept, {})) == unsaved.(up := true);
    StepTo([], START, Start(at, Kept, {}), unsaved.(up := true));
    StepTo(s1, unsaved.(up := true), Crash, unsaved);
    StepTo(s2, unsaved, Publish(e), unsaved.(store := {e}));
    assert Asked({e}, now) == {};
    assert Next(unsaved.(store := {e}), Start(now, Saved, {})) == back;
    StepTo(s2 + [Publish(e)], unsaved.(store := {e}), Start(now, Saved, {}), back);
  }

  // ----- a torn file -----

  function DiesSaving(first: int, e: Event): seq<Step> {
    [] + [Start(first, Saved, {})] + [Publish(e)] + [Die(e, Tore)]
  }

  function Dead(first: int, e: Event): State {
    OneOwed(first, e).(mem := Mem(e.createdAt, Torn, []), up := false, owed := {})
  }

  lemma DiedSaving(first: int, e: Event)
    requires e.kind in Classifier.SUBSCRIBED_KINDS && first < e.createdAt
    ensures Valid(DiesSaving(first, e)) && Orderly(DiesSaving(first, e)) && Run(DiesSaving(first, e)) == Dead(first, e)
  {
    var s1 := [] + [Start(first, Saved, {})];
    FreshStart(first);
    PublishOne(first, e);
    StepTo(s1, Fresh(first), Publish(e), OneOwed(first, e));
    assert Observed(OneOwed(first, e), e, Tore).overtaken == {};
    StepTo(s1 + [Publish(e)], OneOwed(first, e), Die(e, Tore), Dead(first, e));
  }

  /** One crash inside one save is enough: the event in hand is unhandled, no session can start, and
      whoever removes the file and starts over later than the event loses it. */
  lemma TornSaveStops(first: int, e: Event, now: int)
    requires e.kind in Classifier.SUBSCRIBED_KINDS && first < e.createdAt < now
    ensures var steps := DiesSaving(first, e);
      && Valid(steps) && Orderly(steps) && Run(steps).late == {} && e !in Run(steps).mem.handled
      && (forall at, save, reply :: !Enabled(Run(steps), Start(at, save, reply)))
      && var repaired := steps + [Repair] + [Start(now, Saved, {})];
      && Valid(repaired) && Lost(Run(repaired), e)
  {
    var steps, fixed := DiesSaving(first, e), Dead(first, e).(mem := Mem(e.createdAt, Absent, []), mark := None);
    DiedSaving(first, e);
    StepTo(steps, Dead(first, e), Repair, fixed);
    assert Asked({e}, now) == {};
    StepTo(steps + [Repair], fixed, Start(now, Saved, {}), Next(fixed, Start(now, Saved, {})));
    RepairLoses(steps, now, {}, e);
  }
}
