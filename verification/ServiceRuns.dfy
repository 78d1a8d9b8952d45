/** Runs of the notification service: events handled rule by rule while the digest is flushed beside them. */
module ServiceRuns {
  import opened Options
  import opened EventModel
  import opened Classifier
  import opened NotifyPolicy
  import opened DigestFormat
  import opened Service
  import D = Digest

  // One rule still to be carried out for the event in hand.
  datatype Task = Task(rule: Rule, item: Item)

  datatype State = State(events: seq<Event>, todo: seq<Task>, attempts: seq<Attempt>, queue: D.State)

  // The event loop receives an event or does one rule's work; the flush swaps or sends in between.
  datatype Step = Receive(e: Event) | Work | Swap | SendOne(npub: string, ok: bool)

  const START: State := State([], [], [], D.START)

  function Tasks(rules: seq<Rule>, item: Item): seq<Task> {
    seq(|rules|, i requires 0 <= i < |rules| => Task(rules[i], item))
  }

  function TasksOf(rules: seq<Rule>, e: Event): seq<Task> {
    match Classify(e)
    case None => []
    case Some(item) => Tasks(Triggered(rules, e), item)
  }

  predicate Enabled(s: State, step: Step) {
    match step
    case Receive(_) => s.todo == []
    case Work => s.todo != []
    case Swap => D.Enabled(s.queue, D.Swap)
    case SendOne(npub, ok) => D.Enabled(s.queue, D.SendOne(npub, ok))
  }

  function Queue(q: D.State, task: Task): D.State {
    if task.rule.delivery == "summary" then D.Next(q, D.Add(task.rule.recipient, task.item)) else q
  }

  function Next(p: Policy, s: State, step: Step): State
    requires Enabled(s, step)
    reads p
  {
    match step
    case Receive(e) => s.(events := s.events + [e], todo := TasksOf(p.rules, e))
    case Work =>
      var task := s.todo[0];
      s.(todo := s.todo[1..],
         attempts := s.attempts + RuleAttempts(p, task.rule, task.item),
         queue := Queue(s.queue, task))
    case Swap => s.(queue := D.Next(s.queue, D.Swap))
    case SendOne(npub, ok) => s.(queue := D.Next(s.queue, D.SendOne(npub, ok)))
  }

  ghost predicate Schedule(p: Policy, s: State, steps: seq<Step>)
    reads p
    decreases |steps|
  {
    steps == [] || (Enabled(s, steps[0]) && Schedule(p, Next(p, s, steps[0]), steps[1..]))
  }

  ghost function Run(p: Policy, s: State, steps: seq<Step>): State
    requires Schedule(p, s, steps)
    reads p
    decreases |steps|
  {
    if steps == [] then s else Run(p, Next(p, s, steps[0]), steps[1..])
  }

  // ----- what is due, by the policy and the events alone -----

  predicate Wants(rule: Rule, item: Item, npub: string) {
    Qualifies(rule, item.class_, Rank(item)) && rule.delivery == "summary" && rule.recipient == npub
  }

  // How many of the policy's rules want the item in a recipient's digest.
  function Wanted(rules: seq<Rule>, item: Item, npub: string): nat
    decreases |rules|
  {
    if rules == [] then 0 else
      Wanted(rules[..|rules| - 1], item, npub) + if Wants(rules[|rules| - 1], item, npub) then 1 else 0
  }

  function Copies(item: Item, n: nat): seq<Item> { seq(n, _ => item) }

  /** A recipient's digest items: in the order of the events, each item once for each rule that wants it. */
  function Due(rules: seq<Rule>, events: seq<Event>, npub: string): seq<Item>
    decreases |events|
  {
    if events == [] then [] else
      Due(rules, events[..|events| - 1], npub) +
      match Classify(events[|events| - 1])
      case None => []
      case Some(item) => Copies(item, Wanted(rules, item, npub))
  }

  // The sends an item calls for: one for each immediate rule, in file order, to the key it decodes to.
  function SendsOf(decode: Decoder, rules: seq<Rule>, item: Item): seq<Attempt>
    decreases |rules|
  {
    if rules == [] then [] else
      var last := rules[|rules| - 1];
      SendsOf(decode, rules[..|rules| - 1], item) +
      if Qualifies(last, item.class_, Rank(item)) && last.delivery == "immediate" then
        [Attempt(decode(last.recipient).GetOr(""), FormatImmediate(item), last.scope)]
      else []
  }

  function SendsDue(decode: Decoder, rules: seq<Rule>, events: seq<Event>): seq<Attempt>
    decreases |events|
  {
    if events == [] then [] else
      SendsDue(decode, rules, events[..|events| - 1]) +
      match Classify(events[|events| - 1])
      case None => []
      case Some(item) => SendsOf(decode, rules, item)
  }

  // ----- what the work still to do amounts to -----

  function TaskItems(task: Task, npub: string): seq<Item> {
    if task.rule.delivery == "summary" && task.rule.recipient == npub then [task.item] else []
  }

  function TodoItems(todo: seq<Task>, npub: string): seq<Item> {
    if todo == [] then [] else TaskItems(todo[0], npub) + TodoItems(todo[1..], npub)
  }

  function TaskSends(decode: Decoder, task: Task): seq<Attempt> {
    if task.rule.delivery == "immediate" then
      [Attempt(decode(task.rule.recipient).GetOr(""), FormatImmediate(task.item), task.rule.scope)]
    else []
  }

  function TodoSends(decode: Decoder, todo: seq<Task>): seq<Attempt> {
    if todo == [] then [] else TaskSends(decode, todo[0]) + TodoSends(decode, todo[1..])
  }

  lemma {:induction false} TodoItemsSnoc(todo: seq<Task>, task: Task, npub: string)
    ensures TodoItems(todo + [task], npub) == TodoItems(todo, npub) + TaskItems(task, npub)
    decreases |todo|
  {
    if todo == [] {
      assert todo + [task] == [task] && [task][1..] == [];
    } else {
      assert (todo + [task])[0] == todo[0] && (todo + [task])[1..] == todo[1..] + [task];
      TodoItemsSnoc(todo[1..], task, npub);
    }
  }

  lemma {:induction false} TodoSendsSnoc(decode: Decoder, todo: seq<Task>, task: Task)
    ensures TodoSends(decode, todo + [task]) == TodoSends(decode, todo) + TaskSends(decode, task)
    decreases |todo|
  {
    if todo == [] {
      assert todo + [task] == [task] && [task][1..] == [];
    } else {
      assert (todo + [task])[0] == todo[0] && (todo + [task])[1..] == todo[1..] + [task];
      TodoSendsSnoc(decode, todo[1..], task);
    }
  }

  lemma TasksSnoc(rules: seq<Rule>, rule: Rule, item: Item)
    ensures Tasks(rules + [rule], item) == Tasks(rules, item) + [Task(rule, item)]
  {}

  lemma {:induction false} ItemsAreDue(rules: seq<Rule>, item: Item, npub: string)
    ensures TodoItems(Tasks(Matching(rules, item.class_, Rank(item)), item), npub)
      == Copies(item, Wanted(rules, item, npub))
    decreases |rules|
  {
    if rules != [] {
      var front, last := rules[..|rules| - 1], rules[|rules| - 1];
      var matching := Matching(front, item.class_, Rank(item));
      ItemsAreDue(front, item, npub);
      if Qualifies(last, item.class_, Rank(item)) {
        assert Matching(rules, item.class_, Rank(item)) == matching + [last];
        TasksSnoc(matching, last, item);
        TodoItemsSnoc(Tasks(matching, item), Task(last, item), npub);
        CopiesSnoc(item, Wanted(front, item, npub));
      } else {
        assert Matching(rules, item.class_, Rank(item)) == matching;
      }
    }
  }

  lemma {:induction false} SendsAreDue(decode: Decoder, rules: seq<Rule>, item: Item)
    ensures TodoSends(decode, Tasks(Matching(rules, item.class_, Rank(item)), item)) == SendsOf(decode, rules, item)
    decreases |rules|
  {
    if rules != [] {
      var front, last := rules[..|rules| - 1], rules[|rules| - 1];
      var matching := Matching(front, item.class_, Rank(item));
      SendsAreDue(decode, front, item);
      if Qualifies(last, item.class_, Rank(item)) {
        assert Matching(rules, item.class_, Rank(item)) == matching + [last];
        TasksSnoc(matching, last, item);
        TodoSendsSnoc(decode, Tasks(matching, item), Task(last, item));
      } else {
        assert Matching(rules, item.class_, Rank(item)) == matching;
        assert SendsOf(decode, rules, item) == SendsOf(decode, front, item);
      }
    }
  }

  lemma CopiesSnoc(item: Item, n: nat)
    ensures Copies(item, n + 1) == Copies(item, n) + [item]
  {}

  // ----- what every run keeps -----

  predicate ItemsDue(rules: seq<Rule>, s: State, npub: string) {
    D.ArrivedFor(s.queue.arrived, npub) + TodoItems(s.todo, npub) == Due(rules, s.events, npub)
  }

  predicate AttemptsDue(decode: Decoder, rules: seq<Rule>, s: State) {
    s.attempts + TodoSends(decode, s.todo) == SendsDue(decode, rules, s.events)
  }

  predicate OnlyFor(q: D.State, npubs: set<string>) {
    && q.pending.Keys <= npubs && q.flying.Keys <= npubs
    && forall i :: 0 <= i < |q.handed| ==> q.handed[i].npub in npubs
  }

  predicate GoodTasks(todo: seq<Task>, npubs: set<string>) {
    forall i :: 0 <= i < |todo| ==> GoodRule(npubs, todo[i].rule)
  }

  ghost predicate Inv(p: Policy, decode: Decoder, s: State)
    reads p
  {
    && D.Inv(s.queue) && OnlyFor(s.queue, Npubs(p.recipients)) && GoodTasks(s.todo, Npubs(p.recipients))
    && AttemptsDue(decode, p.rules, s)
    && forall npub :: ItemsDue(p.rules, s, npub)
  }

  lemma ReceiveItems(p: Policy, s: State, e: Event, npub: string)
    requires ItemsDue(p.rules, s, npub) && Enabled(s, Receive(e))
    ensures ItemsDue(p.rules, Next(p, s, Receive(e)), npub)
  {
    assert (s.events + [e])[..|s.events|] == s.events;
    if Classify(e).Some? {
      ItemsAreDue(p.rules, Classify(e).value, npub);
    }
  }

  lemma ReceiveSends(p: Policy, decode: Decoder, s: State, e: Event)
    requires AttemptsDue(decode, p.rules, s) && Enabled(s, Receive(e))
    ensures AttemptsDue(decode, p.rules, Next(p, s, Receive(e)))
  {
    SendsDueSnoc(decode, p.rules, s.events, e);
    assert s.attempts + [] == s.attempts;
    if Classify(e).Some? {
      SendsAreDue(decode, p.rules, Classify(e).value);
    }
  }

  lemma SendsDueSnoc(decode: Decoder, rules: seq<Rule>, events: seq<Event>, e: Event)
    ensures SendsDue(decode, rules, events + [e]) == SendsDue(decode, rules, events) +
      match Classify(e) case None => [] case Some(item) => SendsOf(decode, rules, item)
  {
    assert (events + [e])[..|events|] == events;
  }

  lemma ReceiveGood(p: Policy, decode: Decoder, e: Event)
    requires p.Validated(decode)
    ensures GoodTasks(TasksOf(p.rules, e), Npubs(p.recipients))
  {
    if Classify(e).Some? {
      MatchingIsGood(p.byNpub.Keys, p.rules, Classify(e).value.class_, Rank(Classify(e).value));
    }
  }

  lemma ReceiveHolds(p: Policy, decode: Decoder, s: State, e: Event)
    requires p.Validated(decode) && Inv(p, decode, s) && Enabled(s, Receive(e))
    ensures Inv(p, decode, Next(p, s, Receive(e)))
  {
    ReceiveGood(p, decode, e);
    ReceiveSends(p, decode, s, e);
    forall npub ensures ItemsDue(p.rules, Next(p, s, Receive(e)), npub) {
      ReceiveItems(p, s, e, npub);
    }
  }

  lemma WorkItems(p: Policy, s: State, npub: string)
    requires ItemsDue(p.rules, s, npub) && Enabled(s, Work)
    ensures ItemsDue(p.rules, Next(p, s, Work), npub)
  {
    WorkQueues(p, s, npub);
    Regroup(D.ArrivedFor(s.queue.arrived, npub), TaskItems(s.todo[0], npub), TodoItems(s.todo[1..], npub));
  }

  lemma WorkAttempts(p: Policy, decode: Decoder, s: State)
    requires p.Validated(decode) && Enabled(s, Work) && GoodRule(Npubs(p.recipients), s.todo[0].rule)
    requires AttemptsDue(decode, p.rules, s)
    ensures AttemptsDue(decode, p.rules, Next(p, s, Work))
  {
    WorkSends(p, decode, s.todo[0]);
    Regroup(s.attempts, TaskSends(decode, s.todo[0]), TodoSends(decode, s.todo[1..]));
  }

  lemma Regroup<T>(a: seq<T>, b: seq<T>, c: seq<T>)
    ensures (a + b) + c == a + (b + c)
  {}

  lemma WorkHolds(p: Policy, decode: Decoder, s: State)
    requires p.Validated(decode) && Inv(p, decode, s) && Enabled(s, Work)
    ensures Inv(p, decode, Next(p, s, Work))
  {
    var npubs := Npubs(p.recipients);
    assert GoodRule(npubs, s.todo[0].rule);
    WorkAttempts(p, decode, s);
    forall npub ensures ItemsDue(p.rules, Next(p, s, Work), npub) {
      WorkItems(p, s, npub);
    }
    WorkKeepsQueue(s.queue, s.todo[0], npubs);
    GoodRest(s.todo, npubs);
  }

  lemma GoodRest(todo: seq<Task>, npubs: set<string>)
    requires todo != [] && GoodTasks(todo, npubs)
    ensures GoodTasks(todo[1..], npubs)
  {}

  lemma WorkKeepsQueue(q: D.State, task: Task, npubs: set<string>)
    requires D.Inv(q) && OnlyFor(q, npubs) && task.rule.recipient in npubs
    ensures D.Inv(Queue(q, task)) && OnlyFor(Queue(q, task), npubs)
  {
    if task.rule.delivery == "summary" {
      D.NextHolds(q, D.Add(task.rule.recipient, task.item));
    }
  }

  // A good immediate rule is carried out by exactly its send; any other sends nothing.
  lemma WorkSends(p: Policy, decode: Decoder, task: Task)
    requires p.Validated(decode) && GoodRule(Npubs(p.recipients), task.rule)
    ensures RuleAttempts(p, task.rule, task.item) == TaskSends(decode, task)
  {
    LookupAgreesWithList(p, decode, task.rule.recipient);
  }

  lemma WorkQueues(p: Policy, s: State, npub: string)
    requires Enabled(s, Work)
    ensures D.ArrivedFor(Next(p, s, Work).queue.arrived, npub)
      == D.ArrivedFor(s.queue.arrived, npub) + TaskItems(s.todo[0], npub)
  {
    var q, q' := s.queue, Next(p, s, Work).queue;
    if s.todo[0].rule.delivery == "summary" {
      assert q'.arrived[..|q'.arrived| - 1] == q.arrived;
    }
  }

  lemma NextHolds(p: Policy, decode: Decoder, s: State, step: Step)
    requires p.Validated(decode) && Inv(p, decode, s) && Enabled(s, step)
    ensures Inv(p, decode, Next(p, s, step))
  {
    match step
    case Receive(e) => ReceiveHolds(p, decode, s, e);
    case Work => WorkHolds(p, decode, s);
    case Swap => FlushHolds(p, decode, s, D.Swap, step);
    case SendOne(npub, ok) => FlushHolds(p, decode, s, D.SendOne(npub, ok), step);
  }

  lemma FlushHolds(p: Policy, decode: Decoder, s: State, flush: D.Step, step: Step)
    requires Inv(p, decode, s) && D.Enabled(s.queue, flush) && Enabled(s, step) && !flush.Add?
    requires Next(p, s, step) == s.(queue := D.Next(s.queue, flush))
    ensures Inv(p, decode, Next(p, s, step))
  {
    D.NextHolds(s.queue, flush);
    forall npub ensures ItemsDue(p.rules, Next(p, s, step), npub) {
      assert ItemsDue(p.rules, s, npub);
    }
  }

  lemma {:induction false} RunHolds(p: Policy, decode: Decoder, s: State, steps: seq<Step>)
    requires p.Validated(decode) && Inv(p, decode, s) && Schedule(p, s, steps)
    ensures Inv(p, decode, Run(p, s, steps))
    decreases |steps|
  {
    if steps != [] {
      NextHolds(p, decode, s, steps[0]);
      RunHolds(p, decode, Next(p, s, steps[0]), steps[1..]);
    }
  }

  lemma StartHolds(p: Policy, decode: Decoder)
    ensures Inv(p, decode, START)
  {
    D.StartHolds();
  }

  // ----- the theorems -----

  /** Under every interleaving of handling and flushing, what was handed over for a recipient, then what
      is in flight, then what is pending, then what the rules still to be carried out will queue, spells
      out exactly what the events received so far put into that recipient's digest, in order. */
  lemma DigestEndToEnd(p: Policy, decode: Decoder, steps: seq<Step>, npub: string)
    requires p.Validated(decode) && Schedule(p, START, steps)
    ensures var s := Run(p, START, steps);
      D.HandedTo(s.queue.handed, npub) + D.QueueOf(s.queue.flying, npub) + D.QueueOf(s.queue.pending, npub)
      + TodoItems(s.todo, npub) == Due(p.rules, s.events, npub)
  {
    StartHolds(p, decode);
    RunHolds(p, decode, START, steps);
    var s := Run(p, START, steps);
    assert D.Conserved(s.queue, npub) && ItemsDue(p.rules, s, npub);
  }

  /** And the immediate sends made, then those still to be made, are exactly the ones the events received
      so far call for, each to the decoded key of its rule's recipient, whatever the flush does. */
  lemma SendsEndToEnd(p: Policy, decode: Decoder, steps: seq<Step>)
    requires p.Validated(decode) && Schedule(p, START, steps)
    ensures var s := Run(p, START, steps);
      s.attempts + TodoSends(decode, s.todo) == SendsDue(decode, p.rules, s.events)
  {
    StartHolds(p, decode);
    RunHolds(p, decode, START, steps);
  }

  // What sendDigest does with a batch: nothing at all for an unknown recipient.
  function DigestAttempt(p: Policy, batch: D.Batch): Option<Attempt>
    reads p
  {
    match p.RecipientPubkey(batch.npub)
    case None => None
    case Some(pk) => Some(Attempt(pk, batch.body, "local-only"))
  }

  /** No digest is dropped: in every run of the service every batch a flush hands over is sent, to the
      decoded key of its recipient, and holds something. */
  lemma NoDigestDropped(p: Policy, decode: Decoder, steps: seq<Step>, i: nat)
    requires p.Validated(decode) && Schedule(p, START, steps)
    requires i < |Run(p, START, steps).queue.handed|
    ensures var batch := Run(p, START, steps).queue.handed[i];
      && decode(batch.npub).Some?
      && DigestAttempt(p, batch) == Some(Attempt(decode(batch.npub).value, Render(batch.items), "local-only"))
      && batch.items != []
  {
    StartHolds(p, decode);
    RunHolds(p, decode, START, steps);
    LookupAgreesWithList(p, decode, Run(p, START, steps).queue.handed[i].npub);
  }

  // ----- HandleEvent is such a run -----

  function Works(n: nat): seq<Step> { seq(n, _ => Work) }

  lemma {:induction false} WorksCarryOut(p: Policy, s: State, rules: seq<Rule>, item: Item)
    requires s.todo == Tasks(rules, item)
    ensures Schedule(p, s, Works(|rules|)) && D.Schedule(s.queue, Adds(rules, item))
    ensures var t := Run(p, s, Works(|rules|));
      && t.todo == [] && t.events == s.events
      && t.attempts == s.attempts + Attempts(p, rules, item)
      && t.queue == D.Run(s.queue, Adds(rules, item))
    decreases |rules|
  {
    if rules != [] {
      var rest := rules[1..];
      assert Works(|rules|)[1..] == Works(|rest|);
      assert s.todo[1..] == Tasks(rest, item);
      WorksCarryOut(p, Next(p, s, Work), rest, item);
      AttemptsFirst(p, rules, item);
      AddsRun(s.queue, rules, item);
      Regroup(s.attempts, RuleAttempts(p, rules[0], item), Attempts(p, rest, item));
    } else {
      assert Works(0) == [];
    }
  }

  lemma AddsRun(q: D.State, rules: seq<Rule>, item: Item)
    requires rules != [] && D.Schedule(Queue(q, Task(rules[0], item)), Adds(rules[1..], item))
    ensures D.Schedule(q, Adds(rules, item))
    ensures D.Run(q, Adds(rules, item)) == D.Run(Queue(q, Task(rules[0], item)), Adds(rules[1..], item))
  {
    AddsFirst(rules, item);
    if rules[0].delivery == "summary" {
      assert Adds(rules, item)[0] == D.Add(rules[0].recipient, item);
      assert Adds(rules, item)[1..] == Adds(rules[1..], item);
    } else {
      assert Adds(rules, item) == Adds(rules[1..], item);
    }
  }

  lemma {:induction false} AttemptsFirst(p: Policy, rules: seq<Rule>, item: Item)
    requires rules != []
    ensures Attempts(p, rules, item) == RuleAttempts(p, rules[0], item) + Attempts(p, rules[1..], item)
    decreases |rules|
  {
    if |rules| > 1 {
      AttemptsFirst(p, rules[..|rules| - 1], item);
      assert rules[..|rules| - 1][1..] == rules[1..][..|rules| - 2];
    }
  }

  lemma {:induction false} AddsFirst(rules: seq<Rule>, item: Item)
    requires rules != []
    ensures Adds(rules, item) == RuleAdds(rules[0], item) + Adds(rules[1..], item)
    decreases |rules|
  {
    if |rules| > 1 {
      AddsFirst(rules[..|rules| - 1], item);
      assert rules[..|rules| - 1][1..] == rules[1..][..|rules| - 2];
    }
  }

  /** Receiving an event and working off its rules with nothing in between is what HandleEvent does to
      the sends and to the digest. */
  lemma HandleEventIsRun(p: Policy, s: State, e: Event)
    requires s.todo == [] && Classify(e).Some?
    ensures var rules, item := Triggered(p.rules, e), Classify(e).value;
      var steps := [Receive(e)] + Works(|rules|);
      && Schedule(p, s, steps) && D.Schedule(s.queue, Adds(rules, item))
      && var t := Run(p, s, steps);
      && t.todo == [] && t.events == s.events + [e]
      && t.attempts == s.attempts + Attempts(p, rules, item)
      && t.queue == D.Run(s.queue, Adds(rules, item))
  {
    var rules, item := Triggered(p.rules, e), Classify(e).value;
    var steps := [Receive(e)] + Works(|rules|);
    assert steps[1..] == Works(|rules|);
    WorksCarryOut(p, Next(p, s, Receive(e)), rules, item);
  }
}
