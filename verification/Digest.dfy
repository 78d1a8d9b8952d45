/** The digest: a queue for each recipient, drained by a flush that runs beside the event loop. */
module Digest {
  import opened Options
  import opened Classifier
  import DigestFormat

  type Queues = map<string, seq<Item>>

  datatype Queued = Queued(npub: string, item: Item)

  // One call of Send.
  datatype Batch = Batch(npub: string, items: seq<Item>, body: string)

  /** The shared state at the points where the lock is free or a send has just returned. */
  datatype State = State(
    arrived: seq<Queued>,        // every Add so far, in arrival order
    pending: Queues,
    flying: Queues,              // what the flush in progress swapped out and has not handed over yet
    handed: seq<Batch>,          // every call of Send so far
    failed: Option<string>)      // the first recipient whose send failed in the flush in progress

  // The atomic steps: Add and Swap hold the lock, each send is on its own.
  datatype Step = Add(npub: string, item: Item) | Swap | SendOne(npub: string, ok: bool)

  function QueueOf(q: Queues, npub: string): seq<Item> { if npub in q then q[npub] else [] }

  // One goroutine flushes, so a swap waits for the flush before it, which sends to each recipient once.
  predicate Enabled(s: State, step: Step) {
    match step
    case Add(_, _) => true
    case Swap => s.flying == map[]
    case SendOne(npub, _) => npub in s.flying
  }

  function Next(s: State, step: Step): State
    requires Enabled(s, step)
  {
    match step
    case Add(npub, item) =>
      s.(arrived := s.arrived + [Queued(npub, item)],
         pending := s.pending[npub := QueueOf(s.pending, npub) + [item]])
    case Swap => s.(pending := map[], flying := s.pending, failed := None)
    case SendOne(npub, ok) =>
      s.(flying := s.flying - {npub},
         handed := s.handed + [Batch(npub, s.flying[npub], DigestFormat.Render(s.flying[npub]))],
         failed := if !ok && s.failed.None? then Some(npub) else s.failed)
  }

  ghost predicate Schedule(s: State, steps: seq<Step>)
    decreases |steps|
  {
    steps == [] || (Enabled(s, steps[0]) && Schedule(Next(s, steps[0]), steps[1..]))
  }

  ghost function Run(s: State, steps: seq<Step>): State
    requires Schedule(s, steps)
    decreases |steps|
  {
    if steps == [] then s else Run(Next(s, steps[0]), steps[1..])
  }

  const START: State := State([], map[], map[], [], None)

  // ----- conservation -----

  function ArrivedFor(arrived: seq<Queued>, npub: string): seq<Item>
    decreases |arrived|
  {
    if arrived == [] then [] else
      var last := arrived[|arrived| - 1];
      ArrivedFor(arrived[..|arrived| - 1], npub) + if last.npub == npub then [last.item] else []
  }

  function HandedTo(handed: seq<Batch>, npub: string): seq<Item>
    decreases |handed|
  {
    if handed == [] then [] else
      var last := handed[|handed| - 1];
      HandedTo(handed[..|handed| - 1], npub) + if last.npub == npub then last.items else []
  }

  predicate Conserved(s: State, npub: string) {
    HandedTo(s.handed, npub) + QueueOf(s.flying, npub) + QueueOf(s.pending, npub) == ArrivedFor(s.arrived, npub)
  }

  // No queue and no message is ever empty, and each message body is the rendering of its items.
  predicate NoEmpties(s: State) {
    && (forall npub :: npub in s.pending ==> s.pending[npub] != [])
    && (forall npub :: npub in s.flying ==> s.flying[npub] != [])
    && (forall i :: 0 <= i < |s.handed| ==> s.handed[i].items != [] && s.handed[i].body == DigestFormat.Render(s.handed[i].items))
  }

  ghost predicate Inv(s: State) { NoEmpties(s) && forall npub :: Conserved(s, npub) }

  lemma AddConserves(s: State, to: string, item: Item, npub: string)
    requires Conserved(s, npub)
    ensures Conserved(Next(s, Add(to, item)), npub)
  {
    var t := Next(s, Add(to, item));
    assert t.arrived[..|t.arrived| - 1] == s.arrived;
    if to == npub {
      assert QueueOf(t.pending, npub) == QueueOf(s.pending, npub) + [item];
    } else {
      assert QueueOf(t.pending, npub) == QueueOf(s.pending, npub);
      assert ArrivedFor(t.arrived, npub) == ArrivedFor(s.arrived, npub);
    }
  }

  lemma SwapConserves(s: State, npub: string)
    requires Enabled(s, Swap) && Conserved(s, npub)
    ensures Conserved(Next(s, Swap), npub)
  {
    assert QueueOf(s.flying, npub) == [];
  }

  // Handing over moves a whole queue from the flight to the record, and touches no other recipient.
  lemma HandOverMoves(s: State, to: string, ok: bool, npub: string)
    requires to in s.flying
    ensures var t := Next(s, SendOne(to, ok));
      HandedTo(t.handed, npub) + QueueOf(t.flying, npub) == HandedTo(s.handed, npub) + QueueOf(s.flying, npub)
  {
    var t := Next(s, SendOne(to, ok));
    assert t.handed[..|t.handed| - 1] == s.handed;
    if to == npub {
      assert HandedTo(t.handed, npub) == HandedTo(s.handed, npub) + s.flying[npub];
      assert QueueOf(t.flying, npub) == [];
    } else {
      assert HandedTo(t.handed, npub) == HandedTo(s.handed, npub);
      assert QueueOf(t.flying, npub) == QueueOf(s.flying, npub);
    }
  }

  lemma NextHolds(s: State, step: Step)
    requires Inv(s) && Enabled(s, step)
    ensures Inv(Next(s, step))
  {
    forall npub ensures Conserved(Next(s, step), npub) {
      assert Conserved(s, npub);
      match step
      case Add(to, item) => AddConserves(s, to, item, npub);
      case Swap => SwapConserves(s, npub);
      case SendOne(to, ok) => HandOverMoves(s, to, ok, npub);
    }
    NextNoEmpties(s, step);
  }

  lemma NextNoEmpties(s: State, step: Step)
    requires NoEmpties(s) && Enabled(s, step)
    ensures NoEmpties(Next(s, step))
  {
    var t := Next(s, step);
    if step.Add? {
      assert |t.pending[step.npub]| == |QueueOf(s.pending, step.npub)| + 1;
    }
    forall npub | npub in t.flying ensures t.flying[npub] != [] {
      assert step.Swap? ==> npub in s.pending;
    }
  }

  /** Under every schedule of arrivals, swaps and sends, what was handed over for a recipient, then what
      is in flight, then what is pending, spells out exactly what arrived for that recipient, in order:
      no item is handed over twice, skipped or reordered. */
  lemma {:induction false} RunConserves(s: State, steps: seq<Step>)
    requires Inv(s) && Schedule(s, steps)
    ensures Inv(Run(s, steps))
    decreases |steps|
  {
    if steps != [] {
      NextHolds(s, steps[0]);
      RunConserves(Next(s, steps[0]), steps[1..]);
    }
  }

  lemma StartHolds()
    ensures Inv(START)
  {}

  // The same step, whatever became of the send.
  predicate SameButOutcome(a: Step, b: Step) {
    a == b || (a.SendOne? && b.SendOne? && a.npub == b.npub)
  }

  /** A failed send affects nobody's items: schedules that differ only in which sends failed hand over
      the same batches in the same order and leave the same queues. */
  lemma {:induction false} FailuresAreIsolated(s: State, t: State, a: seq<Step>, b: seq<Step>)
    requires t == s.(failed := t.failed)
    requires |a| == |b| && forall i :: 0 <= i < |a| ==> SameButOutcome(a[i], b[i])
    requires Schedule(s, a)
    ensures Schedule(t, b)
    ensures Run(t, b) == Run(s, a).(failed := Run(t, b).failed)
    decreases |a|
  {
    if a != [] {
      FailuresAreIsolated(Next(s, a[0]), Next(t, b[0]), a[1..], b[1..]);
    }
  }

  /** From an empty digest, whenever nothing is queued or in flight, each recipient has been handed
      exactly what arrived for it, in order. */
  lemma QuietMeansDelivered(steps: seq<Step>, npub: string)
    requires Schedule(START, steps)
    requires Run(START, steps).pending == map[] && Run(START, steps).flying == map[]
    ensures var s := Run(START, steps); HandedTo(s.handed, npub) == ArrivedFor(s.arrived, npub)
  {
    StartHolds();
    RunConserves(START, steps);
    assert Conserved(Run(START, steps), npub);
  }

  // The part of a run that belongs to one flush: no further swap.
  predicate OneFlush(steps: seq<Step>) { forall i :: 0 <= i < |steps| ==> !steps[i].Swap? }

  lemma {:induction false} FlushDrains(s: State, steps: seq<Step>, npub: string)
    requires Schedule(s, steps) && OneFlush(steps)
    requires Run(s, steps).flying == map[]
    ensures HandedTo(Run(s, steps).handed, npub) == HandedTo(s.handed, npub) + QueueOf(s.flying, npub)
    decreases |steps|
  {
    if steps != [] {
      var t := Next(s, steps[0]);
      FlushDrains(t, steps[1..], npub);
      if steps[0].SendOne? {
        HandOverMoves(s, steps[0].npub, steps[0].ok, npub);
      } else {
        assert t.handed == s.handed && t.flying == s.flying;
      }
    }
  }

  /** When a flush completes, everything that had arrived before its swap has been handed over, and
      nothing that arrived during it has: what arrives while sends are under way waits for the next. */
  lemma FlushHandsOverWhatHadArrived(s: State, steps: seq<Step>, npub: string)
    requires Inv(s) && s.flying == map[]
    requires Schedule(Next(s, Swap), steps) && OneFlush(steps)
    requires Run(Next(s, Swap), steps).flying == map[]
    ensures HandedTo(Run(Next(s, Swap), steps).handed, npub) == ArrivedFor(s.arrived, npub)
  {
    FlushDrains(Next(s, Swap), steps, npub);
    SwapTakesAll(s, npub);
  }

  lemma SwapTakesAll(s: State, npub: string)
    requires Inv(s) && s.flying == map[]
    ensures var t := Next(s, Swap); HandedTo(t.handed, npub) + QueueOf(t.flying, npub) == ArrivedFor(s.arrived, npub)
  {
    assert Conserved(s, npub);
    assert HandedTo(s.handed, npub) + [] == HandedTo(s.handed, npub);
  }

  // ----- the digest object -----

  class Digest {
    var pending: Queues
    var flying: Queues          // the flush's local batch, held here so that its sends can be single steps
    var failed: Option<string>  // the flush's local first error
    ghost var arrived: seq<Queued>
    ghost var handed: seq<Batch>

    ghost function Now(): State
      reads this
    {
      State(arrived, pending, flying, handed, failed)
    }

    constructor ()
      ensures Now() == START
    {
      pending, flying, failed, arrived, handed := map[], map[], None, [], [];
    }

    // Queue an item; one atomic step.
    method Enqueue(npub: string, item: Item)
      modifies this
      ensures Now() == Next(old(Now()), Add(npub, item))
    {
      pending := pending[npub := QueueOf(pending, npub) + [item]];
      arrived := arrived + [Queued(npub, item)];
    }

    // Take the whole map out from under the lock; one atomic step.
    method SwapOut()
      requires Enabled(Now(), Swap)
      modifies this
      ensures Now() == Next(old(Now()), Swap)
    {
      flying, pending, failed := pending, map[], None;
    }

    // Hand one recipient's batch to Send, whose outcome is the environment's; one atomic step.
    method HandOver(npub: string, ok: bool)
      requires npub in flying
      modifies this
      ensures Now() == Next(old(Now()), SendOne(npub, ok))
    {
      var batch := flying[npub];
      var items := new Item[|batch|](i requires 0 <= i < |batch| => batch[i]);
      assert items[..] == batch;
      var body := DigestFormat.FormatDigest(items);
      flying := flying - {npub};
      handed := handed + [Batch(npub, batch, body)];
      if !ok && failed.None? {
        failed := Some(npub);
      }
    }

    /** A whole flush with nothing in between: a swap, then one send to each recipient, in any order.
        It fails exactly when some send fails, and only after every send was attempted. */
    method Flush(works: string -> bool) returns (err: Option<string>, ghost steps: seq<Step>)
      requires Enabled(Now(), Swap)
      modifies this
      ensures Schedule(old(Now()), steps) && Now() == Run(old(Now()), steps)
      ensures pending == map[] && flying == map[]
      ensures err.Some? ==> err.value in old(pending) && !works(err.value)
      ensures err.None? ==> forall npub :: npub in old(pending) ==> works(npub)
    {
      steps := [Swap];
      SwapOut();
      ghost var batch := flying;
      RunOne(old(Now()), Swap);
      while flying != map[]
        invariant Schedule(old(Now()), steps) && Now() == Run(old(Now()), steps)
        invariant pending == map[] && flying.Keys <= batch.Keys
        invariant failed.Some? ==> failed.value in batch && !works(failed.value)
        invariant failed.None? ==> forall npub :: npub in batch && npub !in flying ==> works(npub)
        decreases |flying|
      {
        var npub :| npub in flying;
        RunSnoc(old(Now()), steps, SendOne(npub, works(npub)));
        steps := steps + [SendOne(npub, works(npub))];
        HandOver(npub, works(npub));
      }
      err := failed;
    }
  }

  lemma RunOne(s: State, step: Step)
    requires Enabled(s, step)
    ensures Schedule(s, [step]) && Run(s, [step]) == Next(s, step)
  {
    assert [step][1..] == [];
  }

  lemma {:induction false} RunSnoc(s: State, steps: seq<Step>, step: Step)
    requires Schedule(s, steps) && Enabled(Run(s, steps), step)
    ensures Schedule(s, steps + [step]) && Run(s, steps + [step]) == Next(Run(s, steps), step)
    decreases |steps|
  {
    if steps == [] {
      assert steps + [step] == [step];
      RunOne(s, step);
    } else {
      assert (steps + [step])[0] == steps[0] && (steps + [step])[1..] == steps[1..] + [step];
      RunSnoc(Next(s, steps[0]), steps[1..], step);
    }
  }
}
