/** Who changes the stored policy, and how: management calls one by one, and inputs that change nothing. */
module Calls {
  import opened Options
  import opened Decimal
  import opened PolicyStore
  import opened Boot
  import opened Relay

  /** A call is refused when no relay is running or its caller is not an admin; then nothing changes. */
  lemma RefusedCallDoesNothing(valid: KeyCheck, sys: Sys, caller: string, call: Call)
    requires sys.running.None? || caller !in sys.store.admins
    ensures Next(valid, sys, Manage(caller, call)) == sys
  {}

  /** A submission never changes the policy, and a stop only ends the serving. */
  lemma SubmissionsAndStops(valid: KeyCheck, sys: Sys, s: Submission)
    ensures Next(valid, sys, Submit(s)) == sys
    ensures Next(valid, sys, Stop) == Sys(sys.store, None)
  {}

  // The policy after a call that is carried out. An empty key is refused by the database.
  ghost predicate Done(before: Buckets, call: Call, after: Buckets) {
    match call
    case BanPubKey(key, reason) =>
      if key == "" then after == before
      else after == before.(banned := before.banned[key := reason], allowed := before.allowed - {key})
    case AllowPubKey(key, reason) =>
      if key == "" then after == before
      else after == before.(allowed := before.allowed[key := reason], banned := before.banned - {key})
    case AllowKindCall(kind) => after == before.(kindsAllowed := before.kindsAllowed[Itoa(kind) := ""])
    case DisallowKind(kind) => after == before.(kindsDenied := before.kindsDenied[Itoa(kind) := ""])
    case GrantAdmin(key) =>
      if key == "" then after == before else after == before.(admins := before.admins[key := "granted"])
    case RevokeAdmin(key) => after == before.(admins := before.admins - {key})
  }

  /** A call by an admin of a running relay has exactly the effect of its method, and the relay goes on. */
  lemma AdminsCallIsCarriedOut(valid: KeyCheck, sys: Sys, caller: string, call: Call)
    requires sys.running.Some? && caller in sys.store.admins
    ensures Done(sys.store, call, Next(valid, sys, Manage(caller, call)).store)
    ensures Next(valid, sys, Manage(caller, call)).running == sys.running
  {
    FoldOne(sys.store, CallTx(call));
  }

  // An input that cannot change the policy in this state.
  predicate Idle(sys: Sys, input: Input) {
    match input
    case Manage(caller, _) => sys.running.None? || caller !in sys.store.admins
    case Submit(_) => true
    case _ => false
  }

  lemma IdleDoesNothing(valid: KeyCheck, sys: Sys, input: Input)
    requires Idle(sys, input)
    ensures Next(valid, sys, input) == sys
  {}

  /** In any run, leaving out a refused call or a submission leaves every later state as it is. */
  lemma {:induction false} IdleInputsDropOut(
      valid: KeyCheck, start: Buckets, before: seq<Input>, input: Input, after: seq<Input>)
    requires Idle(Run(valid, start, before), input)
    ensures Run(valid, start, before + [input] + after) == Run(valid, start, before + after)
    decreases |after|
  {
    if after == [] {
      NothingAfter(before, input);
      DropsOut(valid, start, before, input);
    } else {
      var front, last := after[..|after| - 1], after[|after| - 1];
      IdleInputsDropOut(valid, start, before, input, front);
      LastApart(before, input, after);
      SameThen(valid, start, before + [input] + front, before + front, last, before + [input] + after, before + after);
    }
  }

  lemma NothingAfter(before: seq<Input>, input: Input)
    ensures before + [input] + [] == before + [input] && before + [] == before
  {}

  lemma LastApart(before: seq<Input>, input: Input, after: seq<Input>)
    requires after != []
    ensures var front, last := after[..|after| - 1], after[|after| - 1];
      && before + [input] + after == (before + [input] + front) + [last]
      && before + after == (before + front) + [last]
  {}

  lemma DropsOut(valid: KeyCheck, start: Buckets, before: seq<Input>, input: Input)
    requires Idle(Run(valid, start, before), input)
    ensures Run(valid, start, before + [input]) == Run(valid, start, before)
  {
    RunSnoc(valid, start, before, input);
    IdleDoesNothing(valid, Run(valid, start, before), input);
  }

  lemma SameThen(valid: KeyCheck, start: Buckets, a: seq<Input>, b: seq<Input>, last: Input,
                 a': seq<Input>, b': seq<Input>)
    requires Run(valid, start, a) == Run(valid, start, b) && a' == a + [last] && b' == b + [last]
    ensures Run(valid, start, a') == Run(valid, start, b')
  {
    RunSnoc(valid, start, a, last);
    RunSnoc(valid, start, b, last);
  }

  lemma RunSnoc(valid: KeyCheck, start: Buckets, inputs: seq<Input>, input: Input)
    ensures Run(valid, start, inputs + [input]) == Next(valid, Run(valid, start, inputs), input)
  {
    assert (inputs + [input])[..|inputs|] == inputs;
  }

  /** So a step of a run that changes the policy is a boot, even a crashed one, or a call by someone who was
      an admin of the running relay at that moment. */
  lemma ChangesAreAuthorised(valid: KeyCheck, start: Buckets, inputs: seq<Input>, input: Input)
    ensures Run(valid, start, inputs + [input]).store != Run(valid, start, inputs).store ==>
      || input.BootWith? || input.CrashedBoot?
      || (input.Manage? && Run(valid, start, inputs).running.Some? && input.caller in Run(valid, start, inputs).store.admins)
  {
    RunSnoc(valid, start, inputs, input);
    if Idle(Run(valid, start, inputs), input) {
      IdleDoesNothing(valid, Run(valid, start, inputs), input);
    }
  }

  // The relay has served this configuration since input i, with nothing but calls and submissions after.
  predicate ServesSince(inputs: seq<Input>, i: nat, cfg: Config) {
    i < |inputs| && inputs[i] == BootWith(cfg) && forall j :: i < j < |inputs| ==> inputs[j].Manage? || inputs[j].Submit?
  }

  /** A relay runs, and serves a configuration, exactly when it completed a boot of it and has since neither
      stopped nor tried to boot again. */
  lemma {:induction false} ServesExactly(valid: KeyCheck, start: Buckets, inputs: seq<Input>, cfg: Config)
    ensures Run(valid, start, inputs).running == Some(cfg) <==> exists i: nat :: ServesSince(inputs, i, cfg)
    decreases |inputs|
  {
    if inputs != [] {
      var front, last := inputs[..|inputs| - 1], inputs[|inputs| - 1];
      ServesExactly(valid, start, front, cfg);
      if last == BootWith(cfg) {
        assert ServesSince(inputs, |inputs| - 1, cfg);
      }
      forall i: nat | i < |front| && (last.Manage? || last.Submit?)
        ensures ServesSince(inputs, i, cfg) <==> ServesSince(front, i, cfg)
      {
        ServesLonger(inputs, i, cfg);
      }
    }
  }

  lemma ServesLonger(inputs: seq<Input>, i: nat, cfg: Config)
    requires i < |inputs| - 1 && (inputs[|inputs| - 1].Manage? || inputs[|inputs| - 1].Submit?)
    ensures ServesSince(inputs, i, cfg) <==> ServesSince(inputs[..|inputs| - 1], i, cfg)
  {}

  ghost function CommittedBy(valid: KeyCheck, sys: Sys, cfg: Config, n: nat): Buckets {
    Next(valid, sys, CrashedBoot(cfg, n)).store
  }

  lemma CommittedIs(valid: KeyCheck, sys: Sys, cfg: Config, n: nat)
    ensures var txs := BootTxs(valid, cfg);
      && (n <= |txs| ==> CommittedBy(valid, sys, cfg, n) == Fold(sys.store, txs[..n]))
      && (n >= |txs| ==> CommittedBy(valid, sys, cfg, n) == Fold(sys.store, txs))
  {
    var txs := BootTxs(valid, cfg);
    assert txs[..|txs|] == txs;
  }

  lemma OneMoreCommit(valid: KeyCheck, sys: Sys, cfg: Config, n: nat)
    requires n < |BootTxs(valid, cfg)|
    ensures CommittedBy(valid, sys, cfg, n + 1) == Apply(CommittedBy(valid, sys, cfg, n), BootTxs(valid, cfg)[n])
  {
    var txs := BootTxs(valid, cfg);
    CommittedIs(valid, sys, cfg, n);
    CommittedIs(valid, sys, cfg, n + 1);
    FoldOneMore(sys.store, txs, n);
  }

  lemma FoldOneMore(b: Buckets, txs: seq<Tx>, n: nat)
    requires n < |txs|
    ensures Fold(b, txs[..n + 1]) == Apply(Fold(b, txs[..n]), txs[n])
  {
    assert txs[..n + 1] == txs[..n] + [txs[n]];
    FoldSnoc(b, txs[..n], txs[n]);
  }

  lemma AllCommitted(valid: KeyCheck, sys: Sys, cfg: Config, n: nat)
    requires !valid("") && n >= |BootTxs(valid, cfg)|
    ensures CommittedBy(valid, sys, cfg, n) == Booted(valid, cfg, sys.store)
  {
    CommittedIs(valid, sys, cfg, n);
    BootClosedForm(valid, cfg, sys.store);
  }

  /** A boot that dies after some of its transactions has committed those: none at first, one more at a
      time, and in the end what a whole boot leaves; but nothing is served. */
  lemma CrashedBootCommits(valid: KeyCheck, sys: Sys, cfg: Config, n: nat)
    requires !valid("")
    ensures CommittedBy(valid, sys, cfg, 0) == sys.store
    ensures n < |BootTxs(valid, cfg)| ==>
      CommittedBy(valid, sys, cfg, n + 1) == Apply(CommittedBy(valid, sys, cfg, n), BootTxs(valid, cfg)[n])
    ensures n >= |BootTxs(valid, cfg)| ==> CommittedBy(valid, sys, cfg, n) == Booted(valid, cfg, sys.store)
    ensures Next(valid, sys, CrashedBoot(cfg, n)).running == None
  {
    CommittedIs(valid, sys, cfg, 0);
    if n < |BootTxs(valid, cfg)| {
      OneMoreCommit(valid, sys, cfg, n);
    } else {
      AllCommitted(valid, sys, cfg, n);
    }
  }

  /** A whole boot leaves the closed form and serves its configuration. */
  lemma BootServes(valid: KeyCheck, sys: Sys, cfg: Config)
    requires !valid("")
    ensures Next(valid, sys, BootWith(cfg)) == Sys(Booted(valid, cfg, sys.store), Some(cfg))
  {
    BootClosedForm(valid, cfg, sys.store);
  }
}
