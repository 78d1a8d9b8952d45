/** What holds over whole runs of the relay: who can write, what a ban and a denied kind mean later. */
module RelayRuns {
  import opened Options
  import opened Decimal
  import opened PolicyStore
  import opened Boot
  import Admission
  import BootTheorems
  import Calls
  import opened KindPolicy
  import opened Relay

  // ----- admission -----

  lemma {:induction false} FoldCanonical(b: Buckets, txs: seq<Tx>)
    requires Canonical(b.kindsAllowed) && Canonical(b.kindsDenied)
    ensures Canonical(Fold(b, txs).kindsAllowed) && Canonical(Fold(b, txs).kindsDenied)
    decreases |txs|
  {
    if txs != [] {
      ApplyCanonical(b, txs[0]);
      FoldCanonical(Apply(b, txs[0]), txs[1..]);
    }
  }

  /** Every event a run ever admits was admissible at that moment under the configuration of the last
      boot. A definition's author was rooted in that configuration's admins; so was the author of an
      execution event, unless it was the configured server key; an author required to be on the
      allowlist was on it and not banned; and the kind passed the two sets of integers. */
  lemma AdmissionSafety(valid: KeyCheck, start: Buckets, inputs: seq<Input>, i: nat)
    requires !valid("") && BootTheorems.Disjoint(start) && Canonical(start.kindsAllowed) && Canonical(start.kindsDenied)
    requires i < |inputs| && AdmittedAt(valid, start, inputs, i)
    ensures var before := inputs[..i];
      var sys, s := Run(valid, start, before), inputs[i].s;
      var cfg, e := sys.running.value, s.event;
      && SinceBoot(before) > 0 && before[SinceBoot(before) - 1] == BootWith(cfg)
      && Admissible(cfg, sys.store, s)
      && (forall k :: 0 <= k < 10 ==> Admission.Rules(cfg, sys.store, s)[k].0)
      && BootTheorems.Disjoint(sys.store)
      && (e.kind in DEFINITION_KINDS ==> Rooted(valid, start, before, cfg, e.pubkey))
      && (e.kind in EXECUTION_KINDS ==>
          (cfg.serverPubkey != "" && e.pubkey == cfg.serverPubkey) || Rooted(valid, start, before, cfg, e.pubkey))
      && e.kind !in KindsOf(sys.store.kindsDenied)
      && (KindsOf(sys.store.kindsAllowed) == {} || e.kind in KindsOf(sys.store.kindsAllowed))
  {
    var before := inputs[..i];
    var sys, s := Run(valid, start, before), inputs[i].s;
    AdmissionIsExact(sys.running.value, sys.store, s);
    Admission.AdmittedKeepsRules(sys.running.value, sys.store, s);
    RunningSinceBoot(valid, start, before);
    AlwaysDisjoint(valid, start, before);
    RunFoldsTrace(valid, start, before);
    FoldCanonical(start, Trace(valid, start, before));
    KindAllowedRefinesSets(sys.store, s.event.kind);
    if s.event.pubkey in sys.store.admins {
      RootedAuthority(valid, start, before, s.event.pubkey);
    }
  }

  // ----- anonymous callers -----

  predicate NoEmptyKey(b: Buckets) { "" !in b.admins && "" !in b.allowed && "" !in b.banned }

  lemma ApplyNoEmptyKey(b: Buckets, tx: Tx)
    requires NoEmptyKey(b)
    ensures NoEmptyKey(Apply(b, tx))
  {}

  lemma {:induction false} FoldNoEmptyKey(b: Buckets, txs: seq<Tx>)
    requires NoEmptyKey(b)
    ensures NoEmptyKey(Fold(b, txs))
    decreases |txs|
  {
    if txs != [] {
      ApplyNoEmptyKey(b, txs[0]);
      FoldNoEmptyKey(Apply(b, txs[0]), txs[1..]);
    }
  }

  /** The empty key never enters the store, so a call that nobody signed never changes it. */
  lemma AnonymousCallsDoNothing(valid: KeyCheck, start: Buckets, inputs: seq<Input>, call: Call)
    requires NoEmptyKey(start)
    ensures NoEmptyKey(Run(valid, start, inputs).store)
    ensures Next(valid, Run(valid, start, inputs), Manage("", call)) == Run(valid, start, inputs)
  {
    RunFoldsTrace(valid, start, inputs);
    FoldNoEmptyKey(start, Trace(valid, start, inputs));
  }

  // ----- bans -----

  // The transaction does not lift a ban on this key.
  predicate Spares(tx: Tx, key: string) {
    !(tx.Allow? && tx.key == key) && !(tx.SyncAllowed? && key in NonEmpty(tx.keys))
  }

  predicate AllSpare(txs: seq<Tx>, key: string) { forall i :: 0 <= i < |txs| ==> Spares(txs[i], key) }

  lemma {:induction false} SparedStaysBanned(b: Buckets, txs: seq<Tx>, key: string)
    requires key in b.banned && AllSpare(txs, key)
    ensures key in Fold(b, txs).banned
    decreases |txs|
  {
    if txs != [] {
      SparedStaysBanned(Apply(b, txs[0]), txs[1..], key);
    }
  }

  lemma {:induction false} AdminTxsSpare(keys: seq<string>, key: string)
    requires key !in NonEmpty(keys)
    ensures AllSpare(AdminTxs(keys), key)
    decreases |keys|
  {
    if keys != [] {
      AdminTxsSpare(keys[..|keys| - 1], key);
      assert keys[|keys| - 1] in keys;
    }
  }

  lemma BootSpares(valid: KeyCheck, cfg: Config, key: string)
    requires !valid("") && key !in Configured(valid, cfg)
    ensures AllSpare(BootTxs(valid, cfg), key)
  {
    AdminTxsSpare(AdminsFrom(cfg), key);
    ValidAgentsElements(valid, cfg.agentPubkeys);
    var agents := [Tx.SyncAllowed(ValidAgents(valid, cfg.agentPubkeys), "agent")];
    var publisher := AllowIfValid(valid, cfg.publisherPubkey, "publisher") + agents;
    assert AllSpare(publisher, key);
    var notice := AllowIfValid(valid, cfg.noticePubkey, "portal") + publisher;
    assert AllSpare(notice, key);
    var sync := [Tx.SyncAdmins(AdminsFrom(cfg))] + notice;
    var server := AllowIfValid(valid, cfg.serverPubkey, "server") + sync;
    assert AllSpare(server, key);
    assert AllSpare(BootTail(valid, cfg), key);
  }

  // The inputs that can lift a ban: a boot, even a crashed one, that configures the key in some role,
  // or a call that allows it.
  predicate Lifts(valid: KeyCheck, input: Input, key: string) {
    match input
    case BootWith(cfg) => key in Configured(valid, cfg)
    case CrashedBoot(cfg, _) => key in Configured(valid, cfg)
    case Manage(_, call) => call.AllowPubKey? && call.key == key
    case Stop | Submit(_) => false
  }

  lemma EffectsSpare(valid: KeyCheck, sys: Sys, input: Input, key: string)
    requires !valid("") && !Lifts(valid, input, key)
    ensures AllSpare(Effects(valid, sys, input), key)
  {
    match input
    case BootWith(cfg) => BootSpares(valid, cfg, key);
    case CrashedBoot(cfg, _) => BootSpares(valid, cfg, key);
    case Manage(_, _) | Stop | Submit(_) =>
  }

  lemma {:induction false} BanPersists(valid: KeyCheck, start: Buckets, inputs: seq<Input>, from: nat, key: string)
    requires !valid("") && from <= |inputs|
    requires key in Run(valid, start, inputs[..from]).store.banned
    requires forall j :: from <= j < |inputs| ==> !Lifts(valid, inputs[j], key)
    ensures key in Run(valid, start, inputs).store.banned
    decreases |inputs|
  {
    if from == |inputs| {
      assert inputs[..from] == inputs;
    } else {
      var front, last := inputs[..|inputs| - 1], inputs[|inputs| - 1];
      assert front[..from] == inputs[..from];
      BanPersists(valid, start, front, from, key);
      EffectsSpare(valid, Run(valid, start, front), last, key);
      SparedStaysBanned(Run(valid, start, front).store, Effects(valid, Run(valid, start, front), last), key);
    }
  }

  /** A ban holds through restarts, crashes and every other call until an input that can lift it, and
      until then the relay admits nothing the key signs. */
  lemma BanHolds(valid: KeyCheck, start: Buckets, inputs: seq<Input>, from: nat, key: string)
    requires !valid("") && from <= |inputs|
    requires key in Run(valid, start, inputs[..from]).store.banned
    requires forall j :: from <= j < |inputs| ==> !Lifts(valid, inputs[j], key)
    ensures key in Run(valid, start, inputs).store.banned
    ensures forall j :: from <= j < |inputs| && inputs[j].Submit? && inputs[j].s.event.pubkey == key ==>
      !AdmittedAt(valid, start, inputs, j)
  {
    BanPersists(valid, start, inputs, from, key);
    forall j | from <= j < |inputs| && inputs[j].Submit? && inputs[j].s.event.pubkey == key
      ensures !AdmittedAt(valid, start, inputs, j)
    {
      BannedAt(valid, start, inputs, from, key, j);
      BannedNotAdmitted(valid, start, inputs, j);
    }
  }

  lemma BannedAt(valid: KeyCheck, start: Buckets, inputs: seq<Input>, from: nat, key: string, j: nat)
    requires !valid("") && from <= j < |inputs|
    requires key in Run(valid, start, inputs[..from]).store.banned
    requires forall i :: from <= i < |inputs| ==> !Lifts(valid, inputs[i], key)
    ensures key in Run(valid, start, inputs[..j]).store.banned
  {
    assert inputs[..j][..from] == inputs[..from];
    BanPersists(valid, start, inputs[..j], from, key);
  }

  lemma BannedNotAdmitted(valid: KeyCheck, start: Buckets, inputs: seq<Input>, j: nat)
    requires j < |inputs| && inputs[j].Submit?
    ensures inputs[j].s.event.pubkey in Run(valid, start, inputs[..j]).store.banned ==>
      !AdmittedAt(valid, start, inputs, j)
  {
    var sys := Run(valid, start, inputs[..j]);
    if sys.running.Some? {
      AdmissionIsExact(sys.running.value, sys.store, inputs[j].s);
    }
  }

  // ----- kinds -----

  /** Two runs from one stored policy that issue the same set of kind commands, whoever issued them and
      in whatever order, by call or by boot, give the same verdict on every kind. */
  lemma KindVerdictOfRun(valid: KeyCheck, start: Buckets, inputs: seq<Input>, inputs': seq<Input>, kind: GoInt)
    requires KindCommands(Trace(valid, start, inputs)) == KindCommands(Trace(valid, start, inputs'))
    ensures KindAllowed(Run(valid, start, inputs).store, kind) == KindAllowed(Run(valid, start, inputs').store, kind)
  {
    RunFoldsTrace(valid, start, inputs);
    RunFoldsTrace(valid, start, inputs');
    KindPolicyIsJoin(start, Trace(valid, start, inputs), Trace(valid, start, inputs'), kind);
  }

  ghost function Verdicts(valid: KeyCheck, start: Buckets, inputs: seq<Input>, kind: GoInt): seq<bool> {
    seq(|inputs| + 1, i requires 0 <= i <= |inputs| => KindAllowed(Run(valid, start, inputs[..i]).store, kind))
  }

  ghost function Phases(valid: KeyCheck, start: Buckets, inputs: seq<Input>, kind: GoInt): seq<nat> {
    seq(|inputs| + 1, i requires 0 <= i <= |inputs| => Phase(Run(valid, start, inputs[..i]).store, kind))
  }

  lemma PhaseStep(valid: KeyCheck, start: Buckets, inputs: seq<Input>, i: nat, kind: GoInt)
    requires i < |inputs|
    ensures Phase(Run(valid, start, inputs[..i]).store, kind) <= Phase(Run(valid, start, inputs[..i + 1]).store, kind)
  {
    assert inputs[..i + 1][..i] == inputs[..i];
    var sys := Run(valid, start, inputs[..i]);
    PhaseNeverDrops(sys.store, Effects(valid, sys, inputs[i]), kind);
  }

  /** The verdict on one kind changes at most three times in any run. */
  lemma VerdictChangesAtMostThrice(valid: KeyCheck, start: Buckets, inputs: seq<Input>, kind: GoInt)
    ensures Changes(Verdicts(valid, start, inputs, kind)) <= 3
  {
    var verdicts, phases := Verdicts(valid, start, inputs, kind), Phases(valid, start, inputs, kind);
    forall i | 0 <= i < |phases| ensures verdicts[i] == (phases[i] % 2 == 0) {
      PhaseGivesVerdict(Run(valid, start, inputs[..i]).store, kind);
    }
    forall i | 0 <= i < |phases| - 1 ensures phases[i] <= phases[i + 1] {
      PhaseStep(valid, start, inputs, i, kind);
    }
    ChangesBounded(verdicts, phases);
  }

  lemma DenialTakesEffect(valid: KeyCheck, sys: Sys, input: Input, kind: GoInt)
    requires input.Manage? && input.call == DisallowKind(kind)
    requires sys.running.Some? && input.caller in sys.store.admins
    ensures Itoa(kind) in Next(valid, sys, input).store.kindsDenied
  {
    FoldOne(sys.store, Tx.DenyKind(kind));
  }

  // Input at is an admin's call that denies the kind.
  ghost predicate DeniedAt(valid: KeyCheck, start: Buckets, inputs: seq<Input>, at: nat, kind: GoInt) {
    && at < |inputs| && inputs[at].Manage? && inputs[at].call == DisallowKind(kind)
    && Run(valid, start, inputs[..at]).running.Some?
    && inputs[at].caller in Run(valid, start, inputs[..at]).store.admins
  }

  lemma RunPrefix(valid: KeyCheck, start: Buckets, inputs: seq<Input>, n: nat)
    requires n < |inputs|
    ensures Run(valid, start, inputs[..n + 1]) == Next(valid, Run(valid, start, inputs[..n]), inputs[n])
  {
    assert inputs[..n + 1][..n] == inputs[..n];
  }

  lemma {:induction false} DeniedFrom(valid: KeyCheck, start: Buckets, inputs: seq<Input>, at: nat, kind: GoInt, n: nat)
    requires DeniedAt(valid, start, inputs, at, kind) && at < n <= |inputs|
    ensures Itoa(kind) in Run(valid, start, inputs[..n]).store.kindsDenied
    decreases n
  {
    var k := n - 1;
    RunPrefix(valid, start, inputs, k);
    if at == k {
      DenialTakesEffect(valid, Run(valid, start, inputs[..k]), inputs[k], kind);
    } else {
      DeniedFrom(valid, start, inputs, at, kind, k);
      DenialOutlives(valid, Run(valid, start, inputs[..k]), inputs[k], kind);
    }
  }

  lemma DenialOutlives(valid: KeyCheck, sys: Sys, input: Input, kind: GoInt)
    requires Itoa(kind) in sys.store.kindsDenied
    ensures Itoa(kind) in Next(valid, sys, input).store.kindsDenied
  {
    DenialStays(sys.store, Effects(valid, sys, input), Itoa(kind));
  }

  /** Once an admin's call has denied a kind, no later state allows it and no event of it is admitted. */
  lemma DeniedKindStaysOut(valid: KeyCheck, start: Buckets, inputs: seq<Input>, at: nat, kind: GoInt)
    requires DeniedAt(valid, start, inputs, at, kind)
    ensures !KindAllowed(Run(valid, start, inputs).store, kind)
    ensures forall j :: at < j < |inputs| && inputs[j].Submit? && inputs[j].s.event.kind == kind ==>
      !AdmittedAt(valid, start, inputs, j)
  {
    DeniedFrom(valid, start, inputs, at, kind, |inputs|);
    assert inputs[..|inputs|] == inputs;
    forall j | at < j < |inputs| && inputs[j].Submit? && inputs[j].s.event.kind == kind
      ensures !AdmittedAt(valid, start, inputs, j)
    {
      DeniedFrom(valid, start, inputs, at, kind, j);
      RefusedKindNotAdmitted(valid, start, inputs, j);
    }
  }

  lemma RefusedKindNotAdmitted(valid: KeyCheck, start: Buckets, inputs: seq<Input>, j: nat)
    requires j < |inputs| && inputs[j].Submit?
    ensures !KindAllowed(Run(valid, start, inputs[..j]).store, inputs[j].s.event.kind) ==>
      !AdmittedAt(valid, start, inputs, j)
  {
    var sys := Run(valid, start, inputs[..j]);
    if sys.running.Some? {
      AdmissionIsExact(sys.running.value, sys.store, inputs[j].s);
    }
  }

  // ----- where allow entries come from -----

  // The transaction writes this allow entry.
  predicate Writes(tx: Tx, key: string, reason: string) {
    match tx
    case Allow(k, r) => k == key && r == reason
    case SyncAdmins(keys) => key in NonEmpty(keys) && reason == "admin"
    case SyncAllowed(keys, r) => key in NonEmpty(keys) && r == reason
    case _ => false
  }

  lemma {:induction false} EntryIsWritten(b: Buckets, txs: seq<Tx>, key: string)
    requires key in Fold(b, txs).allowed
    ensures Lookup(Fold(b, txs).allowed, key) == Lookup(b.allowed, key)
      || exists i :: 0 <= i < |txs| && Writes(txs[i], key, Fold(b, txs).allowed[key])
    decreases |txs|
  {
    if txs != [] {
      var rest, c := txs[1..], Apply(b, txs[0]);
      EntryIsWritten(c, rest, key);
      var reason := Fold(c, rest).allowed[key];
      if i :| 0 <= i < |rest| && Writes(rest[i], key, reason) {
        assert Writes(txs[i + 1], key, reason);
      } else {
        OneWrite(b, txs[0], key);
        assert Writes(txs[0], key, reason) || Lookup(b.allowed, key) == Some(reason);
      }
    }
  }

  lemma OneWrite(b: Buckets, tx: Tx, key: string)
    requires key in Apply(b, tx).allowed
    ensures Lookup(Apply(b, tx).allowed, key) == Lookup(b.allowed, key) || Writes(tx, key, Apply(b, tx).allowed[key])
  {}

  // The configuration names the key in the role that this reason stands for.
  predicate InRole(valid: KeyCheck, cfg: Config, key: string, reason: string) {
    || (reason == "admin" && key in AdminKeys(cfg))
    || (reason == "agent" && key in Agents(valid, cfg))
    || (reason == "server" && key == cfg.serverPubkey && valid(key))
    || (reason == "portal" && key == cfg.noticePubkey && valid(key))
    || (reason == "publisher" && key == cfg.publisherPubkey && valid(key))
  }

  ghost predicate WritesRoles(valid: KeyCheck, cfg: Config, txs: seq<Tx>) {
    forall i, key, reason :: 0 <= i < |txs| && Writes(txs[i], key, reason) ==> InRole(valid, cfg, key, reason)
  }

  lemma WritesRolesConcat(valid: KeyCheck, cfg: Config, s: seq<Tx>, t: seq<Tx>)
    requires WritesRoles(valid, cfg, s) && WritesRoles(valid, cfg, t)
    ensures WritesRoles(valid, cfg, s + t)
  {}

  lemma {:induction false} AdminTxsWrite(keys: seq<string>, i: nat, key: string, reason: string)
    requires i < |AdminTxs(keys)| && Writes(AdminTxs(keys)[i], key, reason)
    ensures reason == "admin" && key in NonEmpty(keys)
    decreases |keys|
  {
    var front := keys[..|keys| - 1];
    if i < |AdminTxs(front)| {
      AdminTxsWrite(front, i, key, reason);
    } else {
      assert keys[|keys| - 1] in keys;
    }
  }

  lemma AdminTxsWriteRoles(valid: KeyCheck, cfg: Config)
    ensures WritesRoles(valid, cfg, AdminTxs(AdminsFrom(cfg)))
  {
    var txs := AdminTxs(AdminsFrom(cfg));
    forall i, key, reason | 0 <= i < |txs| && Writes(txs[i], key, reason) ensures InRole(valid, cfg, key, reason) {
      AdminTxsWrite(AdminsFrom(cfg), i, key, reason);
    }
  }

  lemma BootTxsWriteRoles(valid: KeyCheck, cfg: Config)
    requires !valid("")
    ensures WritesRoles(valid, cfg, BootTxs(valid, cfg))
  {
    AdminTxsWriteRoles(valid, cfg);
    ValidAgentsElements(valid, cfg.agentPubkeys);
    var agents := [Tx.SyncAllowed(ValidAgents(valid, cfg.agentPubkeys), "agent")];
    var publisher := AllowIfValid(valid, cfg.publisherPubkey, "publisher");
    var notice := AllowIfValid(valid, cfg.noticePubkey, "portal");
    var sync := [Tx.SyncAdmins(AdminsFrom(cfg))];
    var server := AllowIfValid(valid, cfg.serverPubkey, "server");
    WritesRolesConcat(valid, cfg, publisher, agents);
    WritesRolesConcat(valid, cfg, notice, publisher + agents);
    WritesRolesConcat(valid, cfg, sync, notice + (publisher + agents));
    WritesRolesConcat(valid, cfg, server, sync + (notice + (publisher + agents)));
    WritesRolesConcat(valid, cfg, KindTxs(cfg.allowedKinds), server + (sync + (notice + (publisher + agents))));
    WritesRolesConcat(valid, cfg, AdminTxs(AdminsFrom(cfg)), BootTail(valid, cfg));
  }

  // The input gives the key this allow entry: a boot, even a crashed one, that configures the key in that
  // role, or an admin's call.
  predicate Gives(valid: KeyCheck, sys: Sys, input: Input, key: string, reason: string) {
    match input
    case BootWith(cfg) => InRole(valid, cfg, key, reason)
    case CrashedBoot(cfg, _) => InRole(valid, cfg, key, reason)
    case Manage(caller, call) => sys.running.Some? && caller in sys.store.admins && call == AllowPubKey(key, reason)
    case Stop | Submit(_) => false
  }

  lemma InputGives(valid: KeyCheck, sys: Sys, input: Input, key: string)
    requires !valid("") && key in Next(valid, sys, input).store.allowed
    ensures Lookup(Next(valid, sys, input).store.allowed, key) == Lookup(sys.store.allowed, key)
      || Gives(valid, sys, input, key, Next(valid, sys, input).store.allowed[key])
  {
    EntryIsWritten(sys.store, Effects(valid, sys, input), key);
    var reason := Next(valid, sys, input).store.allowed[key];
    if i :| 0 <= i < |Effects(valid, sys, input)| && Writes(Effects(valid, sys, input)[i], key, reason) {
      EffectGives(valid, sys, input, i, key, reason);
    }
  }

  lemma EffectGives(valid: KeyCheck, sys: Sys, input: Input, i: nat, key: string, reason: string)
    requires !valid("") && i < |Effects(valid, sys, input)|
    requires Writes(Effects(valid, sys, input)[i], key, reason)
    ensures Gives(valid, sys, input, key, reason)
  {
    match input
    case BootWith(cfg) => BootTxsWriteRoles(valid, cfg);
    case CrashedBoot(cfg, _) => BootTxsWriteRoles(valid, cfg);
    case Manage(_, _) =>
  }

  ghost predicate GivenAt(valid: KeyCheck, start: Buckets, inputs: seq<Input>, i: nat, key: string, reason: string) {
    i < |inputs| && Gives(valid, Run(valid, start, inputs[..i]), inputs[i], key, reason)
  }

  /** In every run from a store that allows nobody, each allow entry goes back to an earlier boot that
      configured the key in the entry's role, or to an admin's call that allowed it for that reason. */
  lemma {:induction false} AllowEntriesHaveOrigin(valid: KeyCheck, start: Buckets, inputs: seq<Input>, key: string)
    requires !valid("") && start.allowed == map[]
    requires key in Run(valid, start, inputs).store.allowed
    ensures exists i: nat :: GivenAt(valid, start, inputs, i, key, Run(valid, start, inputs).store.allowed[key])
    decreases |inputs|
  {
    var front, last := inputs[..|inputs| - 1], inputs[|inputs| - 1];
    var sys, reason := Run(valid, start, front), Run(valid, start, inputs).store.allowed[key];
    InputGives(valid, sys, last, key);
    if Gives(valid, sys, last, key, reason) {
      GivenNow(valid, start, inputs, key, reason);
    } else {
      AllowEntriesHaveOrigin(valid, start, front, key);
      var i: nat :| GivenAt(valid, start, front, i, key, reason);
      GivenStays(valid, start, inputs, i, key, reason);
    }
  }

  lemma GivenStays(valid: KeyCheck, start: Buckets, inputs: seq<Input>, i: nat, key: string, reason: string)
    requires inputs != [] && GivenAt(valid, start, inputs[..|inputs| - 1], i, key, reason)
    ensures GivenAt(valid, start, inputs, i, key, reason)
  {
    assert inputs[..|inputs| - 1][..i] == inputs[..i];
  }

  lemma GivenNow(valid: KeyCheck, start: Buckets, inputs: seq<Input>, key: string, reason: string)
    requires inputs != []
    requires Gives(valid, Run(valid, start, inputs[..|inputs| - 1]), inputs[|inputs| - 1], key, reason)
    ensures GivenAt(valid, start, inputs, |inputs| - 1, key, reason)
  {}

  // ----- callers who are not configured -----

  /** With no grant since the last boot, every caller whose calls are carried out is a configured admin. */
  lemma UngrantedCallersAreConfigured(valid: KeyCheck, start: Buckets, inputs: seq<Input>, caller: string)
    requires !valid("") && Run(valid, start, inputs).running.Some?
    requires caller in Run(valid, start, inputs).store.admins
    requires forall i :: SinceBoot(inputs) <= i < |inputs| && inputs[i].Manage? ==> !inputs[i].call.GrantAdmin?
    ensures caller in AdminKeys(Run(valid, start, inputs).running.value)
  {
    RootedAuthority(valid, start, inputs, caller);
    var roots, since := AdminKeys(Run(valid, start, inputs).running.value), SinceBoot(inputs);
    var chain: seq<nat> :| GrantChain(valid, start, inputs, since, roots, chain, caller);
    if chain != [] {
      assert GrantedAt(valid, start, inputs, chain[|chain| - 1], caller);
    }
  }

  lemma BootStep(valid: KeyCheck, start: Buckets, inputs: seq<Input>, cfg: Config)
    requires !valid("")
    ensures Run(valid, start, inputs + [BootWith(cfg)])
      == Sys(Booted(valid, cfg, Run(valid, start, inputs).store), Some(cfg))
  {
    Calls.RunSnoc(valid, start, inputs, BootWith(cfg));
    BootClosedForm(valid, cfg, Run(valid, start, inputs).store);
  }

  lemma CallStep(valid: KeyCheck, start: Buckets, inputs: seq<Input>, caller: string, call: Call)
    requires Run(valid, start, inputs).running.Some? && caller in Run(valid, start, inputs).store.admins
    ensures Run(valid, start, inputs + [Manage(caller, call)])
      == Sys(Apply(Run(valid, start, inputs).store, CallTx(call)), Run(valid, start, inputs).running)
  {
    Calls.RunSnoc(valid, start, inputs, Manage(caller, call));
    FoldOne(Run(valid, start, inputs).store, CallTx(call));
  }

  lemma OperatorServes(valid: KeyCheck, cfg: Config, b: Buckets)
    requires cfg.operatorPubkey != ""
    ensures cfg.operatorPubkey in Booted(valid, cfg, b).admins
  {
    assert cfg.operatorPubkey in AdminsFrom(cfg);
  }

  // A grant by any admin lets the granted key call at once.
  lemma GrantLetsCall(valid: KeyCheck, start: Buckets, inputs: seq<Input>, caller: string, guest: string, call: Call)
    requires guest != "" && Run(valid, start, inputs).running.Some? && caller in Run(valid, start, inputs).store.admins
    ensures var granted := inputs + [Manage(caller, GrantAdmin(guest))];
      && guest in Run(valid, start, granted).store.admins
      && Run(valid, start, granted + [Manage(guest, call)]).store == Apply(Run(valid, start, granted).store, CallTx(call))
  {
    CallStep(valid, start, inputs, caller, GrantAdmin(guest));
    CallStep(valid, start, inputs + [Manage(caller, GrantAdmin(guest))], guest, call);
  }

  /** A granted key that is configured nowhere does call: after a boot and a grant by the operator, here it
      bans someone. */
  lemma GrantedKeyCalls(valid: KeyCheck, start: Buckets, cfg: Config, guest: string, victim: string)
    requires !valid("") && cfg.operatorPubkey != "" && guest != "" && victim != ""
    requires guest !in Configured(valid, cfg)
    ensures var granted := [] + [BootWith(cfg)] + [Manage(cfg.operatorPubkey, GrantAdmin(guest))];
      victim in Run(valid, start, granted + [Manage(guest, BanPubKey(victim, ""))]).store.banned
  {
    BootStep(valid, start, [], cfg);
    OperatorServes(valid, cfg, Run(valid, start, []).store);
    GrantLetsCall(valid, start, [] + [BootWith(cfg)], cfg.operatorPubkey, guest, BanPubKey(victim, ""));
  }

  // ----- an admin revoked before leaving the configuration -----

  /** Whoever is served as an admin and then leaves the configuration loses the allow entry at the next
      boot; but not after an admin revoked the authority first. */
  lemma RevokedThenDropped(
      valid: KeyCheck, start: Buckets, inputs: seq<Input>, caller: string, without: Config, key: string)
    requires !valid("") && Run(valid, start, inputs).running.Some?
    requires caller in Run(valid, start, inputs).store.admins
    requires key in Run(valid, start, inputs).store.admins && key !in Configured(valid, without)
    requires BootTheorems.AdminEntry(Run(valid, start, inputs).store, key)
    ensures key !in Run(valid, start, inputs + [BootWith(without)]).store.allowed
    ensures var revoked := inputs + [Manage(caller, RevokeAdmin(key))];
      BootTheorems.AdminEntry(Run(valid, start, revoked + [BootWith(without)]).store, key)
  {
    DroppedInRun(valid, start, inputs, without, key);
    RevokedInRun(valid, start, inputs, caller, without, key);
  }

  lemma DroppedInRun(valid: KeyCheck, start: Buckets, inputs: seq<Input>, without: Config, key: string)
    requires !valid("") && key in Run(valid, start, inputs).store.admins && key !in Configured(valid, without)
    ensures key !in Run(valid, start, inputs + [BootWith(without)]).store.allowed
  {
    BootStep(valid, start, inputs, without);
    BootTheorems.DroppedAdminLosesEntry(valid, without, Run(valid, start, inputs).store, key);
  }

  lemma RevokedInRun(
      valid: KeyCheck, start: Buckets, inputs: seq<Input>, caller: string, without: Config, key: string)
    requires !valid("") && Run(valid, start, inputs).running.Some?
    requires caller in Run(valid, start, inputs).store.admins && key !in Configured(valid, without)
    requires BootTheorems.AdminEntry(Run(valid, start, inputs).store, key)
    ensures BootTheorems.AdminEntry(
      Run(valid, start, inputs + [Manage(caller, RevokeAdmin(key))] + [BootWith(without)]).store, key)
  {
    var sys, revoke := Run(valid, start, inputs), Manage(caller, RevokeAdmin(key));
    Calls.RunSnoc(valid, start, inputs, revoke);
    Calls.RunSnoc(valid, start, inputs + [revoke], BootWith(without));
    RevokedNext(valid, sys, caller, without, key);
  }

  lemma RevokedNext(valid: KeyCheck, sys: Sys, caller: string, without: Config, key: string)
    requires !valid("") && sys.running.Some? && caller in sys.store.admins && key !in Configured(valid, without)
    requires BootTheorems.AdminEntry(sys.store, key)
    ensures BootTheorems.AdminEntry(
      Next(valid, Next(valid, sys, Manage(caller, RevokeAdmin(key))), BootWith(without)).store, key)
  {
    var revoked := Next(valid, sys, Manage(caller, RevokeAdmin(key)));
    RevokeNext(valid, sys, caller, key);
    Calls.BootServes(valid, revoked, without);
    BootTheorems.RevokedAdminLeft(valid, without, sys.store, key);
  }

  lemma RevokeNext(valid: KeyCheck, sys: Sys, caller: string, key: string)
    requires sys.running.Some? && caller in sys.store.admins
    ensures Next(valid, sys, Manage(caller, RevokeAdmin(key))).store == Apply(sys.store, Tx.Revoke(key))
  {
    FoldOne(sys.store, Tx.Revoke(key));
  }
}
