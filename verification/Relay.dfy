/** The relay: the hooks a published event must pass, the management calls, and runs over both. */
module Relay {
  import opened Options
  import opened Decimal
  import opened EventModel
  import opened PolicyStore
  import opened Boot
  import opened BootTheorems
  import KindPolicy

  const EXECUTION_PROGRESS: GoInt := 2205

  const PROTECTED_KINDS: seq<GoInt> := [
    OPERATION_REQUEST, OPERATION_APPROVAL, OPERATION_REJECTION, EXECUTION_STARTED, EXECUTION_RESULT,
    SYSTEM_EVENT, SERVICE_EVENT, BACKUP_EVENT, SECURITY_EVENT,
    CAPABILITY, TRUST_POLICY, IDENTITY_DEFINITION, BUILD_ATTESTATION,
    78, 30078, 10002, 30000, 30002, 30267, 10006]

  const DEFINITION_KINDS: set<GoInt> := {CAPABILITY, TRUST_POLICY, IDENTITY_DEFINITION}
  const EXECUTION_KINDS: set<GoInt> := {EXECUTION_STARTED, EXECUTION_RESULT, EXECUTION_PROGRESS}
  const DECISION_KINDS: set<GoInt> := {OPERATION_APPROVAL, OPERATION_REJECTION}

  // Unset means the default list; an explicit empty list protects nothing.
  function ProtectedKinds(cfg: Config): seq<GoInt> {
    match cfg.requireAuthKinds
    case None => PROTECTED_KINDS
    case Some(kinds) => kinds
  }

  /** A submission: the event, the key the connection authenticated as ("" for none), the time, what the
      framework's own kind check says, and the text a failing decode would print. */
  datatype Submission = Submission(event: Event, authed: string, now: int, kindShapeOk: bool, decoder: string)

  datatype Refusal =
    | KindShape | FromTheFuture | TooLarge | KindRefused | AuthorBanned | AuthorNotAllowed
    | AuthRequired | AuthorNotAdmin | AuthorNotExecutor | Schema(failure: Failure)

  // ----- the hooks -----

  function RejectFuture(s: Submission): Option<Refusal> {
    if s.event.createdAt > s.now + 600 then Some(FromTheFuture) else None
  }

  function RejectOversized(cfg: Config, e: Event): Option<Refusal> {
    if e.content.Length() > cfg.maxContentLength then Some(TooLarge) else None
  }

  function RejectKindDenied(b: Buckets, e: Event): Option<Refusal> {
    if !KindPolicy.KindAllowed(b, e.kind) then Some(KindRefused) else None
  }

  function RejectWriter(cfg: Config, b: Buckets, e: Event): Option<Refusal> {
    if e.pubkey in b.banned then Some(AuthorBanned)
    else if e.kind == OPERATION_APPROVAL || e.kind == OPERATION_REJECTION then None
    else if cfg.allowlistMode && e.pubkey !in b.allowed then Some(AuthorNotAllowed)
    else None
  }

  function RequireAuth(cfg: Config, s: Submission): Option<Refusal> {
    if s.event.kind in ProtectedKinds(cfg) && s.authed == "" then Some(AuthRequired) else None
  }

  function RejectAuthor(cfg: Config, b: Buckets, e: Event): Option<Refusal> {
    if e.kind == CAPABILITY || e.kind == TRUST_POLICY || e.kind == IDENTITY_DEFINITION then
      if e.pubkey !in b.admins then Some(AuthorNotAdmin) else None
    else if e.kind == EXECUTION_STARTED || e.kind == EXECUTION_RESULT || e.kind == EXECUTION_PROGRESS then
      if cfg.serverPubkey != "" && e.pubkey == cfg.serverPubkey then None
      else if e.pubkey !in b.admins then Some(AuthorNotExecutor)
      else None
    else None
  }

  function RejectSchema(s: Submission): Option<Refusal> {
    match Validate(s.event, s.decoder)
    case None => None
    case Some(f) => Some(Schema(f))
  }

  function Hooks(cfg: Config, b: Buckets, s: Submission): seq<Option<Refusal>> {
    [ if s.kindShapeOk then None else Some(KindShape),
      RejectFuture(s),
      RejectOversized(cfg, s.event),
      RejectKindDenied(b, s.event),
      RejectWriter(cfg, b, s.event),
      RequireAuth(cfg, s),
      RejectAuthor(cfg, b, s.event),
      RejectSchema(s) ]
  }

  function FirstRefusal(verdicts: seq<Option<Refusal>>): Option<Refusal> {
    if verdicts == [] then None
    else if verdicts[0].Some? then verdicts[0]
    else FirstRefusal(verdicts[1..])
  }

  /** The hooks run in order and the first refusal wins. */
  function Judge(cfg: Config, b: Buckets, s: Submission): Option<Refusal> { FirstRefusal(Hooks(cfg, b, s)) }

  // What an admitted event satisfies, with no order of checks.
  predicate Admissible(cfg: Config, b: Buckets, s: Submission) {
    var e := s.event;
    && s.kindShapeOk
    && e.createdAt <= s.now + 600
    && e.content.Length() <= cfg.maxContentLength
    && KindPolicy.KindAllowed(b, e.kind)
    && e.pubkey !in b.banned
    && (cfg.allowlistMode && e.kind !in DECISION_KINDS ==> e.pubkey in b.allowed)
    && (e.kind in ProtectedKinds(cfg) ==> s.authed != "")
    && (e.kind in DEFINITION_KINDS ==> e.pubkey in b.admins)
    && (e.kind in EXECUTION_KINDS ==>
        e.pubkey in b.admins || (cfg.serverPubkey != "" && e.pubkey == cfg.serverPubkey))
    && Validate(e, s.decoder) == None
  }

  lemma {:induction false} NoRefusal(verdicts: seq<Option<Refusal>>)
    ensures FirstRefusal(verdicts) == None <==> forall i :: 0 <= i < |verdicts| ==> verdicts[i] == None
    decreases |verdicts|
  {
    if verdicts != [] {
      NoRefusal(verdicts[1..]);
      assert verdicts == [verdicts[0]] + verdicts[1..];
    }
  }

  /** The pipeline admits exactly the admissible submissions. */
  lemma AdmissionIsExact(cfg: Config, b: Buckets, s: Submission)
    ensures Judge(cfg, b, s) == None <==> Admissible(cfg, b, s)
  {
    EightHooks(Hooks(cfg, b, s));
    AuthorAdmitted(cfg, b, s.event);
    WriterAdmitted(cfg, b, s.event);
  }

  lemma AuthorAdmitted(cfg: Config, b: Buckets, e: Event)
    ensures RejectAuthor(cfg, b, e) == None <==>
      && (e.kind in DEFINITION_KINDS ==> e.pubkey in b.admins)
      && (e.kind in EXECUTION_KINDS ==>
          e.pubkey in b.admins || (cfg.serverPubkey != "" && e.pubkey == cfg.serverPubkey))
  {}

  lemma WriterAdmitted(cfg: Config, b: Buckets, e: Event)
    ensures RejectWriter(cfg, b, e) == None <==>
      && e.pubkey !in b.banned
      && (cfg.allowlistMode && e.kind !in DECISION_KINDS ==> e.pubkey in b.allowed)
  {}

  lemma EightHooks(h: seq<Option<Refusal>>)
    requires |h| == 8
    ensures FirstRefusal(h) == None <==>
      && h[0] == None && h[1] == None && h[2] == None && h[3] == None
      && h[4] == None && h[5] == None && h[6] == None && h[7] == None
  {
    NoRefusal(h);
  }

  // ----- runs -----

  /** The management calls that change the policy. */
  datatype Call =
    | BanPubKey(key: string, reason: string)
    | AllowPubKey(key: string, reason: string)
    | AllowKindCall(kind: GoInt)
    | DisallowKind(kind: GoInt)
    | GrantAdmin(key: string)
    | RevokeAdmin(key: string)

  function CallTx(call: Call): Tx {
    match call
    case BanPubKey(k, reason) => Tx.Ban(k, reason)
    case AllowPubKey(k, reason) => Tx.Allow(k, reason)
    case AllowKindCall(n) => Tx.AllowKind(n)
    case DisallowKind(n) => Tx.DenyKind(n)
    case GrantAdmin(k) => Tx.Grant(k)
    case RevokeAdmin(k) => Tx.Revoke(k)
  }

  datatype Input =
    | BootWith(cfg: Config)
    | CrashedBoot(cfg: Config, commits: nat)  // boot dies after so many of its transactions
    | Stop
    | Manage(caller: string, call: Call)      // caller is the key that signed the request
    | Submit(s: Submission)

  /** The stored policy, and the configuration being served, if any. */
  datatype Sys = Sys(store: Buckets, running: Option<Config>)

  function Take(txs: seq<Tx>, n: nat): seq<Tx> { if n <= |txs| then txs[..n] else txs }

  // Management calls are carried out for admins only.
  ghost function Effects(valid: KeyCheck, sys: Sys, input: Input): seq<Tx> {
    match input
    case BootWith(cfg) => BootTxs(valid, cfg)
    case CrashedBoot(cfg, commits) => Take(BootTxs(valid, cfg), commits)
    case Manage(caller, call) => if sys.running.Some? && caller in sys.store.admins then [CallTx(call)] else []
    case Stop | Submit(_) => []
  }

  ghost function Next(valid: KeyCheck, sys: Sys, input: Input): Sys {
    Sys(Fold(sys.store, Effects(valid, sys, input)), Serving(sys.running, input))
  }

  function Serving(running: Option<Config>, input: Input): Option<Config> {
    match input
    case BootWith(cfg) => Some(cfg)
    case CrashedBoot(_, _) | Stop => None
    case Manage(_, _) | Submit(_) => running
  }

  ghost function Run(valid: KeyCheck, start: Buckets, inputs: seq<Input>): Sys
    decreases |inputs|
  {
    if inputs == [] then Sys(start, None)
    else Next(valid, Run(valid, start, inputs[..|inputs| - 1]), inputs[|inputs| - 1])
  }

  // Input i is a submission that a running relay admits.
  ghost predicate AdmittedAt(valid: KeyCheck, start: Buckets, inputs: seq<Input>, i: nat)
    requires i < |inputs|
  {
    var sys := Run(valid, start, inputs[..i]);
    inputs[i].Submit? && sys.running.Some? && Judge(sys.running.value, sys.store, inputs[i].s) == None
  }

  // Every transaction a run commits, in order.
  ghost function Trace(valid: KeyCheck, start: Buckets, inputs: seq<Input>): seq<Tx>
    decreases |inputs|
  {
    if inputs == [] then [] else
      var front := inputs[..|inputs| - 1];
      Trace(valid, start, front) + Effects(valid, Run(valid, start, front), inputs[|inputs| - 1])
  }

  lemma {:induction false} RunFoldsTrace(valid: KeyCheck, start: Buckets, inputs: seq<Input>)
    ensures Run(valid, start, inputs).store == Fold(start, Trace(valid, start, inputs))
    decreases |inputs|
  {
    if inputs != [] {
      var front := inputs[..|inputs| - 1];
      RunFoldsTrace(valid, start, front);
      FoldConcat(start, Trace(valid, start, front), Effects(valid, Run(valid, start, front), inputs[|inputs| - 1]));
    }
  }

  // ----- allowed and banned stay apart -----

  lemma FoldOne(b: Buckets, tx: Tx)
    ensures Fold(b, [tx]) == Apply(b, tx)
  {
    assert [tx][1..] == [];
  }

  /** In every state of every run, crashed boots included, no key is both allowed and banned. */
  lemma {:induction false} AlwaysDisjoint(valid: KeyCheck, start: Buckets, inputs: seq<Input>)
    requires Disjoint(start)
    ensures Disjoint(Run(valid, start, inputs).store)
    decreases |inputs|
  {
    if inputs != [] {
      var front, input := inputs[..|inputs| - 1], inputs[|inputs| - 1];
      AlwaysDisjoint(valid, start, front);
      var sys := Run(valid, start, front);
      NextDisjoint(valid, sys, input);
    }
  }

  lemma NextDisjoint(valid: KeyCheck, sys: Sys, input: Input)
    requires Disjoint(sys.store)
    ensures Disjoint(Next(valid, sys, input).store)
  {
    match input
    case BootWith(cfg) => BootTakeDisjoint(valid, cfg, sys.store, |BootTxs(valid, cfg)|);
    case CrashedBoot(cfg, commits) => BootTakeDisjoint(valid, cfg, sys.store, commits);
    case Manage(caller, call) =>
      FoldOne(sys.store, CallTx(call));
      ApplyDisjoint(sys.store, CallTx(call));
    case Stop | Submit(_) =>
  }

  lemma BootTakeDisjoint(valid: KeyCheck, cfg: Config, b: Buckets, commits: nat)
    requires Disjoint(b)
    ensures Disjoint(Fold(b, Take(BootTxs(valid, cfg), commits)))
    ensures Take(BootTxs(valid, cfg), |BootTxs(valid, cfg)|) == BootTxs(valid, cfg)
  {
    var txs := BootTxs(valid, cfg);
    assert txs[..|txs|] == txs;
    BootPrefixDisjoint(valid, cfg, b, if commits <= |txs| then commits else |txs|);
  }

  // ----- rooted authority -----

  // The number of inputs up to and including the last boot; 0 if there was none.
  function SinceBoot(inputs: seq<Input>): (n: nat)
    ensures n <= |inputs| && (n > 0 ==> inputs[n - 1].BootWith?)
    ensures forall i :: n <= i < |inputs| ==> !inputs[i].BootWith?
    decreases |inputs|
  {
    if inputs == [] then 0
    else if inputs[|inputs| - 1].BootWith? then |inputs|
    else SinceBoot(inputs[..|inputs| - 1])
  }

  function ServedAfter(inputs: seq<Input>): Option<Config>
    decreases |inputs|
  {
    if inputs == [] then None else Serving(ServedAfter(inputs[..|inputs| - 1]), inputs[|inputs| - 1])
  }

  lemma {:induction false} RunServes(valid: KeyCheck, start: Buckets, inputs: seq<Input>)
    ensures Run(valid, start, inputs).running == ServedAfter(inputs)
    decreases |inputs|
  {
    if inputs != [] {
      RunServes(valid, start, inputs[..|inputs| - 1]);
    }
  }

  lemma {:induction false} ServedSinceBoot(inputs: seq<Input>)
    ensures ServedAfter(inputs).Some? ==>
      SinceBoot(inputs) > 0 && inputs[SinceBoot(inputs) - 1] == BootWith(ServedAfter(inputs).value)
    decreases |inputs|
  {
    if inputs != [] {
      ServedSinceBoot(inputs[..|inputs| - 1]);
    }
  }

  /** A running relay serves the configuration of the last boot. */
  lemma RunningSinceBoot(valid: KeyCheck, start: Buckets, inputs: seq<Input>)
    ensures Run(valid, start, inputs).running.Some? ==>
      SinceBoot(inputs) > 0 && inputs[SinceBoot(inputs) - 1] == BootWith(Run(valid, start, inputs).running.value)
  {
    RunServes(valid, start, inputs);
    ServedSinceBoot(inputs);
  }

  // Input at is a grant to the key, made by someone who was an admin then.
  ghost predicate GrantedAt(valid: KeyCheck, start: Buckets, inputs: seq<Input>, at: nat, key: string) {
    && at < |inputs| && inputs[at].Manage? && inputs[at].call == GrantAdmin(key)
    && inputs[at].caller in Run(valid, start, inputs[..at]).store.admins
  }

  /** A chain of grants, each an input after the last boot made by a caller who was an admin at that
      moment and who heads the rest of the chain, back to a key in roots. */
  ghost predicate GrantChain(valid: KeyCheck, start: Buckets, inputs: seq<Input>, since: nat, roots: set<string>,
                             chain: seq<nat>, key: string)
    decreases |chain|
  {
    if chain == [] then key in roots
    else
      var n := |chain| - 1;
      && since <= chain[n] && (n > 0 ==> chain[n - 1] < chain[n])
      && GrantedAt(valid, start, inputs, chain[n], key)
      && GrantChain(valid, start, inputs, since, roots, chain[..n], inputs[chain[n]].caller)
  }

  lemma GrantedStays(valid: KeyCheck, start: Buckets, inputs: seq<Input>, more: seq<Input>, at: nat, key: string)
    requires inputs <= more && GrantedAt(valid, start, inputs, at, key)
    ensures GrantedAt(valid, start, more, at, key) && more[at] == inputs[at]
  {
    assert more[..at] == inputs[..at];
  }

  lemma {:induction false} ChainExtends(valid: KeyCheck, start: Buckets, inputs: seq<Input>, more: seq<Input>,
                                        since: nat, roots: set<string>, chain: seq<nat>, key: string)
    requires inputs <= more
    requires GrantChain(valid, start, inputs, since, roots, chain, key)
    ensures GrantChain(valid, start, more, since, roots, chain, key)
    decreases |chain|
  {
    if chain != [] {
      var at := chain[|chain| - 1];
      GrantedStays(valid, start, inputs, more, at, key);
      ChainExtends(valid, start, inputs, more, since, roots, chain[..|chain| - 1], inputs[at].caller);
    }
  }

  lemma {:induction false} ChainWithin(valid: KeyCheck, start: Buckets, inputs: seq<Input>,
                                       since: nat, roots: set<string>, chain: seq<nat>, key: string)
    requires GrantChain(valid, start, inputs, since, roots, chain, key)
    ensures chain != [] ==> chain[|chain| - 1] < |inputs|
  {}

  ghost predicate Rooted(valid: KeyCheck, start: Buckets, inputs: seq<Input>, cfg: Config, key: string) {
    exists chain: seq<nat> :: GrantChain(valid, start, inputs, SinceBoot(inputs), AdminKeys(cfg), chain, key)
  }

  lemma BootRoots(valid: KeyCheck, start: Buckets, inputs: seq<Input>, cfg: Config, key: string)
    requires !valid("") && inputs != [] && inputs[|inputs| - 1] == BootWith(cfg)
    requires key in Run(valid, start, inputs).store.admins
    ensures Rooted(valid, start, inputs, cfg, key)
  {
    BootClosedForm(valid, cfg, Run(valid, start, inputs[..|inputs| - 1]).store);
    assert GrantChain(valid, start, inputs, SinceBoot(inputs), AdminKeys(cfg), [], key);
  }

  lemma GrantRoots(valid: KeyCheck, start: Buckets, inputs: seq<Input>, cfg: Config, key: string)
    requires inputs != [] && GrantedAt(valid, start, inputs, |inputs| - 1, key)
    requires Rooted(valid, start, inputs[..|inputs| - 1], cfg, inputs[|inputs| - 1].caller)
    ensures Rooted(valid, start, inputs, cfg, key)
  {
    var front, caller := inputs[..|inputs| - 1], inputs[|inputs| - 1].caller;
    var since, roots := SinceBoot(inputs), AdminKeys(cfg);
    assert SinceBoot(front) == since;
    var chain: seq<nat> :| GrantChain(valid, start, front, since, roots, chain, caller);
    ChainWithin(valid, start, front, since, roots, chain, caller);
    ChainExtends(valid, start, front, inputs, since, roots, chain, caller);
    GrantLengthens(valid, start, inputs, since, roots, chain, key);
  }

  lemma GrantLengthens(valid: KeyCheck, start: Buckets, inputs: seq<Input>,
                       since: nat, roots: set<string>, chain: seq<nat>, key: string)
    requires since < |inputs| && GrantedAt(valid, start, inputs, |inputs| - 1, key)
    requires chain != [] ==> chain[|chain| - 1] < |inputs| - 1
    requires GrantChain(valid, start, inputs, since, roots, chain, inputs[|inputs| - 1].caller)
    ensures GrantChain(valid, start, inputs, since, roots, chain + [|inputs| - 1], key)
  {
    var longer := chain + [|inputs| - 1];
    assert longer[..|longer| - 1] == chain;
    ChainLink(valid, start, inputs, since, roots, longer, key);
  }

  lemma ChainLink(valid: KeyCheck, start: Buckets, inputs: seq<Input>,
                  since: nat, roots: set<string>, chain: seq<nat>, key: string)
    requires chain != []
    requires since <= chain[|chain| - 1] && (|chain| > 1 ==> chain[|chain| - 2] < chain[|chain| - 1])
    requires GrantedAt(valid, start, inputs, chain[|chain| - 1], key)
    requires GrantChain(valid, start, inputs, since, roots, chain[..|chain| - 1], inputs[chain[|chain| - 1]].caller)
    ensures GrantChain(valid, start, inputs, since, roots, chain, key)
  {}

  // What one management call can do to the admins: only a grant adds one.
  lemma CallAdmins(b: Buckets, call: Call, key: string)
    requires key in Fold(b, [CallTx(call)]).admins
    ensures key in b.admins || call == GrantAdmin(key)
  {
    FoldOne(b, CallTx(call));
  }

  /** In every state a running relay reaches, each admin is configured at the last boot or linked to a
      configured admin by a chain of grants since that boot, each made by someone who was admin then. */
  lemma {:induction false} RootedAuthority(valid: KeyCheck, start: Buckets, inputs: seq<Input>, key: string)
    requires !valid("")
    requires Run(valid, start, inputs).running.Some?
    requires key in Run(valid, start, inputs).store.admins
    ensures Rooted(valid, start, inputs, Run(valid, start, inputs).running.value, key)
    decreases |inputs|
  {
    var front, input := inputs[..|inputs| - 1], inputs[|inputs| - 1];
    var sys := Run(valid, start, front);
    if input.BootWith? {
      BootRoots(valid, start, inputs, input.cfg, key);
    } else if key in sys.store.admins {
      RootedAuthority(valid, start, front, key);
      RootedPersists(valid, start, inputs, sys.running.value, key);
    } else {
      CallAdmins(sys.store, input.call, key);
      RootedAuthority(valid, start, front, input.caller);
      GrantRoots(valid, start, inputs, sys.running.value, key);
    }
  }

  lemma RootedPersists(valid: KeyCheck, start: Buckets, inputs: seq<Input>, cfg: Config, key: string)
    requires inputs != [] && !inputs[|inputs| - 1].BootWith?
    requires Rooted(valid, start, inputs[..|inputs| - 1], cfg, key)
    ensures Rooted(valid, start, inputs, cfg, key)
  {
    var front := inputs[..|inputs| - 1];
    var since, roots := SinceBoot(inputs), AdminKeys(cfg);
    var chain: seq<nat> :| GrantChain(valid, start, front, since, roots, chain, key);
    ChainExtends(valid, start, front, inputs, since, roots, chain, key);
  }
}
