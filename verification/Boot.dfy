/** Boot: how relay assembly reconciles the stored policy with the configuration. */
module Boot {
  import opened Options
  import opened Decimal
  import opened PolicyStore

  datatype Config = Config(
    operatorPubkey: string,
    serverPubkey: string,
    noticePubkey: string,
    publisherPubkey: string,
    agentPubkeys: seq<string>,
    adminPubkeys: seq<string>,
    allowlistMode: bool,
    requireAuthKinds: Option<seq<GoInt>>,  // None is "unset", which is not the empty list
    allowedKinds: seq<GoInt>,
    deniedKinds: seq<GoInt>,               // loaded, and read by nothing
    maxContentLength: int)

  // Whether a string is a well-formed public key; the empty string never is.
  type KeyCheck = string -> bool

  function AdminsFrom(cfg: Config): seq<string> {
    cfg.adminPubkeys + if cfg.operatorPubkey != "" then [cfg.operatorPubkey] else []
  }

  function ValidAgents(valid: KeyCheck, keys: seq<string>): seq<string>
    decreases |keys|
  {
    if keys == [] then [] else
      var last := keys[|keys| - 1];
      ValidAgents(valid, keys[..|keys| - 1]) + if valid(last) then [last] else []
  }

  function AllowIfValid(valid: KeyCheck, key: string, reason: string): seq<Tx> {
    if valid(key) then [Tx.Allow(key, reason)] else []
  }

  /** The transactions of one boot, in the order they commit. */
  function BootTxs(valid: KeyCheck, cfg: Config): seq<Tx> {
    AdminTxs(AdminsFrom(cfg)) + BootTail(valid, cfg)
  }

  // Everything after the admin loop of the seeding.
  function BootTail(valid: KeyCheck, cfg: Config): seq<Tx> {
    KindTxs(cfg.allowedKinds)
    + (AllowIfValid(valid, cfg.serverPubkey, "server")
    + ([Tx.SyncAdmins(AdminsFrom(cfg))]
    + (AllowIfValid(valid, cfg.noticePubkey, "portal")
    + (AllowIfValid(valid, cfg.publisherPubkey, "publisher")
    + [Tx.SyncAllowed(ValidAgents(valid, cfg.agentPubkeys), "agent")]))))
  }

  method New(valid: KeyCheck, cfg: Config, pol: Store)
    requires !valid("")
    modifies pol
    ensures pol.Contents() == Booted(valid, cfg, old(pol.Contents()))
  {
    pol.Open(AdminsFrom(cfg), cfg.allowedKinds);
    ghost var seeded := pol.Contents();
    if valid(cfg.serverPubkey) {
      var _ := pol.Allow(cfg.serverPubkey, "server");
    }
    pol.SyncAdmins(AdminsFrom(cfg));
    if valid(cfg.noticePubkey) {
      var _ := pol.Allow(cfg.noticePubkey, "portal");
    }
    if valid(cfg.publisherPubkey) {
      var _ := pol.Allow(cfg.publisherPubkey, "publisher");
    }
    var agents := CollectAgents(valid, cfg.agentPubkeys);
    pol.SyncAllowed(agents, "agent");
    assert pol.Contents() == AfterOpen(valid, cfg, seeded);
    AfterOpenClosedForm(valid, cfg, old(pol.Contents()));
  }

  method CollectAgents(valid: KeyCheck, keys: seq<string>) returns (agents: seq<string>)
    ensures agents == ValidAgents(valid, keys)
  {
    agents := [];
    for i := 0 to |keys|
      invariant agents == ValidAgents(valid, keys[..i])
    {
      assert keys[..i + 1][..i] == keys[..i];
      if valid(keys[i]) {
        agents := agents + [keys[i]];
      }
    }
    assert keys[..|keys|] == keys;
  }

  // ----- the closed form -----

  function AdminKeys(cfg: Config): set<string> { NonEmpty(AdminsFrom(cfg)) }

  function Agents(valid: KeyCheck, cfg: Config): set<string> {
    set k | k in cfg.agentPubkeys && valid(k)
  }

  /** Every key the configuration names in a role that lets it write. */
  function Configured(valid: KeyCheck, cfg: Config): set<string> {
    AdminKeys(cfg) + Agents(valid, cfg)
    + set k | k in {cfg.serverPubkey, cfg.noticePubkey, cfg.publisherPubkey} && valid(k)
  }

  // The reason a key holds its allow entry under after a boot, if it holds one.
  function BootedReason(valid: KeyCheck, cfg: Config, b: Buckets, k: string): Option<string> {
    if k in Agents(valid, cfg) then Some("agent")
    else if k == cfg.publisherPubkey && valid(k) then Some("publisher")
    else if k == cfg.noticePubkey && valid(k) then Some("portal")
    else if k in AdminKeys(cfg) then Some("admin")
    else if k in b.admins then None                       // demoted: its entry goes, whatever its reason
    else if k == cfg.serverPubkey && valid(k) then Some("server")
    else if k in b.allowed && b.allowed[k] != "agent" then Some(b.allowed[k])
    else None
  }

  function BootedKeys(valid: KeyCheck, cfg: Config, b: Buckets): set<string> {
    set k | k in b.allowed.Keys + Configured(valid, cfg) && BootedReason(valid, cfg, b, k).Some?
  }

  function KindKeys(kinds: seq<GoInt>): set<string> { set n | n in kinds :: Itoa(n) }

  /** What a boot makes of the stored policy, role by role and with no order of steps. */
  ghost function Booted(valid: KeyCheck, cfg: Config, b: Buckets): Buckets {
    Buckets(
      Constant(AdminKeys(cfg), "granted"),
      b.banned - Configured(valid, cfg),
      BucketOf(BootedKeys(valid, cfg, b), k => BootedReason(valid, cfg, b, k).GetOr("")),
      b.kindsAllowed + Constant(KindKeys(cfg.allowedKinds), ""),
      b.kindsDenied)
  }

  ghost function Seeded(b: Buckets, admins: set<string>): Buckets {
    b.(admins := b.admins + Constant(admins, "granted"),
       banned := b.banned - admins,
       allowed := b.allowed + Constant(admins, "admin"))
  }

  lemma SeededSnoc(b: Buckets, admins: set<string>, key: string)
    requires key != ""
    ensures Apply(Apply(Seeded(b, admins), Tx.Grant(key)), Tx.Allow(key, "admin")) == Seeded(b, admins + {key})
  {
    ConstantSnoc(b.admins, admins, key, "granted");
    ConstantSnoc(b.allowed, admins, key, "admin");
    assert b.banned - admins - {key} == b.banned - (admins + {key});
  }

  lemma {:induction false} AdminTxsClosedForm(b: Buckets, keys: seq<string>)
    ensures Fold(b, AdminTxs(keys)) == Seeded(b, NonEmpty(keys))
    decreases |keys|
  {
    if keys == [] {
      assert Seeded(b, {}) == b;
    } else {
      var front, last := keys[..|keys| - 1], keys[|keys| - 1];
      assert keys == front + [last];
      AdminTxsClosedForm(b, front);
      AdminTxsSnoc(b, keys, |front|);
      assert keys[..|front| + 1] == keys;
      NonEmptySnoc(front, last);
      if last == "" {
        assert NonEmpty(keys) == NonEmpty(front);
      } else {
        SeededSnoc(b, NonEmpty(front), last);
      }
    }
  }

  lemma {:induction false} KindTxsClosedForm(b: Buckets, kinds: seq<GoInt>)
    ensures Fold(b, KindTxs(kinds)) == b.(kindsAllowed := b.kindsAllowed + Constant(KindKeys(kinds), ""))
    decreases |kinds|
  {
    if kinds == [] {
    } else {
      var front, last := kinds[..|kinds| - 1], kinds[|kinds| - 1];
      KindTxsClosedForm(b, front);
      assert kinds == front + [last];
      assert KindKeys(kinds) == KindKeys(front) + {Itoa(last)};
      FoldSnoc(b, KindTxs(front), Tx.AllowKind(last));
      assert KindTxs(kinds) == KindTxs(front) + [Tx.AllowKind(last)];
      ConstantSnoc(b.kindsAllowed, KindKeys(front), Itoa(last), "");
    }
  }

  lemma OpenClosedForm(b: Buckets, keys: seq<string>, kinds: seq<GoInt>)
    ensures Fold(b, AdminTxs(keys) + KindTxs(kinds))
         == Seeded(b, NonEmpty(keys)).(kindsAllowed := b.kindsAllowed + Constant(KindKeys(kinds), ""))
  {
    FoldConcat(b, AdminTxs(keys), KindTxs(kinds));
    AdminTxsClosedForm(b, keys);
    KindTxsClosedForm(Fold(b, AdminTxs(keys)), kinds);
  }

  lemma {:induction false} ValidAgentsElements(valid: KeyCheck, keys: seq<string>)
    requires !valid("")
    ensures NonEmpty(ValidAgents(valid, keys)) == set k | k in keys && valid(k)
    decreases |keys|
  {
    if keys != [] {
      var front, last := keys[..|keys| - 1], keys[|keys| - 1];
      ValidAgentsElements(valid, front);
      assert keys == front + [last];
      NonEmptySnoc(ValidAgents(valid, front), last);
      assert ValidAgents(valid, keys) == ValidAgents(valid, front) + if valid(last) then [last] else [];
      assert ValidAgents(valid, front) + [] == ValidAgents(valid, front);
    }
  }

  // The steps New runs once the store is open: up to the admin sync, and from there on.
  ghost function AfterSync(valid: KeyCheck, cfg: Config, b: Buckets): Buckets {
    var b1 := if valid(cfg.serverPubkey) then Apply(b, Tx.Allow(cfg.serverPubkey, "server")) else b;
    Apply(b1, Tx.SyncAdmins(AdminsFrom(cfg)))
  }

  ghost function AfterWriters(valid: KeyCheck, cfg: Config, b: Buckets): Buckets {
    var b1 := if valid(cfg.noticePubkey) then Apply(b, Tx.Allow(cfg.noticePubkey, "portal")) else b;
    if valid(cfg.publisherPubkey) then Apply(b1, Tx.Allow(cfg.publisherPubkey, "publisher")) else b1
  }

  ghost function AfterOpen(valid: KeyCheck, cfg: Config, b: Buckets): Buckets {
    Apply(AfterWriters(valid, cfg, AfterSync(valid, cfg, b)),
          Tx.SyncAllowed(ValidAgents(valid, cfg.agentPubkeys), "agent"))
  }

  function Lookup(m: Bucket, k: string): Option<string> {
    if k in m then Some(m[k]) else None
  }

  lemma SameLookups(m: Bucket, n: Bucket)
    requires forall k :: Lookup(m, k) == Lookup(n, k)
    ensures m == n
  {
    forall k ensures k in m <==> k in n {
      assert Lookup(m, k) == Lookup(n, k);
    }
    forall k | k in m ensures m[k] == n[k] {
      assert Lookup(m, k) == Lookup(n, k);
    }
  }

  lemma AllowAt(b: Buckets, key: string, reason: string, k: string)
    requires key != ""
    ensures var a := Apply(b, Tx.Allow(key, reason));
      && Lookup(a.allowed, k) == (if k == key then Some(reason) else Lookup(b.allowed, k))
      && (k in a.banned <==> k in b.banned && k != key)
      && a.admins == b.admins
  {}

  lemma SyncAdminsAt(b: Buckets, keys: seq<string>, k: string)
    ensures var a := Apply(b, Tx.SyncAdmins(keys));
      && Lookup(a.allowed, k) == (
        if k in NonEmpty(keys) then Some("admin") else if k in b.admins then None else Lookup(b.allowed, k))
      && a.banned == b.banned
  {}

  lemma SeededAt(b: Buckets, admins: set<string>, k: string)
    ensures var a := Seeded(b, admins);
      && Lookup(a.allowed, k) == (if k in admins then Some("admin") else Lookup(b.allowed, k))
      && (k in a.banned <==> k in b.banned && k !in admins)
      && (k in a.admins <==> k in b.admins || k in admins)
  {}

  lemma AfterSyncAt(valid: KeyCheck, cfg: Config, b: Buckets, k: string)
    requires !valid("")
    ensures var a := AfterSync(valid, cfg, Seeded(b, AdminKeys(cfg)));
      && Lookup(a.allowed, k) == (
        if k in AdminKeys(cfg) then Some("admin")
        else if k in b.admins then None
        else if k == cfg.serverPubkey && valid(k) then Some("server")
        else Lookup(b.allowed, k))
      && (k in a.banned <==> k in b.banned && k !in AdminKeys(cfg) && !(k == cfg.serverPubkey && valid(k)))
  {
    var s := Seeded(b, AdminKeys(cfg));
    SeededAt(b, AdminKeys(cfg), k);
    if valid(cfg.serverPubkey) {
      AllowAt(s, cfg.serverPubkey, "server", k);
      SyncAdminsAt(Apply(s, Tx.Allow(cfg.serverPubkey, "server")), AdminsFrom(cfg), k);
    } else {
      SyncAdminsAt(s, AdminsFrom(cfg), k);
    }
  }

  lemma AfterWritersAt(valid: KeyCheck, cfg: Config, b: Buckets, k: string)
    requires !valid("")
    ensures var a := AfterWriters(valid, cfg, b);
      && Lookup(a.allowed, k) == (
        if k == cfg.publisherPubkey && valid(k) then Some("publisher")
        else if k == cfg.noticePubkey && valid(k) then Some("portal")
        else Lookup(b.allowed, k))
      && (k in a.banned <==>
          k in b.banned && !(valid(k) && (k == cfg.publisherPubkey || k == cfg.noticePubkey)))
  {
    var b1 := if valid(cfg.noticePubkey) then Apply(b, Tx.Allow(cfg.noticePubkey, "portal")) else b;
    if valid(cfg.noticePubkey) {
      AllowAt(b, cfg.noticePubkey, "portal", k);
    }
    if valid(cfg.publisherPubkey) {
      AllowAt(b1, cfg.publisherPubkey, "publisher", k);
    }
  }

  lemma SyncAllowedAt(b: Buckets, keys: seq<string>, reason: string, k: string)
    ensures var a := Apply(b, Tx.SyncAllowed(keys, reason));
      && Lookup(a.allowed, k) == (
        if k in NonEmpty(keys) then Some(reason)
        else if Lookup(b.allowed, k) == Some(reason) then None
        else Lookup(b.allowed, k))
      && (k in a.banned <==> k in b.banned && k !in NonEmpty(keys))
  {}

  lemma AfterOpenAt(valid: KeyCheck, cfg: Config, b: Buckets, k: string)
    requires !valid("")
    ensures var a := AfterOpen(valid, cfg, Seeded(b, AdminKeys(cfg)));
      && Lookup(a.allowed, k) == BootedReason(valid, cfg, b, k)
      && (k in a.banned <==> k in b.banned && k !in Configured(valid, cfg))
  {
    var synced := AfterSync(valid, cfg, Seeded(b, AdminKeys(cfg)));
    AfterSyncAt(valid, cfg, b, k);
    AfterWritersAt(valid, cfg, synced, k);
    ValidAgentsElements(valid, cfg.agentPubkeys);
    SyncAllowedAt(AfterWriters(valid, cfg, synced), ValidAgents(valid, cfg.agentPubkeys), "agent", k);
  }

  // m holds some of n's entries and no other.
  predicate Restriction(m: Bucket, n: Bucket) {
    forall k :: k in m ==> k in n && m[k] == n[k]
  }

  lemma SameRestriction(m: Bucket, m': Bucket, n: Bucket)
    requires Restriction(m, n) && Restriction(m', n)
    requires forall k :: k in m <==> k in m'
    ensures m == m'
  {}

  lemma ApplyRestricts(b: Buckets, tx: Tx)
    requires !tx.Ban?
    ensures Restriction(Apply(b, tx).banned, b.banned)
  {}

  lemma AfterOpenRestricts(valid: KeyCheck, cfg: Config, b: Buckets)
    ensures Restriction(AfterOpen(valid, cfg, b).banned, b.banned)
  {
    var b1 := if valid(cfg.serverPubkey) then Apply(b, Tx.Allow(cfg.serverPubkey, "server")) else b;
    ApplyRestricts(b, Tx.Allow(cfg.serverPubkey, "server"));
    ApplyRestricts(b1, Tx.SyncAdmins(AdminsFrom(cfg)));
    var b2 := AfterSync(valid, cfg, b);
    assert b2 == Apply(b1, Tx.SyncAdmins(AdminsFrom(cfg)));
    AfterWritersRestricts(valid, cfg, b2);
    ApplyRestricts(AfterWriters(valid, cfg, b2), Tx.SyncAllowed(ValidAgents(valid, cfg.agentPubkeys), "agent"));
  }

  lemma AfterWritersRestricts(valid: KeyCheck, cfg: Config, b: Buckets)
    ensures Restriction(AfterWriters(valid, cfg, b).banned, b.banned)
  {
    var b1 := if valid(cfg.noticePubkey) then Apply(b, Tx.Allow(cfg.noticePubkey, "portal")) else b;
    ApplyRestricts(b, Tx.Allow(cfg.noticePubkey, "portal"));
    ApplyRestricts(b1, Tx.Allow(cfg.publisherPubkey, "publisher"));
  }

  // The other three buckets pass through every writer transaction.
  predicate SameRest(a: Buckets, b: Buckets) {
    a.admins == b.admins && a.kindsAllowed == b.kindsAllowed && a.kindsDenied == b.kindsDenied
  }

  lemma WriterTxKeepsRest(b: Buckets, tx: Tx)
    requires tx.Allow? || tx.SyncAllowed?
    ensures SameRest(Apply(b, tx), b)
  {}

  lemma AfterWritersRest(valid: KeyCheck, cfg: Config, b: Buckets)
    ensures SameRest(AfterWriters(valid, cfg, b), b)
  {
    var b1 := if valid(cfg.noticePubkey) then Apply(b, Tx.Allow(cfg.noticePubkey, "portal")) else b;
    WriterTxKeepsRest(b, Tx.Allow(cfg.noticePubkey, "portal"));
    WriterTxKeepsRest(b1, Tx.Allow(cfg.publisherPubkey, "publisher"));
  }

  lemma AfterSyncRest(valid: KeyCheck, cfg: Config, b: Buckets)
    ensures var a := AfterSync(valid, cfg, b);
      && a.admins == Constant(AdminKeys(cfg), "granted")
      && a.kindsAllowed == b.kindsAllowed && a.kindsDenied == b.kindsDenied
  {
    WriterTxKeepsRest(b, Tx.Allow(cfg.serverPubkey, "server"));
  }

  lemma AfterOpenRest(valid: KeyCheck, cfg: Config, b: Buckets)
    ensures var a := AfterOpen(valid, cfg, b);
      && a.admins == Constant(AdminKeys(cfg), "granted")
      && a.kindsAllowed == b.kindsAllowed && a.kindsDenied == b.kindsDenied
  {
    var a := AfterSync(valid, cfg, b);
    AfterSyncRest(valid, cfg, b);
    AfterWritersRest(valid, cfg, a);
    WriterTxKeepsRest(AfterWriters(valid, cfg, a), Tx.SyncAllowed(ValidAgents(valid, cfg.agentPubkeys), "agent"));
  }

  lemma BootedAt(valid: KeyCheck, cfg: Config, b: Buckets, k: string)
    ensures Lookup(Booted(valid, cfg, b).allowed, k) == BootedReason(valid, cfg, b, k)
    ensures k in Booted(valid, cfg, b).banned <==> k in b.banned && k !in Configured(valid, cfg)
  {}

  lemma AfterOpenClosedForm(valid: KeyCheck, cfg: Config, b: Buckets)
    requires !valid("")
    ensures AfterOpen(valid, cfg, Fold(b, AdminTxs(AdminsFrom(cfg)) + KindTxs(cfg.allowedKinds)))
         == Booted(valid, cfg, b)
  {
    OpenClosedForm(b, AdminsFrom(cfg), cfg.allowedKinds);
    var b' := b.(kindsAllowed := b.kindsAllowed + Constant(KindKeys(cfg.allowedKinds), ""));
    AfterOpenIsBooted(valid, cfg, b, b');
  }

  lemma AfterOpenIsBootedAt(valid: KeyCheck, cfg: Config, b: Buckets, b': Buckets, k: string)
    requires !valid("")
    requires b' == b.(kindsAllowed := b.kindsAllowed + Constant(KindKeys(cfg.allowedKinds), ""))
    ensures var l, r := AfterOpen(valid, cfg, Seeded(b', AdminKeys(cfg))), Booted(valid, cfg, b);
      Lookup(l.allowed, k) == Lookup(r.allowed, k) && (k in l.banned <==> k in r.banned)
  {
    AfterOpenAt(valid, cfg, b', k);
    assert BootedReason(valid, cfg, b', k) == BootedReason(valid, cfg, b, k);
    BootedAt(valid, cfg, b, k);
  }

  lemma AfterOpenIsBooted(valid: KeyCheck, cfg: Config, b: Buckets, b': Buckets)
    requires !valid("")
    requires b' == b.(kindsAllowed := b.kindsAllowed + Constant(KindKeys(cfg.allowedKinds), ""))
    ensures AfterOpen(valid, cfg, Seeded(b', AdminKeys(cfg))) == Booted(valid, cfg, b)
  {
    var l, r := AfterOpen(valid, cfg, Seeded(b', AdminKeys(cfg))), Booted(valid, cfg, b);
    forall k
      ensures Lookup(l.allowed, k) == Lookup(r.allowed, k)
      ensures k in l.banned <==> k in r.banned
    {
      AfterOpenIsBootedAt(valid, cfg, b, b', k);
    }
    SameLookups(l.allowed, r.allowed);
    AfterOpenRest(valid, cfg, Seeded(b', AdminKeys(cfg)));
    AfterOpenRestricts(valid, cfg, Seeded(b', AdminKeys(cfg)));
    SameRestriction(l.banned, r.banned, b.banned);
  }

  // Runs one leading group of at most one transaction.
  lemma FoldGroup(b: Buckets, s: seq<Tx>, t: seq<Tx>)
    requires |s| <= 1
    ensures Fold(b, s + t) == Fold(if s == [] then b else Apply(b, s[0]), t)
  {
    FoldConcat(b, s, t);
    assert Fold(b, s) == if s == [] then b else Apply(b, s[0]);
  }

  lemma BootTailFold(valid: KeyCheck, cfg: Config, b: Buckets)
    ensures Fold(b, BootTail(valid, cfg)) == AfterOpen(valid, cfg, Fold(b, KindTxs(cfg.allowedKinds)))
  {
    var agents := [Tx.SyncAllowed(ValidAgents(valid, cfg.agentPubkeys), "agent")];
    var publisher := AllowIfValid(valid, cfg.publisherPubkey, "publisher");
    var notice := AllowIfValid(valid, cfg.noticePubkey, "portal");
    var sync := [Tx.SyncAdmins(AdminsFrom(cfg))];
    var server := AllowIfValid(valid, cfg.serverPubkey, "server");
    var kinds := KindTxs(cfg.allowedKinds);
    var k := Fold(b, kinds);
    FoldConcat(b, kinds, server + (sync + (notice + (publisher + agents))));
    FoldGroup(k, server, sync + (notice + (publisher + agents)));
    var b1 := if server == [] then k else Apply(k, server[0]);
    FoldGroup(b1, sync, notice + (publisher + agents));
    var b2 := Apply(b1, sync[0]);
    FoldGroup(b2, notice, publisher + agents);
    var b3 := if notice == [] then b2 else Apply(b2, notice[0]);
    FoldGroup(b3, publisher, agents);
    var b4 := if publisher == [] then b3 else Apply(b3, publisher[0]);
    assert agents + [] == agents;
    FoldGroup(b4, agents, []);
  }

  /** Running the boot transactions in order gives the closed form, whatever the store held. */
  lemma BootClosedForm(valid: KeyCheck, cfg: Config, b: Buckets)
    requires !valid("")
    ensures Fold(b, BootTxs(valid, cfg)) == Booted(valid, cfg, b)
  {
    var seed := AdminTxs(AdminsFrom(cfg));
    FoldConcat(b, seed, BootTail(valid, cfg));
    FoldConcat(b, seed, KindTxs(cfg.allowedKinds));
    BootTailFold(valid, cfg, Fold(b, seed));
    AfterOpenClosedForm(valid, cfg, b);
  }
}
