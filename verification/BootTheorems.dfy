/** What boots guarantee over any stored policy: they settle, and they keep allowed and banned apart. */
module BootTheorems {
  import opened Options
  import opened PolicyStore
  import opened Boot

  // ----- settling -----

  // The configured server key is a stored admin that the configuration no longer names as an admin,
  // nor under a role that boot handles after the admin sync.
  predicate ServerKeyDemoted(valid: KeyCheck, cfg: Config, b: Buckets) {
    var k := cfg.serverPubkey;
    && valid(k) && k in b.admins && k !in AdminKeys(cfg)
    && k != cfg.noticePubkey && k != cfg.publisherPubkey && k !in cfg.agentPubkeys
  }

  // Boot allows the server key before the admin sync, which then deletes the entry of every
  // demoted admin: the entry is missing after one boot, and only the next boot restores it.
  lemma DemotedServerKeyNeedsTwoBoots(valid: KeyCheck, cfg: Config, b: Buckets)
    requires !valid("")
    requires ServerKeyDemoted(valid, cfg, b)
    ensures var once := Booted(valid, cfg, b);
      && cfg.serverPubkey !in once.allowed
      && Booted(valid, cfg, once) == once.(allowed := once.allowed[cfg.serverPubkey := "server"])
  {
    var once, key := Booted(valid, cfg, b), cfg.serverPubkey;
    var restored := once.allowed[key := "server"];
    BootedAt(valid, cfg, b, key);
    BootedAt(valid, cfg, once, key);
    forall k ensures Lookup(Booted(valid, cfg, once).allowed, k) == Lookup(restored, k) {
      if k != key {
        SettlesAt(valid, cfg, b, k);
      }
    }
    SameLookups(Booted(valid, cfg, once).allowed, restored);
    RestSettles(valid, cfg, b);
  }

  /** Such stores exist for every valid key: as a server key left over as a stored admin, under a
      configuration that names someone else, it loses its entry at the first boot and gets it back at the
      second. */
  lemma DemotedServerKeyExample(valid: KeyCheck, operator: string, key: string)
    requires !valid("") && valid(key) && operator != "" && operator != key
    ensures var cfg := Config(operator, key, "", "", [], [], true, None, [], [], 0);
      var b := Buckets(map[key := "granted"], map[], map[key := "admin"], map[], map[]);
      var once := Booted(valid, cfg, b);
      ServerKeyDemoted(valid, cfg, b) && key !in once.allowed && key in Booted(valid, cfg, once).allowed
  {
    var cfg := Config(operator, key, "", "", [], [], true, None, [], [], 0);
    var b := Buckets(map[key := "granted"], map[], map[key := "admin"], map[], map[]);
    assert AdminsFrom(cfg) == [operator];
    DemotedServerKeyNeedsTwoBoots(valid, cfg, b);
  }

  lemma RestSettles(valid: KeyCheck, cfg: Config, b: Buckets)
    ensures var once := Booted(valid, cfg, b);
      Booted(valid, cfg, once) == once.(allowed := Booted(valid, cfg, once).allowed)
  {
    var once := Booted(valid, cfg, b);
    assert once.banned - Configured(valid, cfg) == once.banned;
    assert once.kindsAllowed + Constant(KindKeys(cfg.allowedKinds), "") == once.kindsAllowed;
  }

  // ----- entries held as an admin -----

  predicate AdminEntry(b: Buckets, key: string) { Lookup(b.allowed, key) == Some("admin") }

  lemma AdminEntryAfterBoot(valid: KeyCheck, cfg: Config, b: Buckets, key: string)
    requires !valid("") && key !in AdminKeys(cfg)
    ensures AdminEntry(Booted(valid, cfg, b), key) <==>
      AdminEntry(b, key) && key !in b.admins && key !in Configured(valid, cfg)
  {
    BootedAt(valid, cfg, b, key);
  }

  /** After a boot every allow entry held as an admin is a configured admin's if and only if every stored
      one belonged to a stored admin or to a key configured in some role. */
  lemma AdminEntriesAreConfigured(valid: KeyCheck, cfg: Config, b: Buckets)
    requires !valid("")
    ensures (forall key :: AdminEntry(Booted(valid, cfg, b), key) ==> key in AdminKeys(cfg)) <==>
      (forall key :: AdminEntry(b, key) ==> key in b.admins || key in Configured(valid, cfg))
  {
    forall key | key !in AdminKeys(cfg)
      ensures AdminEntry(Booted(valid, cfg, b), key) <==>
        AdminEntry(b, key) && key !in b.admins && key !in Configured(valid, cfg)
    {
      AdminEntryAfterBoot(valid, cfg, b, key);
    }
    if key :| AdminEntry(b, key) && key !in b.admins && key !in Configured(valid, cfg) {
      assert AdminEntry(Booted(valid, cfg, b), key) && key !in AdminKeys(cfg);
    }
  }

  ghost function Boots(valid: KeyCheck, b: Buckets, cfgs: seq<Config>): Buckets
    decreases |cfgs|
  {
    if cfgs == [] then b else Booted(valid, cfgs[|cfgs| - 1], Boots(valid, b, cfgs[..|cfgs| - 1]))
  }

  lemma {:induction false} LeftoverStays(valid: KeyCheck, b: Buckets, cfgs: seq<Config>, key: string)
    requires !valid("") && AdminEntry(b, key) && key !in b.admins
    requires forall i :: 0 <= i < |cfgs| ==> key !in Configured(valid, cfgs[i])
    ensures AdminEntry(Boots(valid, b, cfgs), key) && key !in Boots(valid, b, cfgs).admins
    decreases |cfgs|
  {
    if cfgs != [] {
      LeftoverStays(valid, b, cfgs[..|cfgs| - 1], key);
      AdminEntryAfterBoot(valid, cfgs[|cfgs| - 1], Boots(valid, b, cfgs[..|cfgs| - 1]), key);
    }
  }

  /** It does not always hold: an admin whose authority is revoked over NIP-86 before the key leaves the
      configuration keeps its entry at every later boot, where dropping the key alone removes it. */
  lemma RevokedAdminKeepsEntry(valid: KeyCheck, cfg: Config, without: seq<Config>, b: Buckets, key: string)
    requires !valid("") && key in AdminKeys(cfg)
    requires key !in Agents(valid, cfg) && !(valid(key) && key in {cfg.noticePubkey, cfg.publisherPubkey})
    requires without != [] && forall i :: 0 <= i < |without| ==> key !in Configured(valid, without[i])
    ensures var served := Booted(valid, cfg, b);
      && AdminEntry(Boots(valid, Apply(served, Tx.Revoke(key)), without), key)
      && Lookup(Booted(valid, without[0], served).allowed, key) == None
  {
    var served := Booted(valid, cfg, b);
    ServedAsAdmin(valid, cfg, b, key);
    LeftoverStays(valid, Apply(served, Tx.Revoke(key)), without, key);
    DroppedAdminLosesEntry(valid, without[0], served, key);
  }

  lemma ServedAsAdmin(valid: KeyCheck, cfg: Config, b: Buckets, key: string)
    requires !valid("") && key in AdminKeys(cfg)
    requires key !in Agents(valid, cfg) && !(valid(key) && key in {cfg.noticePubkey, cfg.publisherPubkey})
    ensures AdminEntry(Booted(valid, cfg, b), key) && key in Booted(valid, cfg, b).admins
  {
    BootedAt(valid, cfg, b, key);
  }

  lemma RevokedAdminLeft(valid: KeyCheck, cfg: Config, b: Buckets, key: string)
    requires !valid("") && AdminEntry(b, key) && key !in Configured(valid, cfg)
    ensures AdminEntry(Booted(valid, cfg, Apply(b, Tx.Revoke(key))), key)
  {
    AdminEntryAfterBoot(valid, cfg, Apply(b, Tx.Revoke(key)), key);
  }

  lemma DroppedAdminLosesEntry(valid: KeyCheck, cfg: Config, b: Buckets, key: string)
    requires !valid("") && key in b.admins && key !in Configured(valid, cfg)
    ensures Lookup(Booted(valid, cfg, b).allowed, key) == None
  {
    BootedAt(valid, cfg, b, key);
  }

  lemma SettlesAt(valid: KeyCheck, cfg: Config, b: Buckets, k: string)
    requires !valid("")
    requires ServerKeyDemoted(valid, cfg, b) ==> k != cfg.serverPubkey
    ensures var once := Booted(valid, cfg, b);
      Lookup(Booted(valid, cfg, once).allowed, k) == Lookup(once.allowed, k)
  {
    BootedAt(valid, cfg, b, k);
    BootedAt(valid, cfg, Booted(valid, cfg, b), k);
  }

  /** One boot is a fixpoint exactly when the server key was not demoted; boot has no other anomaly. */
  lemma OneBootSettles(valid: KeyCheck, cfg: Config, b: Buckets)
    requires !valid("")
    ensures Booted(valid, cfg, Booted(valid, cfg, b)) == Booted(valid, cfg, b)
      <==> !ServerKeyDemoted(valid, cfg, b)
  {
    if ServerKeyDemoted(valid, cfg, b) {
      DemotedServerKeyNeedsTwoBoots(valid, cfg, b);
    } else {
      var once := Booted(valid, cfg, b);
      forall k ensures Lookup(Booted(valid, cfg, once).allowed, k) == Lookup(once.allowed, k) {
        SettlesAt(valid, cfg, b, k);
      }
      SameLookups(Booted(valid, cfg, once).allowed, once.allowed);
      RestSettles(valid, cfg, b);
    }
  }

  /** Two boots of one configuration always reach a fixpoint, whatever the store held. */
  lemma TwoBootsSettle(valid: KeyCheck, cfg: Config, b: Buckets)
    requires !valid("")
    ensures var twice := Booted(valid, cfg, Booted(valid, cfg, b));
      Booted(valid, cfg, twice) == twice
  {
    OneBootSettles(valid, cfg, Booted(valid, cfg, b));
  }

  // ----- allowed and banned stay apart -----

  predicate Disjoint(b: Buckets) { b.allowed.Keys !! b.banned.Keys }

  lemma ApplyDisjoint(b: Buckets, tx: Tx)
    requires Disjoint(b) && !tx.SyncAdmins?
    ensures Disjoint(Apply(b, tx))
  {}

  /** The admin sync writes allow entries and clears no ban, so alone it keeps the two apart
      exactly when it wants no banned key. */
  lemma SyncAdminsDisjoint(b: Buckets, keys: seq<string>)
    requires Disjoint(b)
    ensures Disjoint(Apply(b, Tx.SyncAdmins(keys))) <==> NonEmpty(keys) !! b.banned.Keys
  {
    var a := Apply(b, Tx.SyncAdmins(keys));
    if k :| k in NonEmpty(keys) && k in b.banned {
      assert k in a.allowed && k in a.banned;
    }
  }

  /** So a sync that names a banned key does make a key both allowed and banned. */
  lemma SyncAdminsCollides(key: string)
    requires key != ""
    ensures var b := Buckets(map[], map[key := "abuse"], map[], map[], map[]);
      Disjoint(b) && !Disjoint(Apply(b, Tx.SyncAdmins([key])))
  {
    SyncAdminsDisjoint(Buckets(map[], map[key := "abuse"], map[], map[], map[]), [key]);
    assert key in NonEmpty([key]);
  }

  // No ban, and no admin sync that wants a key outside the given set.
  predicate Tame(txs: seq<Tx>, admins: set<string>) {
    forall i :: 0 <= i < |txs| ==>
      !txs[i].Ban? && (txs[i].SyncAdmins? ==> NonEmpty(txs[i].keys) <= admins)
  }

  lemma {:induction false} TameDisjoint(b: Buckets, txs: seq<Tx>, admins: set<string>)
    requires Disjoint(b) && Tame(txs, admins) && admins !! b.banned.Keys
    ensures Disjoint(Fold(b, txs))
    decreases |txs|
  {
    if txs != [] {
      if txs[0].SyncAdmins? {
        SyncAdminsDisjoint(b, txs[0].keys);
      } else {
        ApplyDisjoint(b, txs[0]);
      }
      ApplyRestricts(b, txs[0]);
      TameDisjoint(Apply(b, txs[0]), txs[1..], admins);
    }
  }

  lemma {:induction false} AdminTxsTame(keys: seq<string>)
    ensures Tame(AdminTxs(keys), {})
    decreases |keys|
  {
    if keys != [] {
      AdminTxsTame(keys[..|keys| - 1]);
    }
  }

  lemma SeedThenTail(b: Buckets, keys: seq<string>, tail: seq<Tx>)
    requires Disjoint(b) && Tame(tail, NonEmpty(keys))
    ensures Disjoint(Fold(b, AdminTxs(keys) + tail))
  {
    FoldConcat(b, AdminTxs(keys), tail);
    AdminTxsTame(keys);
    TameDisjoint(b, AdminTxs(keys), {});
    AdminTxsClosedForm(b, keys);
    TameDisjoint(Fold(b, AdminTxs(keys)), tail, NonEmpty(keys));
  }

  lemma TameConcat(s: seq<Tx>, t: seq<Tx>, admins: set<string>)
    requires Tame(s, admins) && Tame(t, admins)
    ensures Tame(s + t, admins)
  {}

  lemma BootTailTame(valid: KeyCheck, cfg: Config)
    ensures Tame(BootTail(valid, cfg), AdminKeys(cfg))
  {
    var keys := AdminKeys(cfg);
    var agents := [Tx.SyncAllowed(ValidAgents(valid, cfg.agentPubkeys), "agent")];
    TameConcat(AllowIfValid(valid, cfg.publisherPubkey, "publisher"), agents, keys);
    var writers := AllowIfValid(valid, cfg.publisherPubkey, "publisher") + agents;
    TameConcat(AllowIfValid(valid, cfg.noticePubkey, "portal"), writers, keys);
    var afterSync := AllowIfValid(valid, cfg.noticePubkey, "portal") + writers;
    TameConcat([Tx.SyncAdmins(AdminsFrom(cfg))], afterSync, keys);
    var sync := [Tx.SyncAdmins(AdminsFrom(cfg))] + afterSync;
    TameConcat(AllowIfValid(valid, cfg.serverPubkey, "server"), sync, keys);
    TameConcat(KindTxs(cfg.allowedKinds), AllowIfValid(valid, cfg.serverPubkey, "server") + sync, keys);
  }

  /** A boot that stops after any of its transactions leaves allowed and banned apart: the bans that
      seeding clears are the ones the admin sync would collide with. */
  lemma BootPrefixDisjoint(valid: KeyCheck, cfg: Config, b: Buckets, n: nat)
    requires Disjoint(b) && n <= |BootTxs(valid, cfg)|
    ensures Disjoint(Fold(b, BootTxs(valid, cfg)[..n]))
  {
    var seed, tail := AdminTxs(AdminsFrom(cfg)), BootTail(valid, cfg);
    AdminTxsTame(AdminsFrom(cfg));
    if n <= |seed| {
      assert (seed + tail)[..n] == seed[..n];
      TameDisjoint(b, seed[..n], {});
    } else {
      assert (seed + tail)[..n] == seed + tail[..n - |seed|];
      BootTailTame(valid, cfg);
      SeedThenTail(b, AdminsFrom(cfg), tail[..n - |seed|]);
    }
  }
}
