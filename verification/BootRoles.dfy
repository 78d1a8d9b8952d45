/** What a boot leaves of the stored policy, key by key, from the fields of the configuration alone. */
module BootRoles {
  import opened Options
  import opened Decimal
  import opened PolicyStore
  import opened Boot

  // A configured administrator: one of the admin keys, or the operator.
  predicate IsConfiguredAdmin(cfg: Config, key: string) {
    key != "" && ((exists i :: 0 <= i < |cfg.adminPubkeys| && cfg.adminPubkeys[i] == key) || key == cfg.operatorPubkey)
  }

  predicate IsConfiguredAgent(valid: KeyCheck, cfg: Config, key: string) {
    valid(key) && exists i :: 0 <= i < |cfg.agentPubkeys| && cfg.agentPubkeys[i] == key
  }

  // A key the configuration names in any role that lets it write.
  predicate IsNamed(valid: KeyCheck, cfg: Config, key: string) {
    || IsConfiguredAdmin(cfg, key) || IsConfiguredAgent(valid, cfg, key)
    || (valid(key) && (key == cfg.serverPubkey || key == cfg.noticePubkey || key == cfg.publisherPubkey))
  }

  // The allow entry of a key: by its last role in the order of the boot, and by what was stored.
  function EntryAfter(valid: KeyCheck, cfg: Config, b: Buckets, key: string): Option<string> {
    if IsConfiguredAgent(valid, cfg, key) then Some("agent")
    else if valid(key) && key == cfg.publisherPubkey then Some("publisher")
    else if valid(key) && key == cfg.noticePubkey then Some("portal")
    else if IsConfiguredAdmin(cfg, key) then Some("admin")
    else if key in b.admins then None
    else if valid(key) && key == cfg.serverPubkey then Some("server")
    else if key in b.allowed && b.allowed[key] != "agent" then Some(b.allowed[key])
    else None
  }

  /** The configured administrators are the non-empty admin keys and the operator. */
  lemma AdminKeysAre(cfg: Config)
    ensures AdminKeys(cfg) ==
      (set k | k in cfg.adminPubkeys && k != "") + (if cfg.operatorPubkey == "" then {} else {cfg.operatorPubkey})
  {}

  lemma AdminMeans(cfg: Config, key: string)
    ensures key in AdminKeys(cfg) <==> IsConfiguredAdmin(cfg, key)
  {
    AdminKeysAre(cfg);
    if key in cfg.adminPubkeys {
      var i :| 0 <= i < |cfg.adminPubkeys| && cfg.adminPubkeys[i] == key;
    }
  }

  lemma AgentMeans(valid: KeyCheck, cfg: Config, key: string)
    ensures key in Agents(valid, cfg) <==> IsConfiguredAgent(valid, cfg, key)
  {
    if key in cfg.agentPubkeys {
      var i :| 0 <= i < |cfg.agentPubkeys| && cfg.agentPubkeys[i] == key;
    }
  }

  lemma NamedMeans(valid: KeyCheck, cfg: Config, key: string)
    ensures key in Configured(valid, cfg) <==> IsNamed(valid, cfg, key)
  {
    AdminMeans(cfg, key);
    AgentMeans(valid, cfg, key);
  }

  lemma EntryMeans(valid: KeyCheck, cfg: Config, b: Buckets, key: string)
    ensures BootedReason(valid, cfg, b, key) == EntryAfter(valid, cfg, b, key)
  {
    AdminMeans(cfg, key);
    AgentMeans(valid, cfg, key);
  }

  /** After the transactions of a boot the admins are exactly the configured ones, a ban stays exactly where
      the configuration names the key in no role, and each allow entry is the one its key's role gives. */
  lemma BootKeyByKey(valid: KeyCheck, cfg: Config, b: Buckets, key: string)
    requires !valid("")
    ensures var after := Fold(b, BootTxs(valid, cfg));
      && (key in after.admins <==> IsConfiguredAdmin(cfg, key))
      && Lookup(after.banned, key) == (if IsNamed(valid, cfg, key) then None else Lookup(b.banned, key))
      && Lookup(after.allowed, key) == EntryAfter(valid, cfg, b, key)
  {
    BootClosedForm(valid, cfg, b);
    BootedAt(valid, cfg, b, key);
    AdminMeans(cfg, key);
    NamedMeans(valid, cfg, key);
    EntryMeans(valid, cfg, b, key);
  }

  /** And the kinds: what was denied stays denied, and the configured kinds join the allowed ones. */
  lemma BootKinds(valid: KeyCheck, cfg: Config, b: Buckets, kind: GoInt)
    requires !valid("")
    ensures var after := Fold(b, BootTxs(valid, cfg));
      && after.kindsDenied == b.kindsDenied
      && (Itoa(kind) in after.kindsAllowed <==> Itoa(kind) in b.kindsAllowed || kind in cfg.allowedKinds)
  {
    BootClosedForm(valid, cfg, b);
    if Itoa(kind) in KindKeys(cfg.allowedKinds) {
      var n :| n in cfg.allowedKinds && Itoa(n) == Itoa(kind);
      ItoaInjective(n, kind);
    }
  }
}
