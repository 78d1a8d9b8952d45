/** The policy store: string-keyed buckets changed by atomic transactions. */
module PolicyStore {
  import opened Decimal

  type Bucket = map<string, string>

  datatype Buckets = Buckets(
    admins: Bucket,        // pubkey -> "granted"
    banned: Bucket,        // pubkey -> reason
    allowed: Bucket,       // pubkey -> reason
    kindsAllowed: Bucket,  // decimal kind -> ""
    kindsDenied: Bucket)   // decimal kind -> ""

  /** One database transaction. Each is atomic, and one that fails changes nothing. */
  datatype Tx =
    | Grant(key: string)
    | Revoke(key: string)
    | Ban(key: string, reason: string)
    | Allow(key: string, reason: string)
    | SyncAdmins(keys: seq<string>)
    | SyncAllowed(keys: seq<string>, reason: string)
    | AllowKind(kind: GoInt)
    | DenyKind(kind: GoInt)

  function NonEmpty(keys: seq<string>): set<string> {
    set k | k in keys && k != ""
  }

  lemma {:induction false} BucketExists(keys: set<string>, value: string -> string)
    ensures exists m: Bucket :: m.Keys == keys && forall k :: k in keys ==> m[k] == value(k)
    decreases keys
  {
    var m: Bucket := map[];
    if keys != {} {
      var key :| key in keys;
      BucketExists(keys - {key}, value);
      var rest: Bucket :| rest.Keys == keys - {key} && forall k :: k in keys - {key} ==> rest[k] == value(k);
      m := rest[key := value(key)];
    }
    assert m.Keys == keys && forall k :: k in keys ==> m[k] == value(k);
  }

  // The bucket with these keys and these values. Not a map comprehension: Dafny 4.11 identifies two
  // comprehensions that agree on their keys even where they differ elsewhere, which is contradictory.
  ghost function BucketOf(keys: set<string>, value: string -> string): (m: Bucket)
    ensures m.Keys == keys && forall k :: k in keys ==> m[k] == value(k)
  {
    BucketExists(keys, value);
    var m: Bucket :| m.Keys == keys && forall k :: k in keys ==> m[k] == value(k);
    m
  }

  ghost function Constant(keys: set<string>, value: string): (m: Bucket)
    ensures m.Keys == keys && forall k :: k in keys ==> m[k] == value
  {
    BucketOf(keys, _ => value)
  }

  // The database refuses to store the empty key, so a transaction that would do so rolls back.
  ghost function Apply(b: Buckets, tx: Tx): Buckets {
    match tx
    case Grant(k) =>
      if k == "" then b else b.(admins := b.admins[k := "granted"])
    case Revoke(k) =>
      b.(admins := b.admins - {k})
    case Ban(k, reason) =>
      if k == "" then b else b.(allowed := b.allowed - {k}, banned := b.banned[k := reason])
    case Allow(k, reason) =>
      if k == "" then b else b.(banned := b.banned - {k}, allowed := b.allowed[k := reason])
    case SyncAdmins(keys) =>
      var wanted := NonEmpty(keys);
      b.(admins := Constant(wanted, "granted"),
         allowed := (b.allowed - (b.admins.Keys - wanted)) + Constant(wanted, "admin"))
    case SyncAllowed(keys, reason) =>
      var wanted := NonEmpty(keys);
      var obsolete := set k | k in b.allowed && b.allowed[k] == reason && k !in wanted;
      b.(banned := b.banned - wanted,
         allowed := (b.allowed - obsolete) + Constant(wanted, reason))
    case AllowKind(n) => b.(kindsAllowed := b.kindsAllowed[Itoa(n) := ""])
    case DenyKind(n) => b.(kindsDenied := b.kindsDenied[Itoa(n) := ""])
  }

  ghost function Fold(b: Buckets, txs: seq<Tx>): Buckets
    decreases |txs|
  {
    if txs == [] then b else Fold(Apply(b, txs[0]), txs[1..])
  }

  lemma {:induction false} FoldConcat(b: Buckets, s: seq<Tx>, t: seq<Tx>)
    ensures Fold(b, s + t) == Fold(Fold(b, s), t)
    decreases |s|
  {
    if s == [] {
      assert s + t == t;
    } else {
      assert (s + t)[0] == s[0] && (s + t)[1..] == s[1..] + t;
      FoldConcat(Apply(b, s[0]), s[1..], t);
    }
  }

  // The transactions that seeding the store at open runs, in order.
  function AdminTxs(keys: seq<string>): seq<Tx>
    decreases |keys|
  {
    if keys == [] then [] else
      var last := keys[|keys| - 1];
      AdminTxs(keys[..|keys| - 1]) + if last == "" then [] else [Tx.Grant(last), Tx.Allow(last, "admin")]
  }

  function KindTxs(kinds: seq<GoInt>): seq<Tx> {
    seq(|kinds|, i requires 0 <= i < |kinds| => Tx.AllowKind(kinds[i]))
  }

  lemma FoldSnoc(b: Buckets, s: seq<Tx>, tx: Tx)
    ensures Fold(b, s + [tx]) == Apply(Fold(b, s), tx)
  {
    FoldConcat(b, s, [tx]);
    assert [tx][1..] == [];
  }

  // What seeding does for one more key.
  lemma AdminTxsSnoc(b: Buckets, keys: seq<string>, i: nat)
    requires i < |keys|
    ensures var before := Fold(b, AdminTxs(keys[..i]));
      Fold(b, AdminTxs(keys[..i + 1])) ==
        if keys[i] == "" then before else Apply(Apply(before, Tx.Grant(keys[i])), Tx.Allow(keys[i], "admin"))
  {
    assert keys[..i + 1][..i] == keys[..i];
    var before := AdminTxs(keys[..i]);
    if keys[i] == "" {
      assert AdminTxs(keys[..i + 1]) == before;
    } else {
      FoldSnoc(b, before, Tx.Grant(keys[i]));
      FoldSnoc(b, before + [Tx.Grant(keys[i])], Tx.Allow(keys[i], "admin"));
      assert AdminTxs(keys[..i + 1]) == before + [Tx.Grant(keys[i])] + [Tx.Allow(keys[i], "admin")];
    }
  }

  /** The open store. Its fields are the contents of the buckets. */
  class Store {
    var admins: Bucket
    var banned: Bucket
    var allowed: Bucket
    var kindsAllowed: Bucket
    var kindsDenied: Bucket

    ghost function Contents(): Buckets
      reads this
    {
      Buckets(admins, banned, allowed, kindsAllowed, kindsDenied)
    }

    // Seed the store: grant and allow every configured admin, then allow every configured kind.
    method Open(adminPubkeys: seq<string>, allowedKinds: seq<GoInt>)
      modifies this
      ensures Contents() == Fold(old(Contents()), AdminTxs(adminPubkeys) + KindTxs(allowedKinds))
    {
      SeedAdmins(adminPubkeys);
      SeedKinds(allowedKinds);
      FoldConcat(old(Contents()), AdminTxs(adminPubkeys), KindTxs(allowedKinds));
    }

    method SeedAdmins(keys: seq<string>)
      modifies this
      ensures Contents() == Fold(old(Contents()), AdminTxs(keys))
    {
      for i := 0 to |keys|
        invariant Contents() == Fold(old(Contents()), AdminTxs(keys[..i]))
      {
        AdminTxsSnoc(old(Contents()), keys, i);
        if keys[i] != "" {
          var _ := GrantAdmin(keys[i]);
          var _ := Allow(keys[i], "admin");
        }
      }
      assert keys[..|keys|] == keys;
    }

    method SeedKinds(kinds: seq<GoInt>)
      modifies this
      ensures Contents() == Fold(old(Contents()), KindTxs(kinds))
    {
      for i := 0 to |kinds|
        invariant Contents() == Fold(old(Contents()), KindTxs(kinds[..i]))
      {
        FoldSnoc(old(Contents()), KindTxs(kinds[..i]), Tx.AllowKind(kinds[i]));
        assert KindTxs(kinds[..i + 1]) == KindTxs(kinds[..i]) + [Tx.AllowKind(kinds[i])];
        AllowKind(kinds[i]);
      }
      assert kinds[..|kinds|] == kinds;
    }

    method GrantAdmin(key: string) returns (ok: bool)
      modifies this
      ensures Contents() == Apply(old(Contents()), Tx.Grant(key))
      ensures ok == (key != "")
    {
      ok := key != "";
      if ok {
        admins := admins[key := "granted"];
      }
    }

    method RevokeAdmin(key: string)
      modifies this
      ensures Contents() == Apply(old(Contents()), Tx.Revoke(key))
    {
      admins := admins - {key};
    }

    method Ban(key: string, reason: string) returns (ok: bool)
      modifies this
      ensures Contents() == Apply(old(Contents()), Tx.Ban(key, reason))
      ensures ok == (key != "")
    {
      ok := key != "";
      if ok {
        allowed := allowed - {key};
        banned := banned[key := reason];
      }
    }

    method Allow(key: string, reason: string) returns (ok: bool)
      modifies this
      ensures Contents() == Apply(old(Contents()), Tx.Allow(key, reason))
      ensures ok == (key != "")
    {
      ok := key != "";
      if ok {
        banned := banned - {key};
        allowed := allowed[key := reason];
      }
    }

    method AllowKind(kind: GoInt)
      modifies this
      ensures Contents() == Apply(old(Contents()), Tx.AllowKind(kind))
    {
      kindsAllowed := kindsAllowed[Itoa(kind) := ""];
    }

    method DenyKind(kind: GoInt)
      modifies this
      ensures Contents() == Apply(old(Contents()), Tx.DenyKind(kind))
    {
      kindsDenied := kindsDenied[Itoa(kind) := ""];
    }

    // Delete every obsolete admin with its allow entry, then write every wanted one.
    method SyncAdmins(keys: seq<string>)
      modifies this
      ensures Contents() == Apply(old(Contents()), Tx.SyncAdmins(keys))
    {
      var wanted := CollectWanted(keys);
      var obsolete := CollectKeys(admins, k => k !in wanted);
      assert Elements(obsolete) == admins.Keys - wanted;
      DeleteAdmins(obsolete);
      OnlyWanted(admins, wanted, "granted");
      PutAdmins(wanted, "granted", "admin");
    }

    method DeleteAdmins(obsolete: seq<string>)
      modifies this`admins, this`allowed
      ensures admins == old(admins) - Elements(obsolete)
      ensures allowed == old(allowed) - Elements(obsolete)
    {
      for i := 0 to |obsolete|
        invariant admins == old(admins) - Elements(obsolete[..i])
        invariant allowed == old(allowed) - Elements(obsolete[..i])
      {
        ElementsSnoc(obsolete, i);
        admins := admins - {obsolete[i]};
        allowed := allowed - {obsolete[i]};
      }
      assert obsolete[..|obsolete|] == obsolete;
    }

    method PutAdmins(wanted: set<string>, mark: string, reason: string)
      modifies this`admins, this`allowed
      ensures admins == old(admins) + Constant(wanted, mark)
      ensures allowed == old(allowed) + Constant(wanted, reason)
    {
      var todo := wanted;
      ghost var done, before, beforeAllowed := {}, admins, allowed;
      PutNone(before, mark);
      PutNone(beforeAllowed, reason);
      while todo != {}
        invariant done + todo == wanted
        invariant admins == before + Constant(done, mark)
        invariant allowed == beforeAllowed + Constant(done, reason)
        decreases todo
      {
        var key :| key in todo;
        ConstantSnoc(before, done, key, mark);
        ConstantSnoc(beforeAllowed, done, key, reason);
        admins := admins[key := mark];
        allowed := allowed[key := reason];
        todo, done := todo - {key}, done + {key};
      }
      assert done == wanted;
    }

    // Delete the entries held for this reason alone, then allow every wanted key for it.
    method SyncAllowed(keys: seq<string>, reason: string)
      modifies this
      ensures Contents() == Apply(old(Contents()), Tx.SyncAllowed(keys, reason))
    {
      var wanted := CollectWanted(keys);
      var entries := allowed;
      var obsolete := CollectKeys(entries, k requires k in entries => entries[k] == reason && k !in wanted);
      assert Elements(obsolete) == set k | k in allowed && allowed[k] == reason && k !in wanted;
      DeleteAllowed(obsolete);
      PutAllowed(wanted, reason);
    }

    method DeleteAllowed(obsolete: seq<string>)
      modifies this`allowed
      ensures allowed == old(allowed) - Elements(obsolete)
    {
      for i := 0 to |obsolete|
        invariant allowed == old(allowed) - Elements(obsolete[..i])
      {
        ElementsSnoc(obsolete, i);
        allowed := allowed - {obsolete[i]};
      }
      assert obsolete[..|obsolete|] == obsolete;
    }

    method PutAllowed(wanted: set<string>, reason: string)
      modifies this`banned, this`allowed
      ensures banned == old(banned) - wanted
      ensures allowed == old(allowed) + Constant(wanted, reason)
    {
      var todo := wanted;
      ghost var done, before, beforeAllowed := {}, banned, allowed;
      PutNone(beforeAllowed, reason);
      while todo != {}
        invariant done + todo == wanted
        invariant banned == before - done
        invariant allowed == beforeAllowed + Constant(done, reason)
        decreases todo
      {
        var key :| key in todo;
        ConstantSnoc(beforeAllowed, done, key, reason);
        assert before - done - {key} == before - (done + {key});
        banned := banned - {key};
        allowed := allowed[key := reason];
        todo, done := todo - {key}, done + {key};
      }
      assert done == wanted;
    }
  }

  function Elements(s: seq<string>): set<string> {
    set k | k in s
  }

  lemma ElementsSnoc(s: seq<string>, i: nat)
    requires i < |s|
    ensures Elements(s[..i + 1]) == Elements(s[..i]) + {s[i]}
  {
    assert s[..i + 1] == s[..i] + [s[i]];
  }

  lemma NonEmptySnoc(keys: seq<string>, key: string)
    ensures NonEmpty(keys + [key]) == NonEmpty(keys) + if key == "" then {} else {key}
  {}

  lemma ConstantSnoc(m: Bucket, keys: set<string>, key: string, value: string)
    ensures (m + Constant(keys, value))[key := value] == m + Constant(keys + {key}, value)
  {}

  lemma PutNone(m: Bucket, value: string)
    ensures m + Constant({}, value) == m
  {}

  lemma OnlyWanted(m: Bucket, wanted: set<string>, value: string)
    requires m.Keys <= wanted
    ensures m + Constant(wanted, value) == Constant(wanted, value)
  {}

  // A ForEach over a bucket that gathers the keys to delete, in whatever order it visits them.
  method CollectKeys(bucket: Bucket, drop: string --> bool) returns (keys: seq<string>)
    requires forall k :: k in bucket ==> drop.requires(k)
    ensures Elements(keys) == set k | k in bucket && drop(k)
  {
    keys := [];
    var unseen := bucket.Keys;
    while unseen != {}
      invariant unseen <= bucket.Keys
      invariant Elements(keys) == set k | k in bucket && k !in unseen && drop(k)
    {
      var key :| key in unseen;
      unseen := unseen - {key};
      if drop(key) {
        keys := keys + [key];
        ElementsSnoc(keys, |keys| - 1);
        assert keys[..|keys|] == keys;
      }
    }
  }

  // The set of non-empty keys both Sync methods build first.
  method CollectWanted(keys: seq<string>) returns (wanted: set<string>)
    ensures wanted == NonEmpty(keys)
  {
    wanted := {};
    for i := 0 to |keys|
      invariant wanted == NonEmpty(keys[..i])
    {
      assert keys[..i + 1] == keys[..i] + [keys[i]];
      if keys[i] != "" {
        wanted := wanted + {keys[i]};
      }
    }
    assert keys[..|keys|] == keys;
  }
}
