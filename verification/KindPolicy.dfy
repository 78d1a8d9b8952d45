/** The kind policy: two buckets of decimal strings, read as two sets of integers. */
module KindPolicy {
  import opened Decimal
  import opened PolicyStore

  // A denied kind is refused; with nothing explicitly allowed every other kind passes.
  predicate KindAllowed(b: Buckets, kind: GoInt) {
    var key := Itoa(kind);
    if key in b.kindsDenied then false
    else if |b.kindsAllowed| == 0 then true
    else key in b.kindsAllowed
  }

  // ----- the buckets refine sets of integers -----

  function KindsOf(bucket: Bucket): set<int> { set key | key in bucket :: Atoi(key) }

  // Every key is the printed form of some machine integer, as AllowKind and DenyKind write it.
  ghost predicate Canonical(bucket: Bucket) {
    forall key :: key in bucket ==> IsPrinted(key)
  }

  ghost predicate IsPrinted(key: string) { exists n: GoInt :: key == Itoa(n) }

  lemma PrintedAtoi(key: string)
    requires IsPrinted(key)
    ensures InInt64(Atoi(key)) && Itoa(Atoi(key)) == key
  {
    var n: GoInt :| key == Itoa(n);
    ItoaRoundTrip(n);
  }

  lemma ApplyCanonical(b: Buckets, tx: Tx)
    requires Canonical(b.kindsAllowed) && Canonical(b.kindsDenied)
    ensures Canonical(Apply(b, tx).kindsAllowed) && Canonical(Apply(b, tx).kindsDenied)
  {}

  /** Having a kind's key in the bucket is having the kind in the set, for every integer. */
  lemma KindsOfMember(bucket: Bucket, n: int)
    requires Canonical(bucket)
    ensures n in KindsOf(bucket) <==> Itoa(n) in bucket
  {
    if n in KindsOf(bucket) {
      var key :| key in bucket && Atoi(key) == n;
      PrintedAtoi(key);
    }
    if Itoa(n) in bucket {
      var m: GoInt :| Itoa(n) == Itoa(m);
      ItoaInjective(n, m);
      ItoaRoundTrip(m);
    }
  }

  /** The string-keyed verdict is the verdict of the two integer sets. */
  lemma KindAllowedRefinesSets(b: Buckets, kind: GoInt)
    requires Canonical(b.kindsAllowed) && Canonical(b.kindsDenied)
    ensures KindAllowed(b, kind) <==>
      kind !in KindsOf(b.kindsDenied) && (KindsOf(b.kindsAllowed) == {} || kind in KindsOf(b.kindsAllowed))
  {
    KindsOfMember(b.kindsAllowed, kind);
    KindsOfMember(b.kindsDenied, kind);
    if |b.kindsAllowed| != 0 {
      var key :| key in b.kindsAllowed;
      assert Atoi(key) in KindsOf(b.kindsAllowed);
    }
  }

  predicate Increasing(s: seq<int>) { forall i, j :: 0 <= i < j < |s| ==> s[i] <= s[j] }

  predicate StrictlyIncreasing(s: seq<int>) { forall i, j :: 0 <= i < j < |s| ==> s[i] < s[j] }

  predicate Distinct(s: seq<int>) { forall i, j :: 0 <= i < j < |s| ==> s[i] != s[j] }

  /** The listing of a kind bucket: its non-negative members, each once, in increasing order. */
  method ListInts(bucket: Bucket) returns (out: seq<int>)
    ensures Increasing(out)
    ensures forall n :: n in out <==> n >= 0 && n in KindsOf(bucket)
    ensures Canonical(bucket) ==> StrictlyIncreasing(out)
  {
    out := [];
    var unseen := bucket.Keys;
    while unseen != {}
      invariant unseen <= bucket.Keys
      invariant forall n :: n in out <==> n >= 0 && n in KindsOf(bucket - unseen)
      invariant Canonical(bucket) ==> Distinct(out)
    {
      var key :| key in unseen;
      assert KindsOf(bucket - (unseen - {key})) == KindsOf(bucket - unseen) + {Atoi(key)};
      if Canonical(bucket) && Atoi(key) in out {
        var other :| other in bucket - unseen && Atoi(other) == Atoi(key);
        PrintedAtoi(key);
        PrintedAtoi(other);
        assert false;
      }
      unseen := unseen - {key};
      if Atoi(key) >= 0 {
        out := out + [Atoi(key)];
      }
    }
    assert bucket - {} == bucket;
    ghost var collected := out;
    out := SortInts(out);
    SameElements(out, collected);
    if Canonical(bucket) {
      DistinctMultiset(collected);
      DistinctMultiset(out);
    }
  }

  // Stands for the library sort of integers.
  function SortInts(s: seq<int>): (r: seq<int>)
    ensures Increasing(r) && multiset(r) == multiset(s)
  {
    if s == [] then [] else
      assert s == [s[0]] + s[1..];
      InsertOrdered(SortInts(s[1..]), s[0]);
      Insert(SortInts(s[1..]), s[0])
  }

  function Insert(s: seq<int>, n: int): (r: seq<int>)
    ensures multiset(r) == multiset(s) + multiset{n}
  {
    if s == [] || n <= s[0] then [n] + s
    else
      assert s == [s[0]] + s[1..];
      [s[0]] + Insert(s[1..], n)
  }

  lemma {:induction false} InsertOrdered(s: seq<int>, n: int)
    requires Increasing(s)
    ensures Increasing(Insert(s, n))
    ensures forall i :: 0 <= i < |Insert(s, n)| ==> Insert(s, n)[i] >= (if s == [] || n <= s[0] then n else s[0])
    decreases |s|
  {
    if s != [] && n > s[0] {
      InsertOrdered(s[1..], n);
    }
  }

  lemma SameElements(s: seq<int>, t: seq<int>)
    requires multiset(s) == multiset(t)
    ensures forall x :: x in s <==> x in t
  {
    forall x ensures x in s <==> x in t {
      assert x in s <==> x in multiset(s);
      assert x in t <==> x in multiset(t);
    }
  }

  lemma {:induction false} DistinctMultiset(s: seq<int>)
    ensures Distinct(s) <==> forall x :: multiset(s)[x] <= 1
    decreases |s|
  {
    if s != [] {
      assert s == [s[0]] + s[1..];
      DistinctMultiset(s[1..]);
      assert multiset(s) == multiset{s[0]} + multiset(s[1..]);
      if Distinct(s) {
        assert s[0] !in s[1..];
        assert s[0] !in multiset(s[1..]);
      } else if Distinct(s[1..]) {
        var i, j :| 0 <= i < j < |s| && s[i] == s[j];
        assert i == 0 && s[0] == s[1..][j - 1];
        assert s[0] in multiset(s[1..]);
        assert multiset(s)[s[0]] == 1 + multiset(s[1..])[s[0]];
      } else {
        var x :| multiset(s[1..])[x] > 1;
        assert multiset(s)[x] > 1;
      }
    }
  }

  // ----- the policy is an order-independent join -----

  function KindCommands(txs: seq<Tx>): set<Tx> {
    set tx | tx in txs && (tx.AllowKind? || tx.DenyKind?)
  }

  function AllowedBy(cmds: set<Tx>): set<string> { set tx | tx in cmds && tx.AllowKind? :: Itoa(tx.kind) }

  function DeniedBy(cmds: set<Tx>): set<string> { set tx | tx in cmds && tx.DenyKind? :: Itoa(tx.kind) }

  lemma {:induction false} FoldKinds(b: Buckets, txs: seq<Tx>)
    ensures Fold(b, txs).kindsAllowed.Keys == b.kindsAllowed.Keys + AllowedBy(KindCommands(txs))
    ensures Fold(b, txs).kindsDenied.Keys == b.kindsDenied.Keys + DeniedBy(KindCommands(txs))
    decreases |txs|
  {
    if txs != [] {
      FoldKinds(Apply(b, txs[0]), txs[1..]);
      assert txs == [txs[0]] + txs[1..];
      var here := KindCommands([txs[0]]);
      assert KindCommands(txs) == here + KindCommands(txs[1..]);
      assert AllowedBy(KindCommands(txs)) == AllowedBy(here) + AllowedBy(KindCommands(txs[1..]));
      assert DeniedBy(KindCommands(txs)) == DeniedBy(here) + DeniedBy(KindCommands(txs[1..]));
      ApplyKinds(b, txs[0]);
    }
  }

  lemma ApplyKinds(b: Buckets, tx: Tx)
    ensures Apply(b, tx).kindsAllowed.Keys == b.kindsAllowed.Keys + AllowedBy(KindCommands([tx]))
    ensures Apply(b, tx).kindsDenied.Keys == b.kindsDenied.Keys + DeniedBy(KindCommands([tx]))
  {
    assert KindCommands([tx]) == if tx.AllowKind? || tx.DenyKind? then {tx} else {};
  }

  /** Two histories that issue the same set of kind commands, in any order and with any repetition,
      leave the same verdict on every kind. */
  lemma KindPolicyIsJoin(b: Buckets, txs: seq<Tx>, txs': seq<Tx>, kind: GoInt)
    requires KindCommands(txs) == KindCommands(txs')
    ensures KindAllowed(Fold(b, txs), kind) == KindAllowed(Fold(b, txs'), kind)
  {
    FoldKinds(b, txs);
    FoldKinds(b, txs');
    EmptyByKeys(Fold(b, txs).kindsAllowed);
    EmptyByKeys(Fold(b, txs').kindsAllowed);
  }

  lemma EmptyByKeys(m: Bucket)
    ensures |m| == 0 <==> m.Keys == {}
  {
    assert |m| == |m.Keys|;
  }

  // ----- how often a verdict can change -----

  // How far a kind has moved: unrestricted, left out, listed, denied. Even phases allow the kind.
  function Phase(b: Buckets, kind: GoInt): nat {
    if Itoa(kind) in b.kindsDenied then 3
    else if Itoa(kind) in b.kindsAllowed then 2
    else if |b.kindsAllowed| != 0 then 1
    else 0
  }

  lemma PhaseGivesVerdict(b: Buckets, kind: GoInt)
    ensures KindAllowed(b, kind) <==> Phase(b, kind) % 2 == 0
  {
    EmptyByKeys(b.kindsAllowed);
  }

  lemma {:induction false} PhaseNeverDrops(b: Buckets, txs: seq<Tx>, kind: GoInt)
    ensures Phase(b, kind) <= Phase(Fold(b, txs), kind)
  {
    FoldKinds(b, txs);
    EmptyByKeys(b.kindsAllowed);
    EmptyByKeys(Fold(b, txs).kindsAllowed);
  }

  /** A denied kind is never allowed again. */
  lemma DeniedForever(b: Buckets, txs: seq<Tx>, kind: GoInt)
    requires Tx.DenyKind(kind) in txs
    ensures !KindAllowed(Fold(b, txs), kind)
  {
    FoldKinds(b, txs);
    assert Itoa(kind) in DeniedBy(KindCommands(txs));
  }

  lemma {:induction false} DenialStays(b: Buckets, txs: seq<Tx>, key: string)
    requires key in b.kindsDenied
    ensures key in Fold(b, txs).kindsDenied
    decreases |txs|
  {
    if txs != [] {
      DenialStays(Apply(b, txs[0]), txs[1..], key);
    }
  }

  function Changes(verdicts: seq<bool>): nat {
    if |verdicts| < 2 then 0
    else (if verdicts[0] != verdicts[1] then 1 else 0) + Changes(verdicts[1..])
  }

  // Verdicts that follow the parity of a rising phase change no more often than the phase rises.
  lemma {:induction false} ChangesBounded(verdicts: seq<bool>, phases: seq<nat>)
    requires |verdicts| == |phases| > 0
    requires forall i :: 0 <= i < |phases| ==> verdicts[i] == (phases[i] % 2 == 0)
    requires forall i :: 0 <= i < |phases| - 1 ==> phases[i] <= phases[i + 1]
    ensures phases[0] + Changes(verdicts) <= phases[|phases| - 1]
    decreases |verdicts|
  {
    if |verdicts| > 1 {
      ChangesBounded(verdicts[1..], phases[1..]);
    }
  }

  /** Three changes do happen: another kind is listed, then this one, then this one is denied. */
  lemma ThreeChangesHappen(kind: GoInt, other: GoInt)
    requires kind != other
    ensures var b0 := Buckets(map[], map[], map[], map[], map[]);
      var b1 := Apply(b0, Tx.AllowKind(other));
      var b2 := Apply(b1, Tx.AllowKind(kind));
      var b3 := Apply(b2, Tx.DenyKind(kind));
      KindAllowed(b0, kind) && !KindAllowed(b1, kind) && KindAllowed(b2, kind) && !KindAllowed(b3, kind)
  {
    if Itoa(kind) == Itoa(other) {
      ItoaInjective(kind, other);
    }
  }
}
