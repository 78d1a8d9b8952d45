/** The retention pruner: each round deletes the expired events among the newest ones a bounded query returns. */
module Pruner {
  import opened Decimal

  datatype Stored = Stored(id: string, kind: GoInt, createdAt: int)

  type Events = set<Stored>

  // A query that names no limit returns a quarter of the configured maximum.
  const MAX_LIMIT: nat := 20000
  const QUERY_LIMIT: nat := MAX_LIMIT / 4

  function Elements(found: seq<Stored>): Events { set e | e in found }

  function OfKind(events: Events, kind: GoInt): Events { set e | e in events && e.kind == kind }

  function Expired(events: Events, kind: GoInt, cutoff: int): Events {
    set e | e in events && e.kind == kind && e.createdAt < cutoff
  }

  function Unexpired(events: Events, kind: GoInt, cutoff: int): Events {
    set e | e in events && e.kind == kind && e.createdAt >= cutoff
  }

  function Min(a: int, b: int): int { if a <= b then a else b }

  function Max(a: int, b: int): int { if a >= b then a else b }

  // The newest events of a kind, at most limit of them; which of several equally old ones is open.
  predicate NewestOf(events: Events, kind: GoInt, limit: nat, found: Events) {
    && found <= OfKind(events, kind)
    && |found| == Min(limit, |OfKind(events, kind)|)
    && forall x, y :: x in OfKind(events, kind) && x !in found && y in found ==> x.createdAt <= y.createdAt
  }

  // One round took the store from before to after.
  ghost predicate Round(before: Events, after: Events, kind: GoInt, cutoff: int, limit: nat) {
    exists found :: NewestOf(before, kind, limit, found) && after == before - Expired(found, kind, cutoff)
  }

  class EventStore {
    var events: Events

    method QueryNewest(kind: GoInt, limit: nat) returns (found: seq<Stored>)
      ensures NewestOf(events, kind, limit, Elements(found))
    {
      found := [];
      ghost var taken: Events := {};
      var rest := OfKind(events, kind);
      while |found| < limit && rest != {}
        invariant taken == Elements(found)
        invariant taken !! rest && taken + rest == OfKind(events, kind) && |taken| == |found| <= limit
        invariant forall x, y :: x in rest && y in taken ==> x.createdAt <= y.createdAt
        decreases rest
      {
        NewestExists(rest);
        var e :| e in rest && forall x :: x in rest ==> x.createdAt <= e.createdAt;
        taken := taken + {e};
        rest := rest - {e};
        found := found + [e];
      }
      assert |OfKind(events, kind)| == |taken| + |rest|;
    }

    /** One pruning of one kind. */
    method PruneKind(kind: GoInt, cutoff: int)
      modifies this
      ensures Round(old(events), events, kind, cutoff, 5000)
    {
      var found := QueryNewest(kind, QUERY_LIMIT);
      ghost var before, all: Events := events, Elements(found);
      for i := 0 to |found|
        invariant events == before - Expired(Elements(found[..i]), kind, cutoff)
      {
        assert found[..i + 1] == found[..i] + [found[i]];
        assert found[i] in all;
        if found[i].createdAt < cutoff {
          events := events - {found[i]};
        }
      }
      assert found[..|found|] == found;
      assert NewestOf(before, kind, QUERY_LIMIT, all);
    }
  }

  lemma {:induction false} NewestExists(s: Events)
    requires s != {}
    ensures exists e :: e in s && forall x :: x in s ==> x.createdAt <= e.createdAt
    decreases s
  {
    var a :| a in s;
    if s != {a} {
      var rest := s - {a};
      assert s == rest + {a};
      NewestExists(rest);
      var b :| b in rest && forall x :: x in rest ==> x.createdAt <= b.createdAt;
      var m := if a.createdAt <= b.createdAt then b else a;
      assert m in s && forall x :: x in s ==> x.createdAt <= m.createdAt;
    }
  }

  lemma KindSplits(events: Events, kind: GoInt, cutoff: int)
    ensures |OfKind(events, kind)| == |Expired(events, kind, cutoff)| + |Unexpired(events, kind, cutoff)|
  {
    assert OfKind(events, kind) == Expired(events, kind, cutoff) + Unexpired(events, kind, cutoff);
  }

  // Newest first: the query reaches an expired event only after every unexpired one.
  lemma ExpiredFound(events: Events, kind: GoInt, cutoff: int, limit: nat, found: Events)
    requires NewestOf(events, kind, limit, found)
    ensures |Expired(found, kind, cutoff)|
      == Max(0, Min(|Expired(events, kind, cutoff)|, limit - |Unexpired(events, kind, cutoff)|))
  {
    var live, dead := Unexpired(events, kind, cutoff), Expired(found, kind, cutoff);
    KindSplits(events, kind, cutoff);
    assert OfKind(found, kind) == found;
    KindSplits(found, kind, cutoff);
    if dead == {} {
      assert Unexpired(found, kind, cutoff) <= live;
      Smaller(Unexpired(found, kind, cutoff), live);
    } else {
      var y :| y in dead;
      assert live <= found;
      assert Unexpired(found, kind, cutoff) == live;
    }
  }

  lemma Smaller(a: Events, b: Events)
    requires a <= b
    ensures |a| <= |b|
  {
    assert b == a + (b - a);
  }

  /** A round deletes only expired events of its kind, and exactly as many as the query's limit leaves
      room for after the unexpired ones. */
  lemma RoundDeletes(before: Events, after: Events, kind: GoInt, cutoff: int, limit: nat)
    requires Round(before, after, kind, cutoff, limit)
    ensures after <= before
    ensures forall e :: e in before && (e.kind != kind || e.createdAt >= cutoff) ==> e in after
    ensures |before - after|
      == Max(0, Min(|Expired(before, kind, cutoff)|, limit - |Unexpired(before, kind, cutoff)|))
    ensures Unexpired(after, kind, cutoff) == Unexpired(before, kind, cutoff)
    ensures |Expired(after, kind, cutoff)| == |Expired(before, kind, cutoff)| - |before - after|
  {
    var found :| NewestOf(before, kind, limit, found) && after == before - Expired(found, kind, cutoff);
    ExpiredFound(before, kind, cutoff, limit, found);
    ExpiredRemoved(before, Expired(found, kind, cutoff), kind, cutoff);
  }

  lemma ExpiredRemoved(before: Events, gone: Events, kind: GoInt, cutoff: int)
    requires gone <= Expired(before, kind, cutoff)
    ensures before - (before - gone) == gone
    ensures Unexpired(before - gone, kind, cutoff) == Unexpired(before, kind, cutoff)
    ensures |Expired(before - gone, kind, cutoff)| == |Expired(before, kind, cutoff)| - |gone|
  {
    assert Expired(before, kind, cutoff) == Expired(before - gone, kind, cutoff) + gone;
  }

  // Repeated rounds with the cutoff fixed and no writes in between.
  ghost predicate Rounds(history: seq<Events>, kind: GoInt, cutoff: int, limit: nat) {
    && history != []
    && forall i :: 0 <= i < |history| - 1 ==> Round(history[i], history[i + 1], kind, cutoff, limit)
  }

  // The expired events left after some rounds that each have room for so many.
  function Remaining(first: nat, rounds: nat, room: int): int {
    if room > 0 then Max(0, first - rounds * room) else first
  }

  lemma DrainStep(first: nat, rounds: nat, room: int)
    ensures var now := Remaining(first, rounds, room);
      now >= 0 && now - Max(0, Min(now, room)) == Remaining(first, rounds + 1, room)
  {
    assert (rounds + 1) * room == rounds * room + room;
  }

  lemma NoneRemain(first: nat, rounds: nat, room: int)
    requires rounds >= first
    ensures Remaining(first, rounds, room) == 0 <==> first == 0 || room > 0
  {
    if room > 0 {
      assert rounds * room >= rounds;
    }
  }

  lemma {:induction false} RoundsCount(history: seq<Events>, kind: GoInt, cutoff: int, limit: nat)
    requires Rounds(history, kind, cutoff, limit)
    ensures var first, last := history[0], history[|history| - 1];
      var room := limit - |Unexpired(first, kind, cutoff)|;
      && Unexpired(last, kind, cutoff) == Unexpired(first, kind, cutoff)
      && |Expired(last, kind, cutoff)| == Remaining(|Expired(first, kind, cutoff)|, |history| - 1, room)
    decreases |history|
  {
    if |history| > 1 {
      var front := history[..|history| - 1];
      RoundsCount(front, kind, cutoff, limit);
      RoundDeletes(front[|front| - 1], history[|history| - 1], kind, cutoff, limit);
      DrainStep(|Expired(history[0], kind, cutoff)|, |front| - 1, limit - |Unexpired(history[0], kind, cutoff)|);
    }
  }

  /** Given at least as many rounds as there are expired events, none is left if and only if there was
      none to begin with or the unexpired events do not fill the query. */
  lemma PruningConverges(history: seq<Events>, kind: GoInt, cutoff: int, limit: nat)
    requires Rounds(history, kind, cutoff, limit)
    requires |history| - 1 >= |Expired(history[0], kind, cutoff)|
    ensures Expired(history[|history| - 1], kind, cutoff) == {}
      <==> Expired(history[0], kind, cutoff) == {} || |Unexpired(history[0], kind, cutoff)| < limit
  {
    RoundsCount(history, kind, cutoff, limit);
    var first, last := Expired(history[0], kind, cutoff), Expired(history[|history| - 1], kind, cutoff);
    NoneRemain(|first|, |history| - 1, limit - |Unexpired(history[0], kind, cutoff)|);
    assert |first| == 0 <==> first == {};
    assert |last| == 0 <==> last == {};
  }

  /** Where the unexpired events fill the query, no number of rounds ever deletes anything. */
  lemma {:induction false} FullQueryNeverPrunes(history: seq<Events>, kind: GoInt, cutoff: int, limit: nat)
    requires Rounds(history, kind, cutoff, limit)
    requires |Unexpired(history[0], kind, cutoff)| >= limit
    ensures history[|history| - 1] == history[0]
    decreases |history|
  {
    if |history| > 1 {
      var front, last := history[..|history| - 1], history[|history| - 1];
      FullQueryNeverPrunes(front, kind, cutoff, limit);
      RoundDeletes(history[0], last, kind, cutoff, limit);
      assert history[0] == last + (history[0] - last);
    }
  }
}
