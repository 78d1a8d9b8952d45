/** The digest message: a stable sort by severity, done in place, and the text made from it. */
module DigestFormat {
  import opened Options
  import opened Decimal
  import opened Json
  import opened EventModel
  import opened Classifier

  function Rank(item: Item): nat { SeverityRank(item.severity) }

  // The items of one rank, in order.
  function OfRank(s: seq<Item>, r: nat): seq<Item> {
    if s == [] then [] else (if Rank(s[0]) == r then [s[0]] else []) + OfRank(s[1..], r)
  }

  /** The stable order, most severe first: arrival order within each rank. */
  function BySeverity(s: seq<Item>): seq<Item> { OfRank(s, 2) + OfRank(s, 1) + OfRank(s, 0) }

  predicate NonIncreasing(s: seq<Item>) {
    forall i, j :: 0 <= i < j < |s| ==> Rank(s[i]) >= Rank(s[j])
  }

  ghost predicate SameRanks(s: seq<Item>, t: seq<Item>) { forall r: nat :: OfRank(s, r) == OfRank(t, r) }

  lemma {:induction false} OfRankConcat(s: seq<Item>, t: seq<Item>, r: nat)
    ensures OfRank(s + t, r) == OfRank(s, r) + OfRank(t, r)
    decreases |s|
  {
    if s == [] {
      assert s + t == t;
    } else {
      assert (s + t)[0] == s[0] && (s + t)[1..] == s[1..] + t;
      OfRankConcat(s[1..], t, r);
    }
  }

  lemma {:induction false} OfRankMembers(s: seq<Item>, r: nat)
    ensures forall i :: 0 <= i < |OfRank(s, r)| ==> Rank(OfRank(s, r)[i]) == r
    ensures (forall i :: 0 <= i < |s| ==> Rank(s[i]) == r) ==> OfRank(s, r) == s
    ensures (forall i :: 0 <= i < |s| ==> Rank(s[i]) != r) ==> OfRank(s, r) == []
    decreases |s|
  {
    if s != [] {
      OfRankMembers(s[1..], r);
    }
  }

  lemma OfRankHead(s: seq<Item>, r: nat)
    requires s != []
    ensures OfRank(s, r) == if Rank(s[0]) == r then [s[0]] + OfRank(s[1..], r) else OfRank(s[1..], r)
  {}

  lemma RankKept(s: seq<Item>, r: nat)
    ensures OfRank(BySeverity(s), r) == OfRank(s, r)
  {
    OfRankConcat(OfRank(s, 2) + OfRank(s, 1), OfRank(s, 0), r);
    OfRankConcat(OfRank(s, 2), OfRank(s, 1), r);
    OfRankTwice(s, 2, r);
    OfRankTwice(s, 1, r);
    OfRankTwice(s, 0, r);
    if r > 2 {
      OfRankMembers(s, r);
    }
  }

  /** Sorting is stable: within each rank the order of arrival is kept. */
  lemma SortIsStable(s: seq<Item>)
    ensures SameRanks(BySeverity(s), s)
  {
    forall r: nat ensures OfRank(BySeverity(s), r) == OfRank(s, r) {
      RankKept(s, r);
    }
  }

  lemma OfRankTwice(s: seq<Item>, q: nat, r: nat)
    ensures OfRank(OfRank(s, q), r) == if q == r then OfRank(s, q) else []
  {
    OfRankMembers(s, q);
    OfRankMembers(OfRank(s, q), r);
  }

  /** Sorting orders the ranks and is a permutation. */
  lemma SortIsOrderedPermutation(s: seq<Item>)
    ensures NonIncreasing(BySeverity(s))
    ensures multiset(BySeverity(s)) == multiset(s)
  {
    RanksDescend(s);
    RanksPartition(s);
  }

  lemma RanksDescend(s: seq<Item>)
    ensures NonIncreasing(BySeverity(s))
  {
    OfRankMembers(s, 2);
    OfRankMembers(s, 1);
    OfRankMembers(s, 0);
    AppendLower(OfRank(s, 2), OfRank(s, 1), 1);
    AppendLower(OfRank(s, 2) + OfRank(s, 1), OfRank(s, 0), 0);
  }

  lemma AppendLower(a: seq<Item>, b: seq<Item>, r: nat)
    requires NonIncreasing(a) && (forall i :: 0 <= i < |a| ==> Rank(a[i]) >= r)
    requires forall i :: 0 <= i < |b| ==> Rank(b[i]) == r
    ensures NonIncreasing(a + b) && (forall i :: 0 <= i < |a + b| ==> Rank((a + b)[i]) >= r)
  {}

  lemma {:induction false} RanksPartition(s: seq<Item>)
    ensures multiset(OfRank(s, 2)) + multiset(OfRank(s, 1)) + multiset(OfRank(s, 0)) == multiset(s)
    decreases |s|
  {
    if s != [] {
      RanksPartition(s[1..]);
      HeadCounts(s);
      GroupGrows(s, 2);
      GroupGrows(s, 1);
      GroupGrows(s, 0);
      assert Rank(s[0]) <= 2;
    }
  }

  lemma HeadCounts(s: seq<Item>)
    requires s != []
    ensures multiset(s) == multiset(s[1..]) + multiset{s[0]}
  {
    assert s == [s[0]] + s[1..];
  }

  lemma GroupGrows(s: seq<Item>, r: nat)
    requires s != []
    ensures multiset(OfRank(s, r))
      == multiset(OfRank(s[1..], r)) + if Rank(s[0]) == r then multiset{s[0]} else multiset{}
  {
    OfRankHead(s, r);
  }

  // An ordered sequence is its own stable order.
  lemma {:induction false} OrderedStays(s: seq<Item>)
    requires NonIncreasing(s)
    ensures s == BySeverity(s)
    decreases |s|
  {
    if s != [] {
      OrderedStays(s[1..]);
      HighestFirst(s);
    }
  }

  lemma NothingAbove(s: seq<Item>, r: nat)
    requires NonIncreasing(s)
    ensures s != [] && r > Rank(s[0]) ==> OfRank(s[1..], r) == []
  {
    if s != [] && r > Rank(s[0]) {
      OfRankMembers(s[1..], r);
    }
  }

  // In an ordered sequence nothing outranks the head, so its rank's group comes first.
  lemma HighestFirst(s: seq<Item>)
    requires s != [] && NonIncreasing(s)
    ensures BySeverity(s) == [s[0]] + BySeverity(s[1..])
  {
    OfRankHead(s, 2);
    OfRankHead(s, 1);
    OfRankHead(s, 0);
    NothingAbove(s, 2);
    NothingAbove(s, 1);
    HeadJoins([s[0]], OfRank(s[1..], 2), OfRank(s[1..], 1), OfRank(s[1..], 0));
  }

  lemma HeadJoins(x: seq<Item>, a: seq<Item>, b: seq<Item>, c: seq<Item>)
    ensures x + a + b + c == x + (a + b + c)
    ensures a == [] ==> a + (x + b) + c == x + (a + b + c)
    ensures a == [] && b == [] ==> a + b + (x + c) == x + (a + b + c)
  {}

  lemma SameRanksSameSort(s: seq<Item>, t: seq<Item>)
    requires SameRanks(s, t)
    ensures BySeverity(s) == BySeverity(t)
  {
    assert OfRank(s, 2) == OfRank(t, 2) && OfRank(s, 1) == OfRank(t, 1) && OfRank(s, 0) == OfRank(t, 0);
  }

  /** No other sequence is ordered by rank and agrees with s rank by rank. */
  lemma SortIsUnique(t: seq<Item>, s: seq<Item>)
    requires NonIncreasing(t) && SameRanks(t, s)
    ensures t == BySeverity(s)
  {
    OrderedStays(t);
    SameRanksSameSort(t, s);
  }

  // Swapping neighbours of different rank changes no rank's subsequence.
  lemma SwapKeepsRanks(s: seq<Item>, j: nat)
    requires 0 < j < |s| && Rank(s[j]) != Rank(s[j - 1])
    ensures SameRanks(s[j := s[j - 1]][j - 1 := s[j]], s)
  {
    var t := s[j := s[j - 1]][j - 1 := s[j]];
    var a, b, x, y := s[..j - 1], s[j + 1..], s[j - 1], s[j];
    assert s == a + ([x] + [y]) + b && t == a + ([y] + [x]) + b;
    forall r: nat ensures OfRank(t, r) == OfRank(s, r) {
      OfRankConcat(a + ([x] + [y]), b, r);
      OfRankConcat(a, [x] + [y], r);
      OfRankConcat([x], [y], r);
      OfRankConcat(a + ([y] + [x]), b, r);
      OfRankConcat(a, [y] + [x], r);
      OfRankConcat([y], [x], r);
    }
  }

  /** The insertion sort leaves the array in the stable order of what it held. */
  method SortBySeverityDesc(items: array<Item>)
    modifies items
    ensures items[..] == BySeverity(old(items[..]))
  {
    var i := 1;
    while i < items.Length
      invariant 1 <= i
      invariant SameRanks(items[..], old(items[..]))
      invariant forall p, q :: 0 <= p < q < i && q < items.Length ==> Rank(items[p]) >= Rank(items[q])
    {
      var j := i;
      while j > 0 && Rank(items[j]) > Rank(items[j - 1])
        invariant 0 <= j <= i
        invariant SameRanks(items[..], old(items[..]))
        invariant forall p, q :: 0 <= p < q <= i && q != j ==> Rank(items[p]) >= Rank(items[q])
      {
        SwapKeepsRanks(items[..], j);
        ghost var before := items[..];
        items[j], items[j - 1] := items[j - 1], items[j];
        assert items[..] == before[j := before[j - 1]][j - 1 := before[j]];
        j := j - 1;
      }
      i := i + 1;
    }
    SortIsUnique(items[..], old(items[..]));
  }

  // ----- the message -----

  function Header(n: nat): string { Itoa(n) + " notice(s):\n" }

  function Line(item: Item): string {
    "- [" + item.class_ + "/" + item.severity + "] " + item.summary + "\n"
  }

  function Lines(items: seq<Item>): string
    decreases |items|
  {
    if items == [] then "" else Lines(items[..|items| - 1]) + Line(items[|items| - 1])
  }

  /** A header with the number of items, then their lines, most severe first. */
  function Render(items: seq<Item>): string { Header(|items|) + Lines(BySeverity(items)) }

  method SortedCopy(items: array<Item>) returns (sorted: array<Item>)
    ensures fresh(sorted) && sorted[..] == BySeverity(items[..])
  {
    sorted := new Item[items.Length](i requires 0 <= i < items.Length reads items => items[i]);
    assert sorted[..] == items[..];
    SortBySeverityDesc(sorted);
  }

  // Sorts a copy: the caller's items are not touched.
  method FormatDigest(items: array<Item>) returns (body: string)
    ensures body == Render(items[..])
  {
    var sorted := SortedCopy(items);
    SameLength(items[..]);
    var lines := FormatLines(sorted);
    body := Header(sorted.Length) + lines;
  }

  method FormatLines(sorted: array<Item>) returns (body: string)
    ensures body == Lines(sorted[..])
  {
    body := "";
    for i := 0 to sorted.Length
      invariant body == Lines(sorted[..i])
    {
      LinesSnoc(sorted[..], i);
      assert sorted[..][..i] == sorted[..i] && sorted[..][..i + 1] == sorted[..i + 1];
      body := body + Line(sorted[i]);
    }
    assert sorted[..sorted.Length] == sorted[..];
  }

  lemma SameLength(items: seq<Item>)
    ensures |BySeverity(items)| == |items|
  {
    SortIsOrderedPermutation(items);
    assert |multiset(BySeverity(items))| == |multiset(items)|;
  }

  lemma LinesSnoc(items: seq<Item>, i: nat)
    requires i < |items|
    ensures Lines(items[..i + 1]) == Lines(items[..i]) + Line(items[i])
  {
    assert items[..i + 1][..i] == items[..i];
  }

  function Newlines(s: string): nat { if s == "" then 0 else (if s[0] == '\n' then 1 else 0) + Newlines(s[1..]) }

  lemma {:induction false} NewlinesConcat(s: string, t: string)
    ensures Newlines(s + t) == Newlines(s) + Newlines(t)
    decreases |s|
  {
    if s == "" {
      assert s + t == t;
    } else {
      assert (s + t)[0] == s[0] && (s + t)[1..] == s[1..] + t;
      NewlinesConcat(s[1..], t);
    }
  }

  // Line breaks inside the texts of an item.
  function Breaks(item: Item): nat {
    Newlines(item.class_) + Newlines(item.severity) + Newlines(item.summary)
  }

  function TotalBreaks(items: seq<Item>): nat
    decreases |items|
  {
    if items == [] then 0 else TotalBreaks(items[..|items| - 1]) + Breaks(items[|items| - 1])
  }

  lemma NewlinesOfLine(item: Item)
    ensures Newlines(Line(item)) == 1 + Breaks(item)
  {
    var parts := ["- [", item.class_, "/", item.severity, "] ", item.summary];
    NewlinesConcat(parts[0], parts[1]);
    NewlinesConcat(parts[0] + parts[1], parts[2]);
    NewlinesConcat(parts[0] + parts[1] + parts[2], parts[3]);
    NewlinesConcat(parts[0] + parts[1] + parts[2] + parts[3], parts[4]);
    NewlinesConcat(parts[0] + parts[1] + parts[2] + parts[3] + parts[4], parts[5]);
    NewlinesConcat(parts[0] + parts[1] + parts[2] + parts[3] + parts[4] + parts[5], "\n");
  }

  lemma {:induction false} NewlinesOfLines(items: seq<Item>)
    ensures Newlines(Lines(items)) == |items| + TotalBreaks(items)
    decreases |items|
  {
    if items != [] {
      var front, last := items[..|items| - 1], items[|items| - 1];
      NewlinesOfLines(front);
      NewlinesConcat(Lines(front), Line(last));
      NewlinesOfLine(last);
    }
  }

  lemma {:induction false} NewlinesOfDigits(s: string)
    requires AllDigits(s)
    ensures Newlines(s) == 0
    decreases |s|
  {
    if s != "" {
      NewlinesOfDigits(s[1..]);
    }
  }

  lemma NewlinesOfHeader(n: nat)
    ensures Newlines(Header(n)) == 1
  {
    DigitsRoundTrip(n);
    NewlinesOfDigits(Itoa(n));
    NewlinesConcat(Itoa(n), " notice(s):\n");
    NewlinesOfLabel();
  }

  lemma NewlinesOfLabel()
    ensures Newlines(" notice(s):\n") == 1
  {
    NewlinesConcat(" notice", "(s):\n");
    assert " notice(s):\n" == " notice" + "(s):\n";
    assert Newlines(" notice") == 0;
    assert Newlines("(s):\n") == 1;
  }

  lemma {:induction false} TotalBreaksConcat(s: seq<Item>, t: seq<Item>)
    ensures TotalBreaks(s + t) == TotalBreaks(s) + TotalBreaks(t)
    decreases |t|
  {
    if t == [] {
      assert s + t == s;
    } else {
      var front := t[..|t| - 1];
      assert (s + t)[..|s + t| - 1] == s + front;
      TotalBreaksConcat(s, front);
    }
  }

  lemma OfRankStep(s: seq<Item>, r: nat)
    requires s != []
    ensures TotalBreaks(OfRank(s, r)) == TotalBreaks(OfRank(s[1..], r)) + if Rank(s[0]) == r then Breaks(s[0]) else 0
    ensures TotalBreaks([s[0]]) == Breaks(s[0])
  {
    assert [s[0]][..0] == [];
    TotalBreaksConcat([s[0]], OfRank(s[1..], r));
    assert [] + OfRank(s[1..], r) == OfRank(s[1..], r);
  }

  lemma {:induction false} TotalBreaksByRank(s: seq<Item>)
    ensures TotalBreaks(OfRank(s, 2)) + TotalBreaks(OfRank(s, 1)) + TotalBreaks(OfRank(s, 0)) == TotalBreaks(s)
    decreases |s|
  {
    if s != [] {
      TotalBreaksByRank(s[1..]);
      assert s == [s[0]] + s[1..];
      TotalBreaksConcat([s[0]], s[1..]);
      OfRankStep(s, 2);
      OfRankStep(s, 1);
      OfRankStep(s, 0);
    }
  }

  lemma {:induction false} NoBreaks(items: seq<Item>)
    ensures TotalBreaks(items) == 0 <==> forall i :: 0 <= i < |items| ==> Breaks(items[i]) == 0
    decreases |items|
  {
    if items != [] {
      NoBreaks(items[..|items| - 1]);
    }
  }

  /** The message is the header with the true count and, beneath it, exactly one line for each item,
      unless the texts of an item contain line breaks of their own. */
  lemma OneLinePerItem(items: seq<Item>)
    ensures Header(|items|) <= Render(items) && |Header(|items|)| >= 12
    ensures InInt64(|items|) ==> ParseInt(Header(|items|)[..|Header(|items|)| - 12]) == Some(|items|)
    ensures Newlines(Render(items)) == 1 + |items|
      <==> forall i :: 0 <= i < |items| ==> Breaks(items[i]) == 0
  {
    RenderBreaks(items);
    NoBreaks(items);
    CountInHeader(|items|);
  }

  lemma RenderBreaks(items: seq<Item>)
    ensures Newlines(Render(items)) == 1 + |items| + TotalBreaks(items)
  {
    var order := BySeverity(items);
    NewlinesOfHeader(|items|);
    NewlinesOfLines(order);
    NewlinesConcat(Header(|items|), Lines(order));
    SameLength(items);
    TotalBreaksConcat(OfRank(items, 2) + OfRank(items, 1), OfRank(items, 0));
    TotalBreaksConcat(OfRank(items, 2), OfRank(items, 1));
    TotalBreaksByRank(items);
  }

  lemma CountInHeader(n: nat)
    ensures |Header(n)| >= 12
    ensures InInt64(n) ==> ParseInt(Header(n)[..|Header(n)| - 12]) == Some(n)
  {
    assert Header(n)[..|Header(n)| - 12] == Itoa(n);
    if InInt64(n) {
      ItoaRoundTrip(n);
    }
  }

  const BROKEN: string := "a\nb"

  // A system notice whose summary is two lines.
  function TwoLineNotice(id: string, author: string, at: GoInt): Event {
    Event(id, author, at, SYSTEM_EVENT, [], Doc(18, Obj([Member("summary", Str(BROKEN))])))
  }

  /** The exception is real: the validator accepts such a notice, the service keeps it, and a digest of
      this one item has two lines beneath its header. */
  lemma AcceptedNoticeBreaksLine(id: string, author: string, at: GoInt, decoder: string)
    ensures var e := TwoLineNotice(id, author, at);
      && Validate(e, decoder) == None
      && Classify(e) == Some(Item("system", "info", BROKEN, id, SYSTEM_EVENT))
      && Newlines(Render([Classify(e).value])) == 3
  {
    TwoLineNoticeDecodes([Member("summary", Str(BROKEN))]);
    TwoLinesRendered(id);
  }

  lemma TwoLinesRendered(id: string)
    ensures Newlines(Render([Item("system", "info", BROKEN, id, SYSTEM_EVENT)])) == 3
  {
    var item := Item("system", "info", BROKEN, id, SYSTEM_EVENT);
    assert BROKEN == ['a', '\n', 'b'];
    assert Newlines(BROKEN) == 1;
    assert Newlines("system") == 0;
    assert Newlines("info") == 0;
    RenderBreaks([item]);
    assert [item][..0] == [];
  }

  lemma TwoLineNoticeDecodes(ms: seq<Member>)
    requires ms == [Member("summary", Str(BROKEN))]
    ensures StringFieldOk(ms, "class") && StringFieldOk(ms, "severity") && StringFieldOk(ms, "summary")
    ensures StringField(ms, "class") == "" && StringField(ms, "severity") == "" && StringField(ms, "summary") == BROKEN
  {
    assert FoldName("summary") == "summary";
    assert ms[..0] == [];
    assert |"class"| == 5 && |"severity"| == 8 && |"summary"| == 7;
  }
}
