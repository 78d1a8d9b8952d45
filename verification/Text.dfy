/** The parts of the standard string library that the rules use. */
module Text {

  // unicode.IsSpace
  predicate IsSpace(c: char) {
    || '\t' <= c <= '\r' || c == ' ' || c == '\U{85}' || c == '\U{A0}' || c == '\U{1680}'
    || '\U{2000}' <= c <= '\U{200A}' || c == '\U{2028}' || c == '\U{2029}' || c == '\U{202F}'
    || c == '\U{205F}' || c == '\U{3000}'
  }

  function TrimLeft(s: string): string {
    if s != "" && IsSpace(s[0]) then TrimLeft(s[1..]) else s
  }

  function TrimRight(s: string): string {
    if s != "" && IsSpace(s[|s| - 1]) then TrimRight(s[..|s| - 1]) else s
  }

  function TrimSpace(s: string): string { TrimRight(TrimLeft(s)) }

  // The code points with Unicode's property White_Space.
  predicate White(c: char) {
    var n := c as int;
    || n in {9, 10, 11, 12, 13, 32, 133, 160, 5760}
    || n in {8192, 8193, 8194, 8195, 8196, 8197, 8198, 8199, 8200, 8201, 8202}
    || n in {8232, 8233, 8239, 8287, 12288}
  }

  predicate AllWhite(s: string) { forall c :: c in s ==> White(c) }

  lemma SpaceIsWhite(c: char)
    ensures IsSpace(c) <==> White(c)
  {}

  lemma {:induction false} TrimLeftIs(s: string)
    ensures exists a :: s == a + TrimLeft(s) && AllWhite(a)
    ensures TrimLeft(s) != "" ==> !White(TrimLeft(s)[0])
    decreases |s|
  {
    if s != "" && IsSpace(s[0]) {
      TrimLeftIs(s[1..]);
      var a :| s[1..] == a + TrimLeft(s[1..]) && AllWhite(a);
      SpaceIsWhite(s[0]);
      assert s == ([s[0]] + a) + TrimLeft(s) && AllWhite([s[0]] + a);
    } else {
      assert s == "" + TrimLeft(s) && AllWhite("");
      if s != "" {
        SpaceIsWhite(s[0]);
      }
    }
  }

  lemma {:induction false} TrimRightIs(s: string)
    ensures exists b :: s == TrimRight(s) + b && AllWhite(b)
    ensures TrimRight(s) != "" ==> !White(TrimRight(s)[|TrimRight(s)| - 1])
    decreases |s|
  {
    if s != "" && IsSpace(s[|s| - 1]) {
      var front, last := s[..|s| - 1], s[|s| - 1];
      TrimRightIs(front);
      var b :| front == TrimRight(front) + b && AllWhite(b);
      SpaceIsWhite(last);
      assert s == TrimRight(s) + (b + [last]) && AllWhite(b + [last]);
    } else {
      assert s == TrimRight(s) + "" && AllWhite("");
      if s != "" {
        SpaceIsWhite(s[|s| - 1]);
      }
    }
  }

  /** Trimming takes off white space at both ends, and all of it. */
  lemma TrimSpaceIs(s: string)
    ensures exists a, b :: s == a + TrimSpace(s) + b && AllWhite(a) && AllWhite(b)
    ensures TrimSpace(s) != "" ==> !White(TrimSpace(s)[0]) && !White(TrimSpace(s)[|TrimSpace(s)| - 1])
    ensures TrimSpace(s) == "" <==> AllWhite(s)
  {
    var t := TrimLeft(s);
    TrimLeftIs(s);
    TrimRightIs(t);
    var a :| s == a + t && AllWhite(a);
    var b :| t == TrimRight(t) + b && AllWhite(b);
    assert s == a + TrimSpace(s) + b;
    if TrimSpace(s) != "" {
      assert TrimSpace(s)[0] == t[0] && t[0] in s;
    }
  }

  ghost predicate OccursAt(s: string, p: string, i: int) {
    0 <= i <= |s| - |p| && s[i..i + |p|] == p
  }

  // strings.Contains, for a substring p.
  ghost predicate Contains(s: string, p: string) { exists i :: OccursAt(s, p, i) }

  ghost predicate Sharp(p: string) { p != "" && !IsSpace(p[0]) && !IsSpace(p[|p| - 1]) }

  // An occurrence shows every character of the phrase.
  lemma CharsOf(s: string, p: string)
    ensures forall i, k :: OccursAt(s, p, i) && 0 <= k < |p| ==> s[i + k] == p[k]
    ensures forall i, j :: OccursAt(s, p, i) && i <= j < i + |p| ==> s[j] == p[j - i]
  {
    forall i, k | OccursAt(s, p, i) && 0 <= k < |p| ensures s[i + k] == p[k] {
      assert s[i..i + |p|][k] == p[k];
    }
    forall i, j | OccursAt(s, p, i) && i <= j < i + |p| ensures s[j] == p[j - i] {
      assert s[i..i + |p|][j - i] == p[j - i];
    }
  }

  lemma {:induction false} TrimLeftKeeps(s: string, p: string)
    requires Sharp(p)
    ensures Contains(TrimLeft(s), p) <==> Contains(s, p)
    decreases |s|
  {
    if s != "" && IsSpace(s[0]) {
      var t := s[1..];
      TrimLeftKeeps(t, p);
      CharsOf(s, p);
      if i :| OccursAt(t, p, i) {
        assert s[i + 1..i + 1 + |p|] == p;
        assert OccursAt(s, p, i + 1);
      }
      if i :| OccursAt(s, p, i) {
        assert s[i + 0] == p[0];
        assert t[i - 1..i - 1 + |p|] == p;
        assert OccursAt(t, p, i - 1);
      }
    }
  }

  // One space at the end is in no occurrence of a sharp phrase.
  lemma LastSpaceKeeps(s: string, p: string)
    requires Sharp(p) && s != "" && IsSpace(s[|s| - 1])
    ensures Contains(s[..|s| - 1], p) <==> Contains(s, p)
  {
    var t := s[..|s| - 1];
    CharsOf(s, p);
    forall i ensures OccursAt(t, p, i) <==> OccursAt(s, p, i) {
      if OccursAt(s, p, i) {
        assert s[i + (|p| - 1)] == p[|p| - 1];
        assert i + |p| <= |t|;
      }
      if 0 <= i <= |t| - |p| {
        assert t[i..i + |p|] == s[i..i + |p|];
      }
    }
  }

  lemma {:induction false} TrimRightKeeps(s: string, p: string)
    requires Sharp(p)
    ensures Contains(TrimRight(s), p) <==> Contains(s, p)
    decreases |s|
  {
    if s != "" && IsSpace(s[|s| - 1]) {
      TrimRightKeeps(s[..|s| - 1], p);
      LastSpaceKeeps(s, p);
    }
  }

  /** Trimming the outside never hides or creates a phrase that neither starts nor ends with a space. */
  lemma TrimKeeps(s: string, p: string)
    requires Sharp(p)
    ensures Contains(TrimSpace(s), p) <==> Contains(s, p)
  {
    TrimLeftKeeps(s, p);
    TrimRightKeeps(TrimLeft(s), p);
  }

  lemma Within(before: string, p: string, after: string)
    ensures Contains(before + p + after, p)
  {
    assert OccursAt(before + p + after, p, |before|);
  }

  // A string without some character of the phrase does not contain the phrase.
  lemma Misses(s: string, p: string, c: char)
    requires c in p && c !in s
    ensures !Contains(s, p)
  {
    CharsOf(s, p);
  }

  predicate Lacks(s: string, cs: set<char>) { forall c :: c in cs ==> c !in s }

  // A phrase whose first character appears only in a part too short for it does not occur.
  lemma MissesTail(a: string, b: string, p: string)
    requires p != "" && p[0] !in a && |b| < |p|
    ensures !Contains(a + b, p)
  {
    CharsOf(a + b, p);
    assert forall i :: 0 <= i < |a| ==> (a + b)[i] == a[i];
  }

  // Nor does one that needs two neighbouring characters which are nowhere neighbours.
  lemma MissesPair(s: string, p: string, k: nat)
    requires k + 1 < |p|
    requires forall j :: 0 <= j < |s| - 1 && s[j + 1] == p[k + 1] ==> s[j] != p[k]
    ensures !Contains(s, p)
  {
    CharsOf(s, p);
    assert forall i :: OccursAt(s, p, i) ==> s[i + (k + 1)] == p[k + 1] && s[i + k] == p[k];
  }

  // A phrase found in a string that ends in ": " followed by more text lies on one side of the join.
  lemma SplitAtColon(a: string, b: string, p: string)
    requires |a| >= 2 && a[|a| - 2..] == ": "
    requires Sharp(p) && ':' !in p
    ensures Contains(a + b, p) <==> Contains(a, p) || Contains(b, p)
  {
    if i :| OccursAt(a, p, i) {
      assert (a + b)[i..i + |p|] == a[i..i + |p|];
      assert OccursAt(a + b, p, i);
    }
    if i :| OccursAt(b, p, i) {
      assert (a + b)[|a| + i..|a| + i + |p|] == b[i..i + |p|];
      assert OccursAt(a + b, p, |a| + i);
    }
    CharsOf(a + b, p);
    if i :| OccursAt(a + b, p, i) {
      NoStraddle(a, b, p, i);
      if i >= |a| {
        assert b[i - |a|..i - |a| + |p|] == (a + b)[i..i + |p|];
        assert OccursAt(b, p, i - |a|);
      } else {
        assert a[i..i + |p|] == (a + b)[i..i + |p|];
        assert OccursAt(a, p, i);
      }
    }
  }

  lemma NoStraddle(a: string, b: string, p: string, i: int)
    requires |a| >= 2 && a[|a| - 2] == ':' && a[|a| - 1] == ' '
    requires Sharp(p) && ':' !in p && OccursAt(a + b, p, i)
    ensures i >= |a| || i + |p| <= |a|
  {
    CharsOf(a + b, p);
    assert (a + b)[|a| - 1] == ' ' && (a + b)[|a| - 2] == ':';
  }
}
