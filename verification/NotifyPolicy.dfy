/** The notification policy: recipients, rules, validation, lookup and matching. */
module NotifyPolicy {
  import opened Options
  import opened Classifier

  datatype Recipient = Recipient(npub: string, role: string, pubkey: string)

  datatype Rule = Rule(recipient: string, classes: seq<string>, severityMin: string, delivery: string, scope: string)

  // The key an npub encodes; None for text that is not an npub.
  type Decoder = string -> Option<string>

  datatype Invalid =
    | NpubRequired(i: nat) | InvalidNpub(i: nat) | DuplicateNpub(npub: string)
    | UnknownRecipient(i: nat) | NoClasses(i: nat) | BadSeverity(i: nat) | BadDelivery(i: nat) | BadScope(i: nat)

  // ----- what validation reports -----

  predicate Decodes(decode: Decoder, npub: string) { decode(npub).Some? && decode(npub).value != "" }

  predicate ListedBefore(rs: seq<Recipient>, i: nat)
    requires i < |rs|
  {
    exists j :: 0 <= j < i && rs[j].npub == rs[i].npub
  }

  function RecipientFault(decode: Decoder, rs: seq<Recipient>, i: nat): Option<Invalid>
    requires i < |rs|
  {
    if rs[i].npub == "" then Some(NpubRequired(i))
    else if !Decodes(decode, rs[i].npub) then Some(InvalidNpub(i))
    else if ListedBefore(rs, i) then Some(DuplicateNpub(rs[i].npub))
    else None
  }

  function RuleFault(npubs: set<string>, rule: Rule, i: nat): Option<Invalid> {
    if rule.recipient !in npubs then Some(UnknownRecipient(i))
    else if rule.classes == [] then Some(NoClasses(i))
    else if !ValidSeverity(rule.severityMin) then Some(BadSeverity(i))
    else if rule.delivery !in {"immediate", "summary"} then Some(BadDelivery(i))
    else if rule.scope !in {"local-only", "external"} then Some(BadScope(i))
    else None
  }

  function FirstRecipientFault(decode: Decoder, rs: seq<Recipient>, i: nat): Option<Invalid>
    requires i <= |rs|
    decreases |rs| - i
  {
    if i == |rs| then None
    else if RecipientFault(decode, rs, i).Some? then RecipientFault(decode, rs, i)
    else FirstRecipientFault(decode, rs, i + 1)
  }

  function FirstRuleFault(npubs: set<string>, rules: seq<Rule>, i: nat): Option<Invalid>
    requires i <= |rules|
    decreases |rules| - i
  {
    if i == |rules| then None
    else if RuleFault(npubs, rules[i], i).Some? then RuleFault(npubs, rules[i], i)
    else FirstRuleFault(npubs, rules, i + 1)
  }

  function Npubs(rs: seq<Recipient>): set<string> { set r | r in rs :: r.npub }

  function FirstFault(decode: Decoder, rs: seq<Recipient>, rules: seq<Rule>): Option<Invalid> {
    var fault := FirstRecipientFault(decode, rs, 0);
    if fault.Some? then fault else FirstRuleFault(Npubs(rs), rules, 0)
  }

  predicate GoodRule(npubs: set<string>, rule: Rule) {
    && rule.recipient in npubs && rule.classes != [] && rule.severityMin in {"info", "warning", "critical"}
    && rule.delivery in {"immediate", "summary"} && rule.scope in {"local-only", "external"}
  }

  lemma {:induction false} NoRecipientFault(decode: Decoder, rs: seq<Recipient>, i: nat)
    requires i <= |rs|
    ensures FirstRecipientFault(decode, rs, i) == None
      <==> forall k :: i <= k < |rs| ==> rs[k].npub != "" && Decodes(decode, rs[k].npub) && !ListedBefore(rs, k)
    decreases |rs| - i
  {
    if i < |rs| {
      NoRecipientFault(decode, rs, i + 1);
    }
  }

  lemma {:induction false} NoRuleFault(npubs: set<string>, rules: seq<Rule>, i: nat)
    requires i <= |rules|
    ensures FirstRuleFault(npubs, rules, i) == None <==> forall k :: i <= k < |rules| ==> GoodRule(npubs, rules[k])
    decreases |rules| - i
  {
    if i < |rules| {
      NoRuleFault(npubs, rules, i + 1);
    }
  }

  /** Validation succeeds exactly when every recipient decodes and is listed once, and every rule
      names a listed recipient, some class, a known severity, a delivery and a scope. */
  lemma ValidationAccepts(decode: Decoder, rs: seq<Recipient>, rules: seq<Rule>)
    ensures FirstFault(decode, rs, rules) == None <==>
      && (forall k :: 0 <= k < |rs| ==> rs[k].npub != "" && Decodes(decode, rs[k].npub))
      && (forall j, k :: 0 <= j < k < |rs| ==> rs[j].npub != rs[k].npub)
      && (forall k :: 0 <= k < |rules| ==> GoodRule(Npubs(rs), rules[k]))
  {
    NoRecipientFault(decode, rs, 0);
    NoRuleFault(Npubs(rs), rules, 0);
    if FirstRecipientFault(decode, rs, 0) == None {
      forall j, k | 0 <= j < k < |rs| ensures rs[j].npub != rs[k].npub {
        assert !ListedBefore(rs, k);
      }
    }
  }

  function Decoded(decode: Decoder, r: Recipient): Recipient {
    if decode(r.npub).Some? then r.(pubkey := decode(r.npub).value) else r
  }

  // ----- matching -----

  predicate Qualifies(rule: Rule, class_: string, rank: nat) {
    class_ in rule.classes && rank >= SeverityRank(rule.severityMin)
  }

  // The qualifying rules, in file order.
  function Matching(rules: seq<Rule>, class_: string, rank: nat): seq<Rule>
    decreases |rules|
  {
    if rules == [] then [] else
      Matching(rules[..|rules| - 1], class_, rank)
      + if Qualifies(rules[|rules| - 1], class_, rank) then [rules[|rules| - 1]] else []
  }

  // Some increasing selection of positions of t spells out s.
  ghost predicate SelectedBy(s: seq<Rule>, t: seq<Rule>, at: seq<int>) {
    && |at| == |s|
    && (forall i :: 0 <= i < |at| ==> 0 <= at[i] < |t| && t[at[i]] == s[i])
    && (forall i, j :: 0 <= i < j < |at| ==> at[i] < at[j])
  }

  ghost predicate Subsequence(s: seq<Rule>, t: seq<Rule>) { exists at :: SelectedBy(s, t, at) }

  // The positions of the qualifying rules.
  function Positions(rules: seq<Rule>, class_: string, rank: nat): seq<int>
    decreases |rules|
  {
    if rules == [] then [] else
      Positions(rules[..|rules| - 1], class_, rank)
      + if Qualifies(rules[|rules| - 1], class_, rank) then [|rules| - 1] else []
  }

  lemma {:induction false} PositionsQualify(rules: seq<Rule>, class_: string, rank: nat)
    ensures forall k ::
      k in Positions(rules, class_, rank) <==> 0 <= k < |rules| && Qualifies(rules[k], class_, rank)
    decreases |rules|
  {
    if rules != [] {
      var front := rules[..|rules| - 1];
      PositionsQualify(front, class_, rank);
      forall k | 0 <= k < |front| ensures front[k] == rules[k] {}
    }
  }

  /** Match returns the rules at exactly the qualifying positions, in file order. */
  lemma {:induction false} MatchSelectsQualifying(rules: seq<Rule>, class_: string, rank: nat)
    ensures SelectedBy(Matching(rules, class_, rank), rules, Positions(rules, class_, rank))
    ensures forall k ::
      k in Positions(rules, class_, rank) <==> 0 <= k < |rules| && Qualifies(rules[k], class_, rank)
    decreases |rules|
  {
    PositionsQualify(rules, class_, rank);
    if rules != [] {
      var front, last := rules[..|rules| - 1], rules[|rules| - 1];
      MatchSelectsQualifying(front, class_, rank);
      var m, p := Matching(front, class_, rank), Positions(front, class_, rank);
      SelectedExtends(m, front, p, last);
      assert rules == front + [last];
      if Qualifies(last, class_, rank) {
        assert Positions(rules, class_, rank) == p + [|front|];
      } else {
        assert m + [] == m && p + [] == p;
      }
    }
  }

  lemma SelectedExtends(s: seq<Rule>, t: seq<Rule>, at: seq<int>, x: Rule)
    requires SelectedBy(s, t, at)
    ensures SelectedBy(s, t + [x], at) && SelectedBy(s + [x], t + [x], at + [|t|])
  {}

  lemma SubsequenceExtends(s: seq<Rule>, t: seq<Rule>, x: Rule)
    requires Subsequence(s, t)
    ensures Subsequence(s, t + [x]) && Subsequence(s + [x], t + [x])
  {
    var at :| SelectedBy(s, t, at);
    SelectedExtends(s, t, at, x);
  }

  /** Raising the severity of an event loses no rule: the old matches are a subsequence of the new. */
  lemma {:induction false} MatchIsMonotone(rules: seq<Rule>, class_: string, rank: nat, rank': nat)
    requires rank <= rank'
    ensures Subsequence(Matching(rules, class_, rank), Matching(rules, class_, rank'))
    decreases |rules|
  {
    if rules == [] {
      assert SelectedBy([], [], []);
    } else {
      var front, last := rules[..|rules| - 1], rules[|rules| - 1];
      MatchIsMonotone(front, class_, rank, rank');
      SubsequenceExtends(Matching(front, class_, rank), Matching(front, class_, rank'), last);
      assert Matching(front, class_, rank) + [] == Matching(front, class_, rank);
      assert Matching(front, class_, rank') + [] == Matching(front, class_, rank');
    }
  }

  // The first i recipients are decoded in place and indexed, and nothing else is.
  predicate Indexed(
    decode: Decoder, rs: seq<Recipient>, done: seq<Recipient>, index: map<string, Recipient>, i: nat)
  {
    && |done| == |rs| && i <= |rs|
    && (forall k :: i <= k < |rs| ==> done[k] == rs[k])
    && (forall k :: 0 <= k < i ==> done[k] == Decoded(decode, rs[k]) && Decodes(decode, rs[k].npub))
    && (forall k :: 0 <= k < i ==> rs[k].npub in index && index[rs[k].npub] == done[k])
    && index.Keys == Npubs(rs[..i])
    && (forall j, k :: 0 <= j < k < i ==> rs[j].npub != rs[k].npub)
  }

  lemma ListedInIndex(
    decode: Decoder, rs: seq<Recipient>, done: seq<Recipient>, index: map<string, Recipient>, i: nat)
    requires Indexed(decode, rs, done, index, i) && i < |rs|
    ensures rs[i].npub in index <==> ListedBefore(rs, i)
  {
    if rs[i].npub in index {
      var j :| 0 <= j < i && rs[..i][j].npub == rs[i].npub;
      assert rs[j].npub == rs[i].npub;
    }
  }

  lemma IndexGrows(
    decode: Decoder, rs: seq<Recipient>, done: seq<Recipient>, index: map<string, Recipient>, i: nat)
    requires Indexed(decode, rs, done, index, i) && i < |rs|
    requires Decodes(decode, rs[i].npub)
    ensures var r := Decoded(decode, rs[i]);
      rs[i].npub !in index ==> Indexed(decode, rs, done[i := r], index[r.npub := r], i + 1)
  {
    assert rs[..i + 1] == rs[..i] + [rs[i]];
    assert Npubs(rs[..i + 1]) == Npubs(rs[..i]) + {rs[i].npub};
  }

  lemma IndexIsComplete(
    decode: Decoder, rs: seq<Recipient>, done: seq<Recipient>, index: map<string, Recipient>)
    requires Indexed(decode, rs, done, index, |rs|)
    ensures index.Keys == Npubs(rs)
    ensures forall i :: 0 <= i < |done| ==> done[i] == Decoded(decode, rs[i]) && done[i].npub == rs[i].npub
  {
    assert rs[..|rs|] == rs;
  }

  /** The loaded policy. */
  class Policy {
    var recipients: seq<Recipient>
    var rules: seq<Rule>
    var byNpub: map<string, Recipient>

    constructor (recipients: seq<Recipient>, rules: seq<Rule>)
      ensures this.recipients == recipients && this.rules == rules && byNpub == map[]
    {
      this.recipients, this.rules, byNpub := recipients, rules, map[];
    }

    // The state a successful validation leaves.
    ghost predicate Validated(decode: Decoder)
      reads this
    {
      && byNpub.Keys == Npubs(recipients)
      && (forall i :: 0 <= i < |recipients| ==>
            byNpub[recipients[i].npub] == recipients[i]
            && Decodes(decode, recipients[i].npub)
            && recipients[i].pubkey == decode(recipients[i].npub).value)
      && (forall j, k :: 0 <= j < k < |recipients| ==> recipients[j].npub != recipients[k].npub)
      && (forall k :: 0 <= k < |rules| ==> GoodRule(byNpub.Keys, rules[k]))
    }

    /** Decodes every recipient in place, builds the index, and reports the first fault if any. */
    method Validate(decode: Decoder) returns (fault: Option<Invalid>)
      modifies this
      ensures rules == old(rules)
      ensures fault == FirstFault(decode, old(recipients), rules)
      ensures fault.None? ==> Validated(decode)
      ensures |recipients| == |old(recipients)|
      ensures fault.None? ==>
        forall i :: 0 <= i < |recipients| ==> recipients[i] == Decoded(decode, old(recipients)[i])
    {
      fault := IndexRecipients(decode);
      if fault.Some? {
        return;
      }
      IndexIsComplete(decode, old(recipients), recipients, byNpub);
      SameNpubs(old(recipients), recipients);
      fault := CheckRules();
      NoRuleFault(byNpub.Keys, rules, 0);
    }

    method CheckRules() returns (fault: Option<Invalid>)
      ensures fault == FirstRuleFault(byNpub.Keys, rules, 0)
    {
      for i := 0 to |rules|
        invariant FirstRuleFault(byNpub.Keys, rules, 0) == FirstRuleFault(byNpub.Keys, rules, i)
      {
        fault := RuleFault(byNpub.Keys, rules[i], i);
        if fault.Some? {
          return;
        }
      }
      fault := None;
    }

    method IndexRecipients(decode: Decoder) returns (fault: Option<Invalid>)
      modifies this`recipients, this`byNpub
      ensures fault == FirstRecipientFault(decode, old(recipients), 0)
      ensures |recipients| == |old(recipients)|
      ensures fault.None? ==> Indexed(decode, old(recipients), recipients, byNpub, |recipients|)
    {
      byNpub := map[];
      ghost var rs := recipients;
      for i := 0 to |recipients|
        invariant |recipients| == |rs|
        invariant FirstRecipientFault(decode, rs, 0) == FirstRecipientFault(decode, rs, i)
        invariant Indexed(decode, rs, recipients, byNpub, i)
      {
        var r := recipients[i];
        if r.npub == "" {
          return Some(NpubRequired(i));
        }
        var pk := decode(r.npub);
        if pk.None? || pk.value == "" {
          return Some(InvalidNpub(i));
        }
        ListedInIndex(decode, rs, recipients, byNpub, i);
        IndexGrows(decode, rs, recipients, byNpub, i);
        r := r.(pubkey := pk.value);
        recipients := recipients[i := r];
        if r.npub in byNpub {
          return Some(DuplicateNpub(r.npub));
        }
        byNpub := byNpub[r.npub := r];
      }
      fault := None;
    }

    // The decoded key of a recipient.
    function RecipientPubkey(npub: string): Option<string>
      reads this
    {
      if npub in byNpub then Some(byNpub[npub].pubkey) else None
    }

    /** Every rule whose classes include the class and whose threshold the severity reaches. */
    method Match(class_: string, severity: string) returns (out: seq<Rule>)
      ensures out == Matching(rules, class_, SeverityRank(severity))
    {
      out := [];
      for i := 0 to |rules|
        invariant out == Matching(rules[..i], class_, SeverityRank(severity))
      {
        assert rules[..i + 1][..i] == rules[..i];
        if class_ in rules[i].classes && SeverityRank(severity) >= SeverityRank(rules[i].severityMin) {
          out := out + [rules[i]];
        }
      }
      assert rules[..|rules|] == rules;
    }
  }

  lemma SameNpubs(rs: seq<Recipient>, rs': seq<Recipient>)
    requires |rs| == |rs'| && forall i :: 0 <= i < |rs| ==> rs'[i].npub == rs[i].npub
    ensures Npubs(rs) == Npubs(rs')
  {
    forall n ensures n in Npubs(rs) <==> n in Npubs(rs') {
      if n in Npubs(rs) {
        var i :| 0 <= i < |rs| && rs[i].npub == n;
        assert rs'[i] in rs';
      }
      if n in Npubs(rs') {
        var i :| 0 <= i < |rs'| && rs'[i].npub == n;
        assert rs[i] in rs;
      }
    }
  }

  predicate OnlyListedAt(rs: seq<Recipient>, npub: string, i: nat) {
    i < |rs| && forall j :: 0 <= j < |rs| ==> (rs[j].npub == npub <==> j == i)
  }

  /** In a validated policy the lookup returns the decoded key of the one recipient listed under an
      npub, and fails exactly on the npubs that are not listed. */
  lemma LookupAgreesWithList(p: Policy, decode: Decoder, npub: string)
    requires p.Validated(decode)
    ensures p.RecipientPubkey(npub).Some? <==> npub in Npubs(p.recipients)
    ensures npub in Npubs(p.recipients) ==>
      && Decodes(decode, npub) && p.RecipientPubkey(npub) == decode(npub)
      && (exists i :: 0 <= i < |p.recipients| && OnlyListedAt(p.recipients, npub, i))
  {
    if npub in Npubs(p.recipients) {
      var i :| 0 <= i < |p.recipients| && p.recipients[i].npub == npub;
      assert p.byNpub[npub] == p.recipients[i];
      assert OnlyListedAt(p.recipients, npub, i);
    }
  }
}
