/** The notification service: an event in, immediate sends and digest entries out. */
module Service {
  import opened Options
  import opened EventModel
  import opened Classifier
  import opened NotifyPolicy
  import DigestFormat
  import D = Digest

  // A call of the sender. Its outcome is logged by the service and changes nothing else.
  datatype Attempt = Attempt(pubkey: string, body: string, scope: string)

  function FormatImmediate(item: Item): string {
    "[" + item.class_ + "/" + item.severity + "] " + item.summary
  }

  // What one rule asks for: a send now, if the recipient is known.
  function RuleAttempts(p: Policy, rule: Rule, item: Item): seq<Attempt>
    reads p
  {
    if rule.delivery == "immediate" && p.RecipientPubkey(rule.recipient).Some? then
      [Attempt(p.RecipientPubkey(rule.recipient).value, FormatImmediate(item), rule.scope)]
    else []
  }

  // Or an entry in the digest.
  function RuleAdds(rule: Rule, item: Item): seq<D.Step> {
    if rule.delivery == "summary" then [D.Add(rule.recipient, item)] else []
  }

  function Attempts(p: Policy, rules: seq<Rule>, item: Item): seq<Attempt>
    reads p
    decreases |rules|
  {
    if rules == [] then [] else
      Attempts(p, rules[..|rules| - 1], item) + RuleAttempts(p, rules[|rules| - 1], item)
  }

  function Adds(rules: seq<Rule>, item: Item): seq<D.Step>
    decreases |rules|
  {
    if rules == [] then [] else Adds(rules[..|rules| - 1], item) + RuleAdds(rules[|rules| - 1], item)
  }

  // The rules an event sets off, with the item they deliver.
  function Triggered(rules: seq<Rule>, e: Event): seq<Rule> {
    match Classify(e)
    case None => []
    case Some(item) => Matching(rules, item.class_, DigestFormat.Rank(item))
  }

  class Service {
    const policy: Policy
    const digest: D.Digest
    ghost var attempts: seq<Attempt>

    constructor (policy: Policy, digest: D.Digest)
      ensures this.policy == policy && this.digest == digest && attempts == []
    {
      this.policy, this.digest, attempts := policy, digest, [];
    }

    /** Sends or queues the item of an event once for each rule it sets off, in file order. */
    method HandleEvent(e: Event)
      modifies this, digest
      ensures Classify(e).None? ==> attempts == old(attempts) && digest.Now() == old(digest.Now())
      ensures Classify(e).Some? ==>
        var rules := Triggered(policy.rules, e);
        && attempts == old(attempts) + Attempts(policy, rules, Classify(e).value)
        && D.Schedule(old(digest.Now()), Adds(rules, Classify(e).value))
        && digest.Now() == D.Run(old(digest.Now()), Adds(rules, Classify(e).value))
    {
      var classified := Classify(e);
      if classified.None? {
        return;
      }
      var item := classified.value;
      var rules := policy.Match(item.class_, item.severity);
      DeliverAll(rules, item);
    }

    method DeliverAll(rules: seq<Rule>, item: Item)
      modifies this, digest
      ensures attempts == old(attempts) + Attempts(policy, rules, item)
      ensures D.Schedule(old(digest.Now()), Adds(rules, item))
      ensures digest.Now() == D.Run(old(digest.Now()), Adds(rules, item))
    {
      ghost var before, start := attempts, digest.Now();
      for i := 0 to |rules|
        invariant Sent(policy, rules[..i], item, before, attempts)
        invariant Queued(rules[..i], item, start, digest.Now())
      {
        SentExtends(policy, rules, i, item, before, attempts);
        QueuedExtends(rules, i, item, start, digest.Now());
        Deliver(rules[i], item);
      }
      assert rules[..|rules|] == rules;
    }

    // One rule: a send now, an entry in the digest, or nothing.
    method Deliver(rule: Rule, item: Item)
      modifies this, digest
      ensures attempts == old(attempts) + RuleAttempts(policy, rule, item)
      ensures digest.Now() == if rule.delivery == "summary" then
        D.Next(old(digest.Now()), D.Add(rule.recipient, item)) else old(digest.Now())
    {
      if rule.delivery == "immediate" {
        var pk := policy.RecipientPubkey(rule.recipient);
        if pk.Some? {
          attempts := attempts + [Attempt(pk.value, FormatImmediate(item), rule.scope)];
        }
      } else if rule.delivery == "summary" {
        digest.Enqueue(rule.recipient, item);
      }
    }
  }

  // What carrying out these rules has done, to the sends and to the digest.
  ghost predicate Sent(p: Policy, rules: seq<Rule>, item: Item, before: seq<Attempt>, now: seq<Attempt>)
    reads p
  {
    now == before + Attempts(p, rules, item)
  }

  ghost predicate Queued(rules: seq<Rule>, item: Item, before: D.State, now: D.State) {
    D.Schedule(before, Adds(rules, item)) && now == D.Run(before, Adds(rules, item))
  }

  lemma SentExtends(p: Policy, rules: seq<Rule>, i: nat, item: Item, before: seq<Attempt>, now: seq<Attempt>)
    requires i < |rules| && Sent(p, rules[..i], item, before, now)
    ensures Sent(p, rules[..i + 1], item, before, now + RuleAttempts(p, rules[i], item))
  {
    AttemptsExtend(p, rules[..i], rules[i], item);
    assert rules[..i + 1] == rules[..i] + [rules[i]];
    var a, b := Attempts(p, rules[..i], item), RuleAttempts(p, rules[i], item);
    assert before + a + b == before + (a + b);
  }

  lemma QueuedExtends(rules: seq<Rule>, i: nat, item: Item, before: D.State, now: D.State)
    requires i < |rules| && Queued(rules[..i], item, before, now)
    ensures Queued(rules[..i + 1], item, before,
                   if rules[i].delivery == "summary" then D.Next(now, D.Add(rules[i].recipient, item)) else now)
  {
    assert rules[..i + 1] == rules[..i] + [rules[i]];
    AddsExtend(before, rules[..i], rules[i], item);
  }

  lemma AttemptsExtend(p: Policy, rules: seq<Rule>, rule: Rule, item: Item)
    ensures Attempts(p, rules + [rule], item) == Attempts(p, rules, item) + RuleAttempts(p, rule, item)
  {
    assert (rules + [rule])[..|rules|] == rules;
  }

  lemma AddsExtend(s: D.State, rules: seq<Rule>, rule: Rule, item: Item)
    requires D.Schedule(s, Adds(rules, item))
    ensures D.Schedule(s, Adds(rules + [rule], item))
    ensures var before := D.Run(s, Adds(rules, item));
      D.Run(s, Adds(rules + [rule], item)) ==
        if rule.delivery == "summary" then D.Next(before, D.Add(rule.recipient, item)) else before
  {
    assert (rules + [rule])[..|rules|] == rules;
    if rule.delivery == "summary" {
      D.RunSnoc(s, Adds(rules, item), D.Add(rule.recipient, item));
    } else {
      assert Adds(rules + [rule], item) == Adds(rules, item);
    }
  }

  lemma {:induction false} MatchingIsGood(npubs: set<string>, rules: seq<Rule>, class_: string, rank: nat)
    requires forall k :: 0 <= k < |rules| ==> GoodRule(npubs, rules[k])
    ensures forall k :: 0 <= k < |Matching(rules, class_, rank)| ==> GoodRule(npubs, Matching(rules, class_, rank)[k])
    decreases |rules|
  {
    if rules != [] {
      MatchingIsGood(npubs, rules[..|rules| - 1], class_, rank);
    }
  }

  // An immediate rule's send: to the key its recipient decodes to, in the rule's own scope.
  predicate SendsFor(decode: Decoder, rule: Rule, item: Item, a: Attempt) {
    && rule.delivery == "immediate" && decode(rule.recipient) == Some(a.pubkey)
    && a.body == FormatImmediate(item) && a.scope == rule.scope
  }

  // A summary rule's entry: for its own recipient, who is listed.
  predicate QueuesFor(p: Policy, rule: Rule, item: Item, step: D.Step)
    reads p
  {
    rule.delivery == "summary" && step == D.Add(rule.recipient, item) && rule.recipient in Npubs(p.recipients)
  }

  // The rules with this delivery, in file order.
  function Delivering(rules: seq<Rule>, delivery: string): seq<Rule>
    decreases |rules|
  {
    if rules == [] then [] else
      Delivering(rules[..|rules| - 1], delivery)
      + (if rules[|rules| - 1].delivery == delivery then [rules[|rules| - 1]] else [])
  }

  predicate SendsForAll(decode: Decoder, rules: seq<Rule>, item: Item, attempts: seq<Attempt>) {
    |attempts| == |rules| && forall i :: 0 <= i < |rules| ==> SendsFor(decode, rules[i], item, attempts[i])
  }

  predicate QueuesForAll(p: Policy, rules: seq<Rule>, item: Item, steps: seq<D.Step>)
    reads p
  {
    |steps| == |rules| && forall i :: 0 <= i < |rules| ==> QueuesFor(p, rules[i], item, steps[i])
  }

  lemma {:induction false} ImmediatesSend(p: Policy, decode: Decoder, rules: seq<Rule>, item: Item)
    requires p.Validated(decode)
    requires forall k :: 0 <= k < |rules| ==> GoodRule(p.byNpub.Keys, rules[k])
    ensures SendsForAll(decode, Delivering(rules, "immediate"), item, Attempts(p, rules, item))
    decreases |rules|
  {
    if rules != [] {
      ImmediatesSend(p, decode, rules[..|rules| - 1], item);
      LookupAgreesWithList(p, decode, rules[|rules| - 1].recipient);
    }
  }

  lemma {:induction false} SummariesQueue(p: Policy, decode: Decoder, rules: seq<Rule>, item: Item)
    requires p.Validated(decode)
    requires forall k :: 0 <= k < |rules| ==> GoodRule(p.byNpub.Keys, rules[k])
    ensures QueuesForAll(p, Delivering(rules, "summary"), item, Adds(rules, item))
    decreases |rules|
  {
    if rules != [] {
      SummariesQueue(p, decode, rules[..|rules| - 1], item);
      LookupAgreesWithList(p, decode, rules[|rules| - 1].recipient);
    }
  }

  lemma {:induction false} DeliveriesPartition(npubs: set<string>, rules: seq<Rule>)
    requires forall k :: 0 <= k < |rules| ==> GoodRule(npubs, rules[k])
    ensures |Delivering(rules, "immediate")| + |Delivering(rules, "summary")| == |rules|
    decreases |rules|
  {
    if rules != [] {
      DeliveriesPartition(npubs, rules[..|rules| - 1]);
    }
  }

  /** With a validated policy every rule an event sets off delivers exactly once. The sends are, one to
      one and in file order, those of the immediate rules, each to the decoded key of its rule's
      recipient; the digest entries those of the summary rules, each for a listed recipient; and there
      is no third kind of rule. */
  lemma DeliveryIsTotal(p: Policy, decode: Decoder, e: Event)
    requires p.Validated(decode) && Classify(e).Some?
    ensures var rules, item := Triggered(p.rules, e), Classify(e).value;
      && SendsForAll(decode, Delivering(rules, "immediate"), item, Attempts(p, rules, item))
      && QueuesForAll(p, Delivering(rules, "summary"), item, Adds(rules, item))
      && |Attempts(p, rules, item)| + |Adds(rules, item)| == |rules|
  {
    var rules, item := Triggered(p.rules, e), Classify(e).value;
    MatchingIsGood(p.byNpub.Keys, p.rules, item.class_, DigestFormat.Rank(item));
    ImmediatesSend(p, decode, rules, item);
    SummariesQueue(p, decode, rules, item);
    DeliveriesPartition(p.byNpub.Keys, rules);
  }
}
