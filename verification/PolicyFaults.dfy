/** Which fault the validation of a notification policy reports. */
module PolicyFaults {
  import opened Options
  import opened NotifyPolicy


  predicate Listed(rs: seq<Recipient>, npub: string) { exists i :: 0 <= i < |rs| && rs[i].npub == npub }

  // The checks of one rule, in order: what must hold, and the fault when it is the first that does not.
  function RuleChecks(rs: seq<Recipient>, rule: Rule, i: nat): seq<(bool, Invalid)> {
    [ (Listed(rs, rule.recipient), UnknownRecipient(i)),
      (rule.classes != [], NoClasses(i)),
      (rule.severityMin in {"info", "warning", "critical"}, BadSeverity(i)),
      (rule.delivery in {"immediate", "summary"}, BadDelivery(i)),
      (rule.scope in {"local-only", "external"}, BadScope(i)) ]
  }

  function RecipientChecks(decode: Decoder, rs: seq<Recipient>, i: nat): seq<(bool, Invalid)>
    requires i < |rs|
  {
    [ (rs[i].npub != "", NpubRequired(i)),
      (decode(rs[i].npub).Some? && decode(rs[i].npub).value != "", InvalidNpub(i)),
      (forall j :: 0 <= j < i ==> rs[j].npub != rs[i].npub, DuplicateNpub(rs[i].npub)) ]
  }

  predicate AllHold(checks: seq<(bool, Invalid)>) { forall k :: 0 <= k < |checks| ==> checks[k].0 }

  // The fault is that of the first check that does not hold.
  predicate FirstBroken(checks: seq<(bool, Invalid)>, fault: Invalid) {
    exists k :: 0 <= k < |checks| && !checks[k].0 && checks[k].1 == fault && forall j :: 0 <= j < k ==> checks[j].0
  }

  lemma ListedIsNpub(rs: seq<Recipient>, npub: string)
    ensures Listed(rs, npub) <==> npub in Npubs(rs)
  {
    if i :| 0 <= i < |rs| && rs[i].npub == npub {
      assert rs[i] in rs;
    }
    if npub in Npubs(rs) {
      var i :| 0 <= i < |rs| && rs[i].npub == npub;
    }
  }

  lemma RuleFaultIs(rs: seq<Recipient>, rule: Rule, i: nat)
    ensures RuleFault(Npubs(rs), rule, i) == None <==> AllHold(RuleChecks(rs, rule, i))
    ensures RuleFault(Npubs(rs), rule, i).Some? ==>
      FirstBroken(RuleChecks(rs, rule, i), RuleFault(Npubs(rs), rule, i).value)
  {
    ListedIsNpub(rs, rule.recipient);
    var checks := RuleChecks(rs, rule, i);
    assert AllHold(checks) <==> checks[0].0 && checks[1].0 && checks[2].0 && checks[3].0 && checks[4].0;
  }

  lemma RecipientFaultIs(decode: Decoder, rs: seq<Recipient>, i: nat)
    requires i < |rs|
    ensures RecipientFault(decode, rs, i) == None <==> AllHold(RecipientChecks(decode, rs, i))
    ensures RecipientFault(decode, rs, i).Some? ==>
      FirstBroken(RecipientChecks(decode, rs, i), RecipientFault(decode, rs, i).value)
  {
    var checks := RecipientChecks(decode, rs, i);
    assert AllHold(checks) <==> checks[0].0 && checks[1].0 && checks[2].0;
  }

  // The fault is the first of the first recipient that has one.
  ghost predicate RecipientAtFault(decode: Decoder, rs: seq<Recipient>, from: nat, fault: Invalid) {
    exists i :: from <= i < |rs| && FirstBroken(RecipientChecks(decode, rs, i), fault)
      && forall j :: from <= j < i ==> AllHold(RecipientChecks(decode, rs, j))
  }

  ghost predicate RuleAtFault(rs: seq<Recipient>, rules: seq<Rule>, from: nat, fault: Invalid) {
    exists i :: from <= i < |rules| && FirstBroken(RuleChecks(rs, rules[i], i), fault)
      && forall j :: from <= j < i ==> AllHold(RuleChecks(rs, rules[j], j))
  }

  lemma {:induction false} FirstRecipientFaultIs(decode: Decoder, rs: seq<Recipient>, i: nat)
    requires i <= |rs|
    ensures FirstRecipientFault(decode, rs, i).Some? ==>
      RecipientAtFault(decode, rs, i, FirstRecipientFault(decode, rs, i).value)
    ensures FirstRecipientFault(decode, rs, i) == None ==>
      forall j :: i <= j < |rs| ==> AllHold(RecipientChecks(decode, rs, j))
    decreases |rs| - i
  {
    if i < |rs| {
      RecipientFaultIs(decode, rs, i);
      FirstRecipientFaultIs(decode, rs, i + 1);
    }
  }

  lemma {:induction false} FirstRuleFaultIs(rs: seq<Recipient>, rules: seq<Rule>, i: nat)
    requires i <= |rules|
    ensures FirstRuleFault(Npubs(rs), rules, i).Some? ==>
      RuleAtFault(rs, rules, i, FirstRuleFault(Npubs(rs), rules, i).value)
    ensures FirstRuleFault(Npubs(rs), rules, i) == None ==>
      forall j :: i <= j < |rules| ==> AllHold(RuleChecks(rs, rules[j], j))
    decreases |rules| - i
  {
    if i < |rules| {
      RuleFaultIs(rs, rules[i], i);
      FirstRuleFaultIs(rs, rules, i + 1);
    }
  }

  /** Validation reports the first check that fails: of the first recipient at fault, or, where every
      recipient is fine, of the first rule at fault. */
  lemma FirstFaultIs(decode: Decoder, rs: seq<Recipient>, rules: seq<Rule>)
    ensures FirstFault(decode, rs, rules).Some? ==>
      var fault := FirstFault(decode, rs, rules).value;
      || RecipientAtFault(decode, rs, 0, fault)
      || ((forall i :: 0 <= i < |rs| ==> AllHold(RecipientChecks(decode, rs, i))) && RuleAtFault(rs, rules, 0, fault))
    ensures FirstFault(decode, rs, rules) == None ==>
      && (forall i :: 0 <= i < |rs| ==> AllHold(RecipientChecks(decode, rs, i)))
      && (forall i :: 0 <= i < |rules| ==> AllHold(RuleChecks(rs, rules[i], i)))
  {
    FirstRecipientFaultIs(decode, rs, 0);
    FirstRuleFaultIs(rs, rules, 0);
  }
}
