/** Severities by name: which rules an event reaches, and how a digest is ordered. */
module Severities {
  import opened Classifier
  import opened NotifyPolicy
  import opened DigestFormat

  /** The three severities rank critical above warning above info, and any other text ranks as info. */
  lemma RankOrder()
    ensures SeverityRank("critical") > SeverityRank("warning") > SeverityRank("info")
    ensures forall s :: s !in {"critical", "warning"} ==> SeverityRank(s) == SeverityRank("info")
  {}

  // Whether an event of this severity reaches a threshold, by their names.
  predicate Reaches(severity: string, threshold: string) {
    match threshold
    case "critical" => severity == "critical"
    case "warning" => severity in {"warning", "critical"}
    case _ => true
  }

  // The rule lists the class, and the severity reaches its threshold.
  predicate Matches(rule: Rule, class_: string, severity: string) {
    (exists k :: 0 <= k < |rule.classes| && rule.classes[k] == class_) && Reaches(severity, rule.severityMin)
  }

  lemma QualifiesByName(rule: Rule, class_: string, severity: string)
    ensures Qualifies(rule, class_, SeverityRank(severity)) <==> Matches(rule, class_, severity)
  {
    RankOrder();
  }

  /** Matching selects, in file order, exactly the rules that list the event's class and whose threshold is
      info, or is warning and the event's severity warning or critical, or is critical as the severity is. */
  lemma MatchByName(rules: seq<Rule>, class_: string, severity: string)
    ensures var rank := SeverityRank(severity);
      && SelectedBy(Matching(rules, class_, rank), rules, Positions(rules, class_, rank))
      && forall k :: k in Positions(rules, class_, rank) <==>
           0 <= k < |rules| && Matches(rules[k], class_, severity)
  {
    MatchSelectsQualifying(rules, class_, SeverityRank(severity));
    forall k | 0 <= k < |rules|
      ensures Qualifies(rules[k], class_, SeverityRank(severity)) <==> Matches(rules[k], class_, severity)
    {
      QualifiesByName(rules[k], class_, severity);
    }
  }

  // One severity is at least as severe as another.
  predicate AtLeast(a: string, b: string) {
    a == "critical" || (a == "warning" && b != "critical") || b !in {"warning", "critical"}
  }

  lemma AtLeastRanks(a: string, b: string)
    ensures AtLeast(a, b) <==> SeverityRank(a) >= SeverityRank(b)
  {
    RankOrder();
  }

  /** Raising an event from info to warning or critical, or from warning to critical, loses no rule. */
  lemma RaisingLosesNobody(rules: seq<Rule>, class_: string, low: string, high: string)
    requires AtLeast(high, low)
    ensures Subsequence(Matching(rules, class_, SeverityRank(low)), Matching(rules, class_, SeverityRank(high)))
  {
    AtLeastRanks(high, low);
    MatchIsMonotone(rules, class_, SeverityRank(low), SeverityRank(high));
  }

  /** In a digest no item stands after a less severe one: criticals come first, then warnings, then all
      the others. */
  lemma SortedByName(s: seq<Item>, i: nat, j: nat)
    requires i < j < |BySeverity(s)|
    ensures AtLeast(BySeverity(s)[i].severity, BySeverity(s)[j].severity)
  {
    SortIsOrderedPermutation(s);
    AtLeastRanks(BySeverity(s)[i].severity, BySeverity(s)[j].severity);
    assert Rank(BySeverity(s)[i]) >= Rank(BySeverity(s)[j]);
  }
}
