/** Which submissions the relay refuses, and for which reason, with every rule and kind written out. */
module Admission {
  import opened Options
  import opened Decimal
  import opened PolicyStore
  import opened Boot
  import opened Relay
  import EventModel
  import Json
  import RuleTable

  function Size(c: Json.Content): nat {
    match c
    case Empty => 0
    case Malformed(length) => length
    case Doc(length, _) => length
  }

  const DEFAULT_PROTECTED: set<GoInt> :=
    {2200, 2201, 2202, 2203, 2204, 2210, 2211, 2212, 2213}
    + {31100, 31101, 31102, 31300}
    + {78, 30078, 10002, 30000, 30002, 30267, 10006}

  // The kinds whose submission needs an authenticated connection.
  predicate NeedsAuth(cfg: Config, kind: GoInt) {
    match cfg.requireAuthKinds
    case None => kind in DEFAULT_PROTECTED
    case Some(kinds) => exists i :: 0 <= i < |kinds| && kinds[i] == kind
  }

  predicate KindPasses(b: Buckets, kind: GoInt) {
    Itoa(kind) !in b.kindsDenied && (b.kindsAllowed == map[] || Itoa(kind) in b.kindsAllowed)
  }

  // Each rule with the refusal for a submission that breaks it.
  type Check = (bool, Refusal)

  function ShapeRule(s: Submission): Check { (s.kindShapeOk, KindShape) }

  function TimeRule(s: Submission): Check { (s.event.createdAt <= s.now + 600, FromTheFuture) }

  function SizeRule(cfg: Config, e: EventModel.Event): Check { (Size(e.content) <= cfg.maxContentLength, TooLarge) }

  function KindRule(b: Buckets, kind: GoInt): Check { (KindPasses(b, kind), KindRefused) }

  function BanRule(b: Buckets, e: EventModel.Event): Check { (e.pubkey !in b.banned, AuthorBanned) }

  function AllowRule(cfg: Config, b: Buckets, e: EventModel.Event): Check {
    (cfg.allowlistMode && e.kind !in {2201, 2202} ==> e.pubkey in b.allowed, AuthorNotAllowed)
  }

  function AuthRule(cfg: Config, s: Submission): Check {
    (NeedsAuth(cfg, s.event.kind) ==> s.authed != "", AuthRequired)
  }

  function DefinitionRule(b: Buckets, e: EventModel.Event): Check {
    (e.kind in {31100, 31101, 31102} ==> e.pubkey in b.admins, AuthorNotAdmin)
  }

  function ExecutionRule(cfg: Config, b: Buckets, e: EventModel.Event): Check {
    (e.kind in {2203, 2204, 2205} ==>
       e.pubkey in b.admins || (cfg.serverPubkey != "" && e.pubkey == cfg.serverPubkey), AuthorNotExecutor)
  }

  // By the table of the event's kind.
  ghost function SchemaRule(s: Submission): Check {
    match RuleTable.FirstFailing(s.event, RuleTable.ChecksOf(s.event.kind, s.decoder))
    case None => (true, KindShape)
    case Some(failure) => (false, Schema(failure))
  }

  /** The rules in order. */
  ghost function Rules(cfg: Config, b: Buckets, s: Submission): seq<Check> {
    [ ShapeRule(s), TimeRule(s), SizeRule(cfg, s.event), KindRule(b, s.event.kind), BanRule(b, s.event),
      AllowRule(cfg, b, s.event), AuthRule(cfg, s), DefinitionRule(b, s.event), ExecutionRule(cfg, b, s.event),
      SchemaRule(s) ]
  }

  ghost function FirstBroken(rules: seq<Check>): Option<Refusal> {
    if rules == [] then None else if !rules[0].0 then Some(rules[0].1) else FirstBroken(rules[1..])
  }

  lemma Protected(cfg: Config, kind: GoInt)
    ensures kind in ProtectedKinds(cfg) <==> NeedsAuth(cfg, kind)
  {
    if cfg.requireAuthKinds == None {
      DefaultProtected(kind);
    }
  }

  lemma DefaultProtected(kind: GoInt)
    ensures kind in PROTECTED_KINDS <==> kind in DEFAULT_PROTECTED
  {
    assert PROTECTED_KINDS ==
      [2200, 2201, 2202, 2203, 2204, 2210, 2211, 2212, 2213, 31100, 31101, 31102, 31300]
      + [78, 30078, 10002, 30000, 30002, 30267, 10006];
    OwnKinds(kind);
    StandardKinds(kind);
  }

  lemma OwnKinds(kind: GoInt)
    ensures kind in [2200, 2201, 2202, 2203, 2204, 2210, 2211, 2212, 2213, 31100, 31101, 31102, 31300] <==>
      kind in {2200, 2201, 2202, 2203, 2204, 2210, 2211, 2212, 2213} + {31100, 31101, 31102, 31300}
  {}

  lemma StandardKinds(kind: GoInt)
    ensures kind in [78, 30078, 10002, 30000, 30002, 30267, 10006] <==>
      kind in {78, 30078, 10002, 30000, 30002, 30267, 10006}
  {}

  lemma {:induction false} BrokenConcat(s: seq<Check>, t: seq<Check>)
    ensures FirstBroken(s + t) == if FirstBroken(s).Some? then FirstBroken(s) else FirstBroken(t)
    decreases |s|
  {
    if s == [] {
      assert s + t == t;
    } else {
      assert (s + t)[1..] == s[1..] + t;
      BrokenConcat(s[1..], t);
    }
  }

  lemma TwoRules(a: Check, b: Check)
    ensures FirstBroken([a, b]) == if !a.0 then Some(a.1) else if !b.0 then Some(b.1) else None
  {
    assert [a, b][1..] == [b] && [b][1..] == [];
    assert FirstBroken([b]) == if !b.0 then Some(b.1) else None;
  }

  // A hook refuses for the first of its rules that does not hold.
  predicate Agrees(hook: Option<Refusal>, rules: seq<Check>) {
    match |rules|
    case 1 => hook == if rules[0].0 then None else Some(rules[0].1)
    case 2 =>
      hook == if !rules[0].0 then Some(rules[0].1) else if !rules[1].0 then Some(rules[1].1) else None
    case _ => false
  }

  lemma TimeAndSizeAgree(cfg: Config, s: Submission)
    ensures Agrees(RejectFuture(s), [TimeRule(s)]) && Agrees(RejectOversized(cfg, s.event), [SizeRule(cfg, s.event)])
  {}

  lemma KindAgrees(b: Buckets, e: EventModel.Event)
    ensures Agrees(RejectKindDenied(b, e), [KindRule(b, e.kind)])
  {
    assert |b.kindsAllowed| == 0 <==> b.kindsAllowed == map[];
  }

  lemma WriterAgrees(cfg: Config, b: Buckets, e: EventModel.Event)
    ensures Agrees(RejectWriter(cfg, b, e), [BanRule(b, e), AllowRule(cfg, b, e)])
  {}

  lemma AuthAgrees(cfg: Config, s: Submission)
    ensures Agrees(RequireAuth(cfg, s), [AuthRule(cfg, s)])
  {
    Protected(cfg, s.event.kind);
  }

  lemma AuthorAgrees(cfg: Config, b: Buckets, e: EventModel.Event)
    ensures Agrees(RejectAuthor(cfg, b, e), [DefinitionRule(b, e), ExecutionRule(cfg, b, e)])
  {}

  lemma SchemaAgrees(s: Submission)
    ensures Agrees(RejectSchema(s), [SchemaRule(s)])
  {
    RuleTable.ValidateFollowsTable(s.event, s.decoder);
  }

  lemma HooksInParts(h: seq<Option<Refusal>>)
    requires |h| == 8
    ensures h == [h[0]] + ([h[1]] + ([h[2]] + ([h[3]] + ([h[4]] + ([h[5]] + ([h[6]] + [h[7]]))))))
  {}

  lemma RulesInParts(r: seq<Check>)
    requires |r| == 10
    ensures r == [r[0]] + ([r[1]] + ([r[2]] + ([r[3]] + ([r[4], r[5]] + ([r[6]] + ([r[7], r[8]] + [r[9]]))))))
  {}

  // One agreeing part in front of two lists with the same outcome.
  lemma PartInFront(hook: Option<Refusal>, rules: seq<Check>,
                    hooks: seq<Option<Refusal>>, rest: seq<Check>)
    requires Agrees(hook, rules) && FirstRefusal(hooks) == FirstBroken(rest)
    ensures FirstRefusal([hook] + hooks) == FirstBroken(rules + rest)
  {
    assert ([hook] + hooks)[1..] == hooks;
    BrokenConcat(rules, rest);
    PartBroken(hook, rules);
  }

  lemma PartBroken(hook: Option<Refusal>, rules: seq<Check>)
    requires Agrees(hook, rules)
    ensures FirstBroken(rules) == hook
  {
    if |rules| == 1 {
      assert rules[1..] == [];
    } else {
      assert rules == [rules[0], rules[1]];
      TwoRules(rules[0], rules[1]);
    }
  }

  lemma PartsAgree(h: seq<Option<Refusal>>, r: seq<Check>)
    requires |h| == 8 && |r| == 10
    requires Agrees(h[0], [r[0]]) && Agrees(h[1], [r[1]]) && Agrees(h[2], [r[2]]) && Agrees(h[3], [r[3]])
    requires Agrees(h[4], [r[4], r[5]]) && Agrees(h[5], [r[6]])
    requires Agrees(h[6], [r[7], r[8]]) && Agrees(h[7], [r[9]])
    ensures FirstRefusal(h) == FirstBroken(r)
  {
    HooksInParts(h);
    RulesInParts(r);
    PartInFront(h[7], [r[9]], [], []);
    assert [h[7]] + [] == [h[7]] && [r[9]] + [] == [r[9]];
    PartInFront(h[6], [r[7], r[8]], [h[7]], [r[9]]);
    LastPartsAgree(h, r, [h[6]] + [h[7]], [r[7], r[8]] + [r[9]]);
  }

  lemma LastPartsAgree(h: seq<Option<Refusal>>, r: seq<Check>,
                       hooks: seq<Option<Refusal>>, rest: seq<Check>)
    requires |h| == 8 && |r| == 10
    requires Agrees(h[0], [r[0]]) && Agrees(h[1], [r[1]]) && Agrees(h[2], [r[2]]) && Agrees(h[3], [r[3]])
    requires Agrees(h[4], [r[4], r[5]]) && Agrees(h[5], [r[6]])
    requires FirstRefusal(hooks) == FirstBroken(rest)
    ensures FirstRefusal([h[0]] + ([h[1]] + ([h[2]] + ([h[3]] + ([h[4]] + ([h[5]] + hooks))))))
      == FirstBroken([r[0]] + ([r[1]] + ([r[2]] + ([r[3]] + ([r[4], r[5]] + ([r[6]] + rest))))))
  {
    PartInFront(h[5], [r[6]], hooks, rest);
    var hooks5, rest5 := [h[5]] + hooks, [r[6]] + rest;
    PartInFront(h[4], [r[4], r[5]], hooks5, rest5);
    var hooks4, rest4 := [h[4]] + hooks5, [r[4], r[5]] + rest5;
    PartInFront(h[3], [r[3]], hooks4, rest4);
    PartInFront(h[2], [r[2]], [h[3]] + hooks4, [r[3]] + rest4);
    PartInFront(h[1], [r[1]], [h[2]] + ([h[3]] + hooks4), [r[2]] + ([r[3]] + rest4));
    PartInFront(h[0], [r[0]], [h[1]] + ([h[2]] + ([h[3]] + hooks4)), [r[1]] + ([r[2]] + ([r[3]] + rest4)));
  }

  /** The relay's answer to every submission: admitted if all the rules hold, and otherwise refused for the
      first that does not. */
  lemma JudgeIsFirstRule(cfg: Config, b: Buckets, s: Submission)
    ensures Judge(cfg, b, s) == FirstBroken(Rules(cfg, b, s))
  {
    var e := s.event;
    TimeAndSizeAgree(cfg, s);
    KindAgrees(b, e);
    WriterAgrees(cfg, b, e);
    AuthAgrees(cfg, s);
    AuthorAgrees(cfg, b, e);
    SchemaAgrees(s);
    EightParts(if s.kindShapeOk then None else Some(KindShape), RejectFuture(s), RejectOversized(cfg, e),
               RejectKindDenied(b, e), RejectWriter(cfg, b, e), RequireAuth(cfg, s), RejectAuthor(cfg, b, e),
               RejectSchema(s),
               ShapeRule(s), TimeRule(s), SizeRule(cfg, e), KindRule(b, e.kind), BanRule(b, e),
               AllowRule(cfg, b, e), AuthRule(cfg, s), DefinitionRule(b, e), ExecutionRule(cfg, b, e), SchemaRule(s));
  }

  lemma EightParts(
      h0: Option<Refusal>, h1: Option<Refusal>, h2: Option<Refusal>, h3: Option<Refusal>,
      h4: Option<Refusal>, h5: Option<Refusal>, h6: Option<Refusal>, h7: Option<Refusal>,
      r0: Check, r1: Check, r2: Check, r3: Check, r4: Check, r5: Check, r6: Check, r7: Check, r8: Check, r9: Check)
    requires Agrees(h0, [r0]) && Agrees(h1, [r1]) && Agrees(h2, [r2]) && Agrees(h3, [r3])
    requires Agrees(h4, [r4, r5]) && Agrees(h5, [r6]) && Agrees(h6, [r7, r8]) && Agrees(h7, [r9])
    ensures FirstRefusal([h0, h1, h2, h3, h4, h5, h6, h7]) == FirstBroken([r0, r1, r2, r3, r4, r5, r6, r7, r8, r9])
  {
    PartsAgree([h0, h1, h2, h3, h4, h5, h6, h7], [r0, r1, r2, r3, r4, r5, r6, r7, r8, r9]);
  }

  lemma {:induction false} NoneBroken(rules: seq<Check>)
    ensures FirstBroken(rules) == None <==> forall i :: 0 <= i < |rules| ==> rules[i].0
    decreases |rules|
  {
    if rules != [] {
      NoneBroken(rules[1..]);
      assert rules == [rules[0]] + rules[1..];
    }
  }

  /** So what is admitted keeps every rule, and what keeps every rule is admitted. */
  lemma AdmittedKeepsRules(cfg: Config, b: Buckets, s: Submission)
    ensures Judge(cfg, b, s) == None <==> forall k :: 0 <= k < 10 ==> Rules(cfg, b, s)[k].0
  {
    JudgeIsFirstRule(cfg, b, s);
    NoneBroken(Rules(cfg, b, s));
  }

  /** A submission over a connection that never authenticated is refused for the default kinds when none
      are configured, and for exactly the configured kinds otherwise. */
  lemma UnauthenticatedIsRefused(cfg: Config, b: Buckets, s: Submission)
    requires s.authed == ""
    ensures cfg.requireAuthKinds == None && s.event.kind in DEFAULT_PROTECTED ==> Judge(cfg, b, s) != None
    ensures cfg.requireAuthKinds.Some? && s.event.kind in cfg.requireAuthKinds.value ==> Judge(cfg, b, s) != None
    ensures !NeedsAuth(cfg, s.event.kind) ==> forall key :: Judge(cfg, b, s.(authed := key)) == Judge(cfg, b, s)
  {
    if NeedsAuth(cfg, s.event.kind) {
      UnauthenticatedBreaks(cfg, b, s);
    } else {
      forall key ensures Judge(cfg, b, s.(authed := key)) == Judge(cfg, b, s) {
        AuthMakesNoDifference(cfg, b, s, key);
      }
    }
  }

  lemma UnauthenticatedBreaks(cfg: Config, b: Buckets, s: Submission)
    requires s.authed == "" && NeedsAuth(cfg, s.event.kind)
    ensures Judge(cfg, b, s) != None
  {
    AdmittedKeepsRules(cfg, b, s);
    assert !Rules(cfg, b, s)[6].0;
  }

  lemma AuthMakesNoDifference(cfg: Config, b: Buckets, s: Submission, key: string)
    requires !NeedsAuth(cfg, s.event.kind)
    ensures Judge(cfg, b, s.(authed := key)) == Judge(cfg, b, s)
  {
    JudgeIsFirstRule(cfg, b, s);
    JudgeIsFirstRule(cfg, b, s.(authed := key));
    assert Rules(cfg, b, s.(authed := key)) == Rules(cfg, b, s);
  }
}
