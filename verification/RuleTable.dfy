/** The schema rules as a table: for each kind the rules in order, and for each rule what breaks it. */
module RuleTable {
  import opened Options
  import opened Decimal
  import Text
  import Headers
  import opened Json
  import opened EventModel

  predicate Carries(tag: seq<string>, key: string) { |tag| >= 2 && tag[0] == key }

  predicate FirstCarrier(tags: seq<seq<string>>, key: string, i: nat)
    requires i < |tags|
  {
    Carries(tags[i], key) && forall j :: 0 <= j < i ==> !Carries(tags[j], key)
  }

  /** Find returns the first tag that carries the key, and nothing only when none does. */
  lemma {:induction false} FindIsFirst(tags: seq<seq<string>>, key: string)
    ensures Find(tags, key) == None <==> forall i :: 0 <= i < |tags| ==> !Carries(tags[i], key)
    ensures forall i :: 0 <= i < |tags| && FirstCarrier(tags, key, i) ==> Find(tags, key) == Some(tags[i])
    decreases |tags|
  {
    if tags != [] && !Carries(tags[0], key) {
      var rest := tags[1..];
      FindIsFirst(rest, key);
      forall i | 0 <= i < |tags| && FirstCarrier(tags, key, i)
        ensures Find(tags, key) == Some(tags[i])
      {
        assert rest[i - 1] == tags[i];
        forall j | 0 <= j < i - 1 ensures !Carries(rest[j], key) {
          assert rest[j] == tags[j + 1];
        }
      }
    }
  }

  // The value of the first tag with this key.
  function TagValue(e: Event, key: string): Option<string> {
    match Find(e.tags, key) case None => None case Some(tag) => Some(tag[1])
  }

  const HEX_DIGITS: string := "0123456789" + "abcdef" + "ABCDEF"

  predicate Hex64(s: string) { |s| == 64 && forall c :: c in s ==> c in HEX_DIGITS }

  predicate HexTag(e: Event, key: string) { TagValue(e, key).Some? && Hex64(TagValue(e, key).value) }

  predicate FilledTag(e: Event, key: string) { TagValue(e, key).Some? && TagValue(e, key).value != "" }

  // A field of an object, by its exact name: the last member that has it, or null.
  function FieldOf(e: Event, name: string): Json { LastNamed(Headers.MembersOf(e.content), name).GetOr(Null) }

  predicate IsBool(v: Json) { v.Bool? || v.Null? }

  predicate IsTextList(v: Json) {
    v.Null? || (v.Arr? && forall item :: item in v.items ==> Headers.Textual(item))
  }

  // The text of a string field; absent, null and mistyped read as empty.
  function TextOf(e: Event, name: string): string {
    match FieldOf(e, name) case Str(s) => s case _ => ""
  }

  /** What breaks each rule, given that the rules before it hold: by the tags and the members of the
      content, with every value written out. */
  ghost predicate Breaks(e: Event, f: Failure) {
    var c := e.content;
    match f
    case ContentNotJson(_) => c.Malformed?
    case NoticeSeverity =>
      Headers.ReadableNotice(c)
      && exists s :: Headers.Says(c, "severity", s) && s !in {"", "info", "warning", "critical"}
    case DelegationTags => TagValue(e, "p") == None || TagValue(e, "server") == None || TagValue(e, "expiry") == None
    case DelegationHex => !HexTag(e, "p") || !HexTag(e, "server")
    case DelegationExpiry =>
      TagValue(e, "expiry").Some? && ParseInt(TagValue(e, "expiry").value).GetOr(0) <= 0
    case DelegationScope => TagValue(e, "scope") == None
    case RevocationTag => !HexTag(e, "e")
    case AddressableTag(_) => !FilledTag(e, "d")
    case ChainTag => !FilledTag(e, "e")
    case EnvelopeSchema => Headers.HeaderReadable(c) && exists n :: Headers.Declares(c, "schema", n) && n < 1
    case EnvelopeRevision => Headers.HeaderReadable(c) && exists n :: Headers.Declares(c, "revision", n) && n < 0
    case EnvelopeSubject =>
      Headers.HeaderReadable(c)
      && exists s :: Headers.Says(c, "subject", s) && s != "" && TagValue(e, "d") != Some(s)
    case TrustPolicyContent(_) => !c.Empty? && !Headers.HeaderReadable(c)
    case TrustPolicySchema => c.Empty? || !exists n :: Headers.Declares(c, "schema", n)
    case CapabilityTag | IdentityTag => TagValue(e, "d") == None
    case CapabilityHex | IdentityHex => !HexTag(e, "d")
    case CapabilityContent | IdentityContent => !Headers.IsObject(c)
    case CapabilityType => TextOf(e, "type") == ""
    case CapabilityScopes => !IsTextList(FieldOf(e, "scopes"))
    case IdentitySigner =>
      !Headers.Textual(FieldOf(e, "signer_type"))
      || TextOf(e, "signer_type") !in {"", "nip07", "nip46", "passkey", "unknown"}
    case IdentityEnabled => !IsBool(FieldOf(e, "enabled"))
    case IdentityAdmin => !IsBool(FieldOf(e, "admin"))
    case IdentityUsername =>
      Text.TrimSpace(TextOf(e, "username")) == "" && FieldOf(e, "enabled") != Bool(false)
    case RequestContent(_) => !Headers.IsObject(c) || !Headers.TextField(c, "tool")
    case RequestTool => !exists s :: Headers.Says(c, "tool", s) && Text.TrimSpace(s) != ""
  }

  // A rule that is checked twice, or only in part, at one point of the order.
  datatype Check = Rule(f: Failure) | NotJsonAtAll(f: Failure) | MistypedSigner

  ghost predicate Fails(e: Event, c: Check) {
    match c
    case Rule(f) => Breaks(e, f)
    case NotJsonAtAll(_) => !e.content.Doc?
    case MistypedSigner => !Headers.Textual(FieldOf(e, "signer_type"))
  }

  function Reports(c: Check): Failure { if c.MistypedSigner? then IdentitySigner else c.f }

  const ENVELOPE_RULES: seq<Check> := [Rule(EnvelopeSchema), Rule(EnvelopeRevision), Rule(EnvelopeSubject)]

  const CAPABILITY_FIELD_RULES: seq<Check> :=
    [Rule(CapabilityContent), Rule(CapabilityType), Rule(CapabilityScopes)]

  const IDENTITY_FIELD_RULES: seq<Check> := [
    Rule(IdentityContent), MistypedSigner, Rule(IdentityEnabled),
    Rule(IdentityAdmin), Rule(IdentityUsername), Rule(IdentitySigner)]

  /** The rules of each kind, in the order they are checked. */
  function ChecksOf(kind: GoInt, decoder: string): seq<Check> {
    if kind == 31100 then
      [Rule(CapabilityTag), Rule(CapabilityHex), NotJsonAtAll(CapabilityContent)] + ENVELOPE_RULES
      + CAPABILITY_FIELD_RULES
    else if kind == 31102 then
      [Rule(IdentityTag), Rule(IdentityHex), NotJsonAtAll(IdentityContent)] + ENVELOPE_RULES
      + IDENTITY_FIELD_RULES
    else if kind == 31101 then
      [Rule(AddressableTag("trust policy")), Rule(ContentNotJson("trust policy"))] + ENVELOPE_RULES
      + [Rule(TrustPolicyContent(decoder)), Rule(TrustPolicySchema)]
    else if kind == 31300 then
      [Rule(AddressableTag("build attestation")), Rule(ContentNotJson("build attestation"))]
    else if kind == 2200 then [Rule(RequestContent(decoder)), Rule(RequestTool)]
    else if kind in {2201, 2202, 2203, 2204} then [Rule(ChainTag), Rule(ContentNotJson("chain step"))]
    else if kind == 27236 then
      [Rule(DelegationTags), Rule(DelegationHex), Rule(DelegationExpiry), Rule(DelegationScope)]
    else if kind == 27237 then [Rule(RevocationTag)]
    else if kind in {2210, 2211, 2212, 2213} then [Rule(ContentNotJson("notice payload")), Rule(NoticeSeverity)]
    else []
  }

  ghost function FirstFailing(e: Event, checks: seq<Check>): Option<Failure> {
    if checks == [] then None
    else if Fails(e, checks[0]) then Some(Reports(checks[0]))
    else FirstFailing(e, checks[1..])
  }

  lemma {:induction false} FirstFailingConcat(e: Event, s: seq<Check>, t: seq<Check>)
    ensures FirstFailing(e, s + t) == if FirstFailing(e, s).Some? then FirstFailing(e, s) else FirstFailing(e, t)
    decreases |s|
  {
    if s == [] {
      assert s + t == t;
    } else {
      assert (s + t)[1..] == s[1..] + t;
      FirstFailingConcat(e, s[1..], t);
    }
  }

  lemma FirstOf2(e: Event, a: Check, b: Check)
    ensures FirstFailing(e, [a, b]) ==
      if Fails(e, a) then Some(Reports(a)) else if Fails(e, b) then Some(Reports(b)) else None
  {
    assert [a, b][1..] == [b] && [b][1..] == [];
    assert FirstFailing(e, []) == None;
    assert FirstFailing(e, [b]) == if Fails(e, b) then Some(Reports(b)) else None;
  }

  lemma FirstOf3(e: Event, a: Check, b: Check, c: Check)
    ensures FirstFailing(e, [a, b, c]) ==
      if Fails(e, a) then Some(Reports(a)) else FirstFailing(e, [b, c])
  {
    assert [a, b, c][1..] == [b, c];
  }

  lemma HexMeans(s: string)
    ensures ValidHex64(s) <==> Hex64(s)
  {
    if |s| == 64 {
      forall i | 0 <= i < |s| ensures IsHex(s[i]) <==> s[i] in HEX_DIGITS {
        HexDigit(s[i]);
      }
    }
  }

  lemma HexDigit(c: char)
    ensures IsHex(c) <==> c in HEX_DIGITS
  {
    assert c in HEX_DIGITS <==> c in "0123456789" || c in "abcdef" || c in "ABCDEF";
    Decimals(c);
    LowerHex(c);
    UpperHex(c);
  }

  lemma Decimals(c: char)
    ensures c in "0123456789" <==> '0' <= c <= '9'
  {
    var s := "0123456789";
    assert s[0] == '0' && s[1] == '1' && s[2] == '2' && s[3] == '3' && s[4] == '4';
    assert s[5] == '5' && s[6] == '6' && s[7] == '7' && s[8] == '8' && s[9] == '9';
  }

  lemma LowerHex(c: char)
    ensures c in "abcdef" <==> 'a' <= c <= 'f'
  {
    var s := "abcdef";
    assert s[0] == 'a' && s[1] == 'b' && s[2] == 'c' && s[3] == 'd' && s[4] == 'e' && s[5] == 'f';
  }

  lemma UpperHex(c: char)
    ensures c in "ABCDEF" <==> 'A' <= c <= 'F'
  {
    var s := "ABCDEF";
    assert s[0] == 'A' && s[1] == 'B' && s[2] == 'C' && s[3] == 'D' && s[4] == 'E' && s[5] == 'F';
  }

  lemma HexTagMeans(e: Event, key: string)
    ensures HexTag(e, key) <==> Find(e.tags, key).Some? && ValidHex64(Find(e.tags, key).value[1])
  {
    if Find(e.tags, key).Some? {
      HexMeans(Find(e.tags, key).value[1]);
    }
  }

  // The header rules over the decoded header and over the members are the same.
  lemma EnvelopeRulesMean(e: Event)
    ensures var env := DecodeEnvelope(e.content);
      && (Breaks(e, EnvelopeSchema) <==> env.Some? && env.value.schema.Some? && env.value.schema.value < 1)
      && (Breaks(e, EnvelopeRevision) <==> env.Some? && env.value.revision.Some? && env.value.revision.value < 0)
      && (Breaks(e, EnvelopeSubject) <==>
          env.Some? && env.value.subject != "" && TagValue(e, "d") != Some(env.value.subject))
  {
    Headers.HeaderMeans(e.content);
  }

  lemma EnvelopeTable(e: Event)
    ensures FirstFailing(e, ENVELOPE_RULES) == ValidateEnvelope(e)
  {
    EnvelopeRulesMean(e);
    FirstOf3(e, Rule(EnvelopeSchema), Rule(EnvelopeRevision), Rule(EnvelopeSubject));
    FirstOf2(e, Rule(EnvelopeRevision), Rule(EnvelopeSubject));
  }

  // The rules capabilities and identities start with: the subject key, then any JSON, then the envelope.
  lemma KeyedTable(e: Event, tag: Failure, hex: Failure, content: Failure, tail: seq<Check>)
    requires (tag, hex, content) == (CapabilityTag, CapabilityHex, CapabilityContent)
          || (tag, hex, content) == (IdentityTag, IdentityHex, IdentityContent)
    ensures FirstFailing(e, [Rule(tag), Rule(hex), NotJsonAtAll(content)] + ENVELOPE_RULES + tail) ==
      if TagValue(e, "d") == None then Some(tag)
      else if !HexTag(e, "d") then Some(hex)
      else if !e.content.Doc? then Some(content)
      else if ValidateEnvelope(e).Some? then ValidateEnvelope(e)
      else FirstFailing(e, tail)
  {
    var head := [Rule(tag), Rule(hex), NotJsonAtAll(content)];
    FirstFailingConcat(e, head + ENVELOPE_RULES, tail);
    FirstFailingConcat(e, head, ENVELOPE_RULES);
    EnvelopeTable(e);
    FirstOf3(e, head[0], head[1], head[2]);
    FirstOf2(e, head[1], head[2]);
  }

  lemma TrustPolicyRulesMean(e: Event, decoder: string)
    ensures Breaks(e, TrustPolicyContent(decoder)) <==> !e.content.Empty? && DecodeEnvelope(e.content) == None
    ensures DecodeEnvelope(e.content).Some? ==>
      (Breaks(e, TrustPolicySchema) <==> DecodeEnvelope(e.content).value.schema == None)
  {
    Headers.HeaderMeans(e.content);
    if DecodeEnvelope(e.content).Some? && DecodeEnvelope(e.content).value.schema.Some? {
      assert Headers.Declares(e.content, "schema", DecodeEnvelope(e.content).value.schema.value);
    }
  }

  lemma NoticeRuleMeans(e: Event)
    ensures Breaks(e, NoticeSeverity) <==>
      DecodeNotice(e.content).Some? && DecodeNotice(e.content).value.severity !in SEVERITIES + {""}
  {
    Headers.NoticeMeans(e.content);
    if DecodeNotice(e.content).Some? && DecodeNotice(e.content).value.severity != "" {
      assert Headers.Says(e.content, "severity", DecodeNotice(e.content).value.severity);
    }
  }

  lemma FieldMeans(e: Event, name: string)
    requires e.content.Doc?
    ensures FieldOf(e, name) == RawField(e.content.value, name).GetOr(Null)
  {
    Headers.MembersAgree(e.content);
  }

  lemma TextListMeans(v: Json)
    ensures IsTextList(v) <==> IsStringList(v)
  {
    if v.Arr? {
      forall i | 0 <= i < |v.items| ensures v.items[i] in v.items {}
    }
  }

  lemma CapabilityFieldsOrder(e: Event)
    ensures FirstFailing(e, CAPABILITY_FIELD_RULES) ==
      if Breaks(e, CapabilityContent) then Some(CapabilityContent)
      else if Breaks(e, CapabilityType) then Some(CapabilityType)
      else if Breaks(e, CapabilityScopes) then Some(CapabilityScopes)
      else None
  {
    FirstOf3(e, Rule(CapabilityContent), Rule(CapabilityType), Rule(CapabilityScopes));
    FirstOf2(e, Rule(CapabilityType), Rule(CapabilityScopes));
  }

  lemma CapabilityFieldsMeaning(e: Event)
    requires e.content.Doc?
    ensures var role, scopes := RawField(e.content.value, "type"), RawField(e.content.value, "scopes");
      && (Breaks(e, CapabilityType) <==> role.None? || !role.value.Str? || role.value.s == "")
      && (Breaks(e, CapabilityScopes) <==> scopes.Some? && !IsStringList(scopes.value))
  {
    FieldMeans(e, "type");
    FieldMeans(e, "scopes");
    TextListMeans(FieldOf(e, "scopes"));
  }

  lemma CapabilityTable(e: Event, decoder: string)
    requires e.kind == CAPABILITY
    ensures ValidateCapability(e) == FirstFailing(e, ChecksOf(e.kind, decoder))
  {
    KeyedTable(e, CapabilityTag, CapabilityHex, CapabilityContent, CAPABILITY_FIELD_RULES);
    HexTagMeans(e, "d");
    CapabilityFieldsOrder(e);
    if e.content.Doc? {
      CapabilityFieldsMeaning(e);
    }
  }

  lemma IdentityFieldsOrder(e: Event)
    ensures FirstFailing(e, IDENTITY_FIELD_RULES) ==
      if Breaks(e, IdentityContent) then Some(IdentityContent)
      else if Fails(e, MistypedSigner) then Some(IdentitySigner)
      else if Breaks(e, IdentityEnabled) then Some(IdentityEnabled)
      else if Breaks(e, IdentityAdmin) then Some(IdentityAdmin)
      else if Breaks(e, IdentityUsername) then Some(IdentityUsername)
      else if Breaks(e, IdentitySigner) then Some(IdentitySigner)
      else None
  {
    var a, b := [Rule(IdentityContent), MistypedSigner, Rule(IdentityEnabled)],
      [Rule(IdentityAdmin), Rule(IdentityUsername), Rule(IdentitySigner)];
    assert IDENTITY_FIELD_RULES == a + b;
    FirstFailingConcat(e, a, b);
    FirstThree(e, a[0], a[1], a[2]);
    FirstThree(e, b[0], b[1], b[2]);
  }

  lemma FirstThree(e: Event, a: Check, b: Check, c: Check)
    ensures FirstFailing(e, [a, b, c]) ==
      if Fails(e, a) then Some(Reports(a)) else if Fails(e, b) then Some(Reports(b))
      else if Fails(e, c) then Some(Reports(c)) else None
  {
    FirstOf3(e, a, b, c);
    FirstOf2(e, b, c);
  }

  // The same order over the fields of the document itself.
  lemma IdentityFieldsMeaning(e: Event)
    requires !Breaks(e, IdentityContent)
    ensures ValidateIdentityFields(e.content.value) ==
      if Fails(e, MistypedSigner) then Some(IdentitySigner)
      else if Breaks(e, IdentityEnabled) then Some(IdentityEnabled)
      else if Breaks(e, IdentityAdmin) then Some(IdentityAdmin)
      else if Breaks(e, IdentityUsername) then Some(IdentityUsername)
      else if Breaks(e, IdentitySigner) then Some(IdentitySigner)
      else None
  {
    FlagsMeaning(e);
    if IsOptionalBool(RawField(e.content.value, "enabled")) {
      UsernameMeaning(e);
    }
    SignerMeaning(e);
  }

  lemma FlagsMeaning(e: Event)
    requires e.content.Doc?
    ensures Breaks(e, IdentityEnabled) <==> !IsOptionalBool(RawField(e.content.value, "enabled"))
    ensures Breaks(e, IdentityAdmin) <==> !IsOptionalBool(RawField(e.content.value, "admin"))
  {
    FieldMeans(e, "enabled");
    FieldMeans(e, "admin");
  }

  lemma UsernameMeaning(e: Event)
    requires e.content.Doc? && IsOptionalBool(RawField(e.content.value, "enabled"))
    ensures var username, enabled := RawField(e.content.value, "username"), RawField(e.content.value, "enabled");
      Breaks(e, IdentityUsername) <==>
      (enabled.None? || enabled.value.Null? || enabled.value.b)
      && (username.None? || !username.value.Str? || Text.TrimSpace(username.value.s) == "")
  {
    FieldMeans(e, "username");
    FieldMeans(e, "enabled");
    assert Text.TrimSpace("") == "";
  }

  lemma SignerMeaning(e: Event)
    requires e.content.Doc?
    ensures var signer := RawField(e.content.value, "signer_type");
      && (Fails(e, MistypedSigner) <==> signer.Some? && !signer.value.Str? && !signer.value.Null?)
      && (!Fails(e, MistypedSigner) ==>
          (Breaks(e, IdentitySigner) <==> signer.Some? && signer.value.Str? && signer.value.s !in SIGNER_TYPES))
  {
    FieldMeans(e, "signer_type");
  }

  lemma IdentityTable(e: Event, decoder: string)
    requires e.kind == IDENTITY_DEFINITION
    ensures ValidateIdentity(e) == FirstFailing(e, ChecksOf(e.kind, decoder))
  {
    KeyedTable(e, IdentityTag, IdentityHex, IdentityContent, IDENTITY_FIELD_RULES);
    HexTagMeans(e, "d");
    IdentityFieldsOrder(e);
    if !Breaks(e, IdentityContent) {
      IdentityFieldsMeaning(e);
    }
  }

  lemma TrustPolicyTable(e: Event, decoder: string)
    requires e.kind == TRUST_POLICY
    ensures ValidateTrustPolicy(e, decoder) == FirstFailing(e, ChecksOf(e.kind, decoder))
  {
    var head := [Rule(AddressableTag("trust policy")), Rule(ContentNotJson("trust policy"))];
    var tail := [Rule(TrustPolicyContent(decoder)), Rule(TrustPolicySchema)];
    FirstFailingConcat(e, head + ENVELOPE_RULES, tail);
    FirstFailingConcat(e, head, ENVELOPE_RULES);
    EnvelopeTable(e);
    TrustPolicyRulesMean(e, decoder);
    FirstOf2(e, head[0], head[1]);
    FirstOf2(e, tail[0], tail[1]);
  }

  lemma DelegationTable(e: Event, decoder: string)
    requires e.kind == DELEGATION
    ensures ValidateDelegation(e) == FirstFailing(e, ChecksOf(e.kind, decoder))
  {
    var a, b := [Rule(DelegationTags), Rule(DelegationHex)], [Rule(DelegationExpiry), Rule(DelegationScope)];
    assert ChecksOf(e.kind, decoder) == a + b;
    FirstFailingConcat(e, a, b);
    HexTagMeans(e, "p");
    HexTagMeans(e, "server");
    FirstOf2(e, a[0], a[1]);
    FirstOf2(e, b[0], b[1]);
  }

  lemma NoticeTable(e: Event, decoder: string)
    requires e.kind in NOTICE_KINDS
    ensures Validate(e, decoder) == FirstFailing(e, ChecksOf(e.kind, decoder))
  {
    NoticeRuleMeans(e);
    FirstOf2(e, Rule(ContentNotJson("notice payload")), Rule(NoticeSeverity));
  }

  lemma RequestTable(e: Event, decoder: string)
    requires e.kind == OPERATION_REQUEST
    ensures Validate(e, decoder) == FirstFailing(e, ChecksOf(e.kind, decoder))
  {
    RequestMeaning(e, decoder);
    FirstOf2(e, Rule(RequestContent(decoder)), Rule(RequestTool));
  }

  lemma RequestMeaning(e: Event, decoder: string)
    ensures ValidateOperationRequest(e, decoder) ==
      if Breaks(e, RequestContent(decoder)) then Some(RequestContent(decoder))
      else if Breaks(e, RequestTool) then Some(RequestTool)
      else None
  {
    Headers.TextFieldOk(e.content, "tool");
    if e.content.Doc? {
      Headers.MembersAgree(e.content);
    }
    ToolMeans(e);
  }

  lemma ToolMeans(e: Event)
    ensures Breaks(e, RequestTool) <==> Text.TrimSpace(StringField(Headers.MembersOf(e.content), "tool")) == ""
  {
    var tool := StringField(Headers.MembersOf(e.content), "tool");
    assert Text.TrimSpace("") == "";
    if tool != "" {
      Headers.StringFieldSays(e.content, "tool", tool);
    }
    forall s | s != "" ensures StringField(Headers.MembersOf(e.content), "tool") == s <==> Headers.Says(e.content, "tool", s) {
      Headers.StringFieldSays(e.content, "tool", s);
    }
  }

  lemma OtherTables(e: Event, decoder: string)
    requires e.kind !in {CAPABILITY, IDENTITY_DEFINITION, TRUST_POLICY, DELEGATION, OPERATION_REQUEST} + NOTICE_KINDS
    ensures Validate(e, decoder) == FirstFailing(e, ChecksOf(e.kind, decoder))
  {
    if e.kind == BUILD_ATTESTATION {
      FirstOf2(e, Rule(AddressableTag("build attestation")), Rule(ContentNotJson("build attestation")));
    } else if e.kind == DELEGATION_REVOCATION {
      HexTagMeans(e, "e");
      assert [Rule(RevocationTag)][1..] == [];
    } else {
      FirstOf2(e, Rule(ChainTag), Rule(ContentNotJson("chain step")));
    }
  }

  /** For every event the validator reports the first rule of its kind's table that the event breaks, and
      accepts exactly the events that break none. */
  lemma ValidateFollowsTable(e: Event, decoder: string)
    ensures Validate(e, decoder) == FirstFailing(e, ChecksOf(e.kind, decoder))
  {
    if e.kind == CAPABILITY {
      CapabilityTable(e, decoder);
    } else if e.kind == IDENTITY_DEFINITION {
      IdentityTable(e, decoder);
    } else if e.kind == TRUST_POLICY {
      TrustPolicyTable(e, decoder);
    } else if e.kind == DELEGATION {
      DelegationTable(e, decoder);
    } else if e.kind in NOTICE_KINDS {
      NoticeTable(e, decoder);
    } else if e.kind == OPERATION_REQUEST {
      RequestTable(e, decoder);
    } else {
      OtherTables(e, decoder);
    }
  }
}
