/** The schema rules of the custom event kinds. */
module EventModel {
  import opened Options
  import opened Decimal
  import Text
  import opened Json

  const OPERATION_REQUEST: GoInt := 2200
  const OPERATION_APPROVAL: GoInt := 2201
  const OPERATION_REJECTION: GoInt := 2202
  const EXECUTION_STARTED: GoInt := 2203
  const EXECUTION_RESULT: GoInt := 2204
  const SYSTEM_EVENT: GoInt := 2210
  const SERVICE_EVENT: GoInt := 2211
  const BACKUP_EVENT: GoInt := 2212
  const SECURITY_EVENT: GoInt := 2213
  const DELEGATION: GoInt := 27236
  const DELEGATION_REVOCATION: GoInt := 27237
  const CAPABILITY: GoInt := 31100
  const TRUST_POLICY: GoInt := 31101
  const IDENTITY_DEFINITION: GoInt := 31102
  const BUILD_ATTESTATION: GoInt := 31300

  const NOTICE_KINDS: set<GoInt> := {SYSTEM_EVENT, SERVICE_EVENT, BACKUP_EVENT, SECURITY_EVENT}

  const SEVERITIES: set<string> := {"info", "warning", "critical"}

  const SIGNER_TYPES: set<string> := {"", "nip07", "nip46", "passkey", "unknown"}

  datatype Event = Event(
    id: string,
    pubkey: string,
    createdAt: GoInt,
    kind: GoInt,
    tags: seq<seq<string>>,
    content: Content)

  /** What a rejection is about: one constructor for each rule that can fail. */
  datatype Failure =
    | ContentNotJson(what: string)
    | NoticeSeverity
    | DelegationTags | DelegationHex | DelegationExpiry | DelegationScope
    | RevocationTag
    | AddressableTag(what: string)
    | EnvelopeSchema | EnvelopeRevision | EnvelopeSubject
    | TrustPolicySchema | TrustPolicyContent(decoder: string)
    | CapabilityTag | CapabilityHex | CapabilityContent | CapabilityType | CapabilityScopes
    | IdentityTag | IdentityHex | IdentityContent
    | IdentitySigner | IdentityEnabled | IdentityAdmin | IdentityUsername
    | RequestContent(decoder: string) | RequestTool
    | ChainTag

  // Tags.Find: the first tag with this key that carries a value.
  function Find(tags: seq<seq<string>>, key: string): (r: Option<seq<string>>)
    ensures r.Some? ==> |r.value| >= 2 && r.value[0] == key
  {
    if tags == [] then None
    else if |tags[0]| >= 2 && tags[0][0] == key then Some(tags[0])
    else Find(tags[1..], key)
  }

  predicate IsHex(c: char) { '0' <= c <= '9' || 'a' <= c <= 'f' || 'A' <= c <= 'F' }

  predicate ValidHex64(s: string) { |s| == 64 && forall i :: 0 <= i < |s| ==> IsHex(s[i]) }

  // ----- typed views of a document -----

  datatype Notice = Notice(class_: string, severity: string, summary: string)

  // The notice convention, when the content decodes into it without error.
  function DecodeNotice(c: Content): Option<Notice> {
    if !c.Doc? || !StructShaped(c.value) then None
    else
      var ms := Members(c.value);
      if StringFieldOk(ms, "class") && StringFieldOk(ms, "severity") && StringFieldOk(ms, "summary") then
        Some(Notice(StringField(ms, "class"), StringField(ms, "severity"), StringField(ms, "summary")))
      else None
  }

  datatype Envelope = Envelope(schema: Option<int>, revision: Option<int>, subject: string)

  // The shared document header, when the content decodes into it without error.
  function DecodeEnvelope(c: Content): Option<Envelope> {
    if !c.Doc? || !StructShaped(c.value) then None
    else
      var ms := Members(c.value);
      if IntFieldOk(ms, "schema") && IntFieldOk(ms, "revision") && StringFieldOk(ms, "subject")
        && StringFieldOk(ms, "updated_by") && StringFieldOk(ms, "reason") then
        Some(Envelope(IntField(ms, "schema"), IntField(ms, "revision"), StringField(ms, "subject")))
      else None
  }

  // ----- the validators -----

  function ValidateJsonContent(e: Event, what: string): Option<Failure> {
    if e.content.Malformed? then Some(ContentNotJson(what)) else None
  }

  function ValidateNotice(e: Event): Option<Failure> {
    var json := ValidateJsonContent(e, "notice payload");
    if json.Some? then json
    else
      match DecodeNotice(e.content)
      case None => None  // empty, or not shaped like a notice: the convention is optional
      case Some(body) =>
        if body.severity == "" || body.severity in SEVERITIES then None else Some(NoticeSeverity)
  }

  function ValidateDelegation(e: Event): Option<Failure> {
    var p, server, expiry := Find(e.tags, "p"), Find(e.tags, "server"), Find(e.tags, "expiry");
    if p.None? || server.None? || expiry.None? then Some(DelegationTags)
    else if !ValidHex64(p.value[1]) || !ValidHex64(server.value[1]) then Some(DelegationHex)
    else
      var at := ParseInt(expiry.value[1]);
      if at.None? || at.value <= 0 then Some(DelegationExpiry)
      else if Find(e.tags, "scope").None? then Some(DelegationScope)
      else None
  }

  function ValidateRevocation(e: Event): Option<Failure> {
    var ref := Find(e.tags, "e");
    if ref.None? || !ValidHex64(ref.value[1]) then Some(RevocationTag) else None
  }

  function ValidateAddressable(e: Event, what: string): Option<Failure> {
    var d := Find(e.tags, "d");
    if d.None? || d.value[1] == "" then Some(AddressableTag(what)) else ValidateJsonContent(e, what)
  }

  function ValidateEnvelope(e: Event): Option<Failure> {
    match DecodeEnvelope(e.content)
    case None => None  // empty, or it does not decode: accepted here
    case Some(env) =>
      if env.schema.Some? && env.schema.value < 1 then Some(EnvelopeSchema)
      else if env.revision.Some? && env.revision.value < 0 then Some(EnvelopeRevision)
      else
        var d := Find(e.tags, "d");
        if env.subject != "" && (d.None? || env.subject != d.value[1]) then Some(EnvelopeSubject)
        else None
  }

  function ValidateTrustPolicy(e: Event, decoder: string): Option<Failure> {
    var addressable := ValidateAddressable(e, "trust policy");
    if addressable.Some? then addressable
    else
      var envelope := ValidateEnvelope(e);
      if envelope.Some? then envelope
      else if e.content.Empty? then Some(TrustPolicySchema)
      else
        match DecodeEnvelope(e.content)
        case None => Some(TrustPolicyContent(decoder))
        case Some(env) => if env.schema.None? then Some(TrustPolicySchema) else None
  }

  function ValidateCapability(e: Event): Option<Failure> {
    var d := Find(e.tags, "d");
    if d.None? then Some(CapabilityTag)
    else if !ValidHex64(d.value[1]) then Some(CapabilityHex)
    else if !e.content.Doc? then Some(CapabilityContent)
    else
      var envelope := ValidateEnvelope(e);
      if envelope.Some? then envelope
      else if !StructShaped(e.content.value) then Some(CapabilityContent)
      else
        var role := RawField(e.content.value, "type");
        if role.None? || !role.value.Str? || role.value.s == "" then Some(CapabilityType)
        else
          var scopes := RawField(e.content.value, "scopes");
          if scopes.Some? && !IsStringList(scopes.value) then Some(CapabilityScopes) else None
  }

  // Decodes into a list of strings without error; null elements decode to the empty string.
  predicate IsStringList(v: Json) {
    v.Null? || (v.Arr? && forall i :: 0 <= i < |v.items| ==> v.items[i].Str? || v.items[i].Null?)
  }

  predicate IsOptionalBool(v: Option<Json>) { v.None? || v.value.Bool? || v.value.Null? }

  function ValidateIdentity(e: Event): Option<Failure> {
    var d := Find(e.tags, "d");
    if d.None? then Some(IdentityTag)
    else if !ValidHex64(d.value[1]) then Some(IdentityHex)
    else if !e.content.Doc? then Some(IdentityContent)
    else
      var envelope := ValidateEnvelope(e);
      if envelope.Some? then envelope
      else if !StructShaped(e.content.value) then Some(IdentityContent)
      else ValidateIdentityFields(e.content.value)
  }

  function ValidateIdentityFields(doc: Json): Option<Failure> {
    var username := RawField(doc, "username");  // a mistyped username reads as absent
    var signer := RawField(doc, "signer_type");
    var enabled := RawField(doc, "enabled");
    if signer.Some? && !signer.value.Str? && !signer.value.Null? then Some(IdentitySigner)
    else if !IsOptionalBool(enabled) then Some(IdentityEnabled)
    else if !IsOptionalBool(RawField(doc, "admin")) then Some(IdentityAdmin)
    else if (enabled.None? || enabled.value.Null? || enabled.value.b)
      && (username.None? || !username.value.Str? || Text.TrimSpace(username.value.s) == "") then
      Some(IdentityUsername)
    else if signer.Some? && signer.value.Str?
      && signer.value.s !in SIGNER_TYPES then Some(IdentitySigner)
    else None
  }

  function ValidateOperationRequest(e: Event, decoder: string): Option<Failure> {
    if !e.content.Doc? || !StructShaped(e.content.value)
      || !StringFieldOk(Members(e.content.value), "tool") then Some(RequestContent(decoder))
    else if Text.TrimSpace(StringField(Members(e.content.value), "tool")) == "" then Some(RequestTool)
    else None
  }

  function ValidateChainStep(e: Event): Option<Failure> {
    var ref := Find(e.tags, "e");
    if ref.None? || ref.value[1] == "" then Some(ChainTag) else ValidateJsonContent(e, "chain step")
  }

  /** The schema check: None accepts. The decoder text is the error a failing decode would print. */
  function Validate(e: Event, decoder: string): Option<Failure> {
    var k := e.kind;
    if k == CAPABILITY then ValidateCapability(e)
    else if k == IDENTITY_DEFINITION then ValidateIdentity(e)
    else if k == TRUST_POLICY then ValidateTrustPolicy(e, decoder)
    else if k == BUILD_ATTESTATION then ValidateAddressable(e, "build attestation")
    else if k == OPERATION_REQUEST then ValidateOperationRequest(e, decoder)
    else if k in {OPERATION_APPROVAL, OPERATION_REJECTION, EXECUTION_STARTED, EXECUTION_RESULT} then
      ValidateChainStep(e)
    else if k == DELEGATION then ValidateDelegation(e)
    else if k == DELEGATION_REVOCATION then ValidateRevocation(e)
    else if k in NOTICE_KINDS then ValidateNotice(e)
    else None
  }
}
