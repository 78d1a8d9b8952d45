/** The stable error codes: the rule texts, the substring dispatch over them, and the table they must agree with. */
module EventProtocol {
  import opened Options
  import opened Decimal
  import opened Text
  import opened EventModel

  // The wording of each rejection.
  function Reason(f: Failure): string {
    match f
    case ContentNotJson(what) => what + " content must be valid JSON"
    case AddressableTag(what) => what + " must carry a non-empty " + "'d' tag"
    case TrustPolicyContent(decoder) => "trust policy " + "content must be JSON" + ": " + decoder
    case RequestContent(decoder) => "operation request " + "content must be JSON" + ": " + decoder
    case RequestTool => "operation request content " + "must declare a " + "non-empty 'tool'"
    case NoticeSeverity => "notice severity must " + "be one of " + "info|warning|critical"
    case ChainTag => "operation chain events " + "must reference the request " + "via an 'e' tag"
    case RevocationTag => "delegation revocation " + "requires a " + "64-hex e tag"
    case EnvelopeSchema | EnvelopeRevision | EnvelopeSubject | TrustPolicySchema => EnvelopeReason(f)
    case DelegationTags | DelegationHex | DelegationExpiry | DelegationScope => DelegationReason(f)
    case CapabilityTag | CapabilityHex | CapabilityContent | CapabilityType | CapabilityScopes => CapabilityReason(f)
    case IdentityTag | IdentityHex | IdentityContent => IdentityReason(f)
    case IdentitySigner | IdentityEnabled | IdentityAdmin | IdentityUsername => IdentityReason(f)
  }

  function EnvelopeReason(f: Failure): string
    requires f.EnvelopeSchema? || f.EnvelopeRevision? || f.EnvelopeSubject? || f.TrustPolicySchema?
  {
    match f
    case EnvelopeSchema => "envelope " + "'schema' must be an integer" + " >= 1"
    case EnvelopeRevision => "envelope " + "'revision' must be an integer" + " >= 0"
    case EnvelopeSubject => "envelope " + "'subject' must mirror" + " the 'd' tag"
    case TrustPolicySchema => "trust policy " + "must carry an envelope 'schema'"
  }

  function DelegationReason(f: Failure): string
    requires f.DelegationTags? || f.DelegationHex? || f.DelegationExpiry? || f.DelegationScope?
  {
    match f
    case DelegationTags => "delegation requires " + "p, server, and expiry" + " tags"
    case DelegationHex => "delegation " + "p and server tags" + " must be 64-hex pubkeys"
    case DelegationExpiry => "delegation " + "expiry must be" + (" a positive " + "unix timestamp")
    case DelegationScope => "delegation requires " + "at least one scope" + " tag"
  }

  function CapabilityReason(f: Failure): string
    requires f.CapabilityTag? || f.CapabilityHex? || f.CapabilityContent? || f.CapabilityType? || f.CapabilityScopes?
  {
    match f
    case CapabilityTag => "capability event " + "requires a non-empty " + "'d' tag"
    case CapabilityHex => "capability event 'd' tag " + "must be the subject pubkey" + " (64-hex)"
    case CapabilityContent => "capability " + "content must be JSON"
    case CapabilityType => "capability content must " + "declare a 'type'"
    case CapabilityScopes => "capability " + "'scopes' must be an array" + " of strings"
  }

  function IdentityReason(f: Failure): string
    requires f.IdentityTag? || f.IdentityHex? || f.IdentityContent? || f.IdentitySigner?
      || f.IdentityEnabled? || f.IdentityAdmin? || f.IdentityUsername?
  {
    match f
    case IdentityTag => "identity definition " + "requires a non-empty " + "'d' tag"
    case IdentityHex => "identity definition 'd' tag " + "must be the subject pubkey" + " (64-hex)"
    case IdentityContent => "identity definition " + "content must be JSON"
    case IdentitySigner => "identity definition " + "signer_type must be one of" + (" nip07|nip46|" + "passkey|unknown")
    case IdentityEnabled => "identity definition " + "'enabled' must be a boolean"
    case IdentityAdmin => "identity definition " + "'admin' must be a boolean"
    case IdentityUsername => "identity definition content " + "must declare a " + "non-empty 'username'"
  }

  const SUBJECT_PHRASE := "'subject' must mirror"
  const SCHEMA_PHRASE := "'schema' must be an integer"
  const REVISION_PHRASE := "'revision' must be an integer"
  const MISSING_SCHEMA_PHRASE := "must carry an envelope 'schema'"
  const NOT_JSON_PHRASE := "content must be JSON"

  // The phrases looked for whatever the kind; None when there is none.
  ghost function GeneralCode(t: string): Option<string> {
    if Contains(t, SUBJECT_PHRASE) then Some("subject-mismatch")
    else if Contains(t, SCHEMA_PHRASE) then Some("schema-invalid")
    else if Contains(t, REVISION_PHRASE) then Some("revision-invalid")
    else if Contains(t, MISSING_SCHEMA_PHRASE) then Some("31101:missing-schema")
    else if Contains(t, NOT_JSON_PHRASE) then Some("content-not-json")
    else None
  }

  ghost function CapabilityCode(t: string): string {
    if Contains(t, "must be the subject pubkey") then "d-not-hex64"
    else if Contains(t, "'d' tag") then "missing-d"
    else if Contains(t, "declare a 'type'") then "31100:missing-type"
    else if Contains(t, "'scopes' must be an array") then "31100:scopes-not-array"
    else "schema-invalid"
  }

  ghost function IdentityCode(t: string): string {
    if Contains(t, "must be the subject pubkey") then "d-not-hex64"
    else if Contains(t, "'d' tag") then "missing-d"
    else if Contains(t, "non-empty 'username'") then "31102:missing-username"
    else if Contains(t, "signer_type must be one of") then "31102:bad-signer-type"
    else if Contains(t, "'enabled' must be a boolean") then "31102:enabled-not-bool"
    else if Contains(t, "'admin' must be a boolean") then "31102:admin-not-bool"
    else "schema-invalid"
  }

  ghost function DelegationCode(t: string): string {
    if Contains(t, "p, server, and expiry") || Contains(t, "p and server tags") then "27236:bad-tags"
    else if Contains(t, "expiry must be") then "27236:bad-expiry"
    else if Contains(t, "at least one scope") then "27236:missing-scope"
    else "schema-invalid"
  }

  // The dispatch on the wording of a rejection.
  ghost function CodeFor(kind: GoInt, reason: string): string {
    var t := TrimSpace(reason);
    var general := GeneralCode(t);
    if general.Some? then general.value
    else if kind == CAPABILITY then CapabilityCode(t)
    else if kind == TRUST_POLICY then if Contains(t, "'d' tag") then "missing-d" else "schema-invalid"
    else if kind == IDENTITY_DEFINITION then IdentityCode(t)
    else if kind == DELEGATION then DelegationCode(t)
    else if kind == DELEGATION_REVOCATION then
      if Contains(t, "64-hex e tag") then "27237:missing-e" else "schema-invalid"
    else "schema-invalid"
  }

  /** The code each failed rule stands for. */
  function CodeOf(kind: GoInt, f: Failure): string {
    match f
    case EnvelopeSubject => "subject-mismatch"
    case EnvelopeRevision => "revision-invalid"
    case TrustPolicySchema => "31101:missing-schema"
    case TrustPolicyContent(_) | CapabilityContent | IdentityContent | RequestContent(_) => "content-not-json"
    case CapabilityHex | IdentityHex => "d-not-hex64"
    case CapabilityTag | IdentityTag => "missing-d"
    case AddressableTag(_) => if kind == TRUST_POLICY then "missing-d" else "schema-invalid"
    case CapabilityType => "31100:missing-type"
    case CapabilityScopes => "31100:scopes-not-array"
    case IdentityUsername => "31102:missing-username"
    case IdentitySigner => "31102:bad-signer-type"
    case IdentityEnabled => "31102:enabled-not-bool"
    case IdentityAdmin => "31102:admin-not-bool"
    case DelegationTags | DelegationHex => "27236:bad-tags"
    case DelegationExpiry => "27236:bad-expiry"
    case DelegationScope => "27236:missing-scope"
    case RevocationTag => "27237:missing-e"
    case ContentNotJson(_) | NoticeSeverity | EnvelopeSchema | RequestTool | ChainTag => "schema-invalid"
  }

  /** The outcome of a validation, with the code of a rejection. */
  datatype Verdict = Verdict(accept: bool, code: string)

  ghost function Judge(e: Event, decoder: string): Verdict {
    match Validate(e, decoder)
    case None => Verdict(true, "")
    case Some(f) => Verdict(false, CodeFor(e.kind, Reason(f)))
  }

  // ----- what the phrases find, wording by wording -----

  // Trimming does not matter to any phrase of the dispatch, so the proofs work on the wording itself.
  lemma UntrimmedGeneral(s: string)
    ensures GeneralCode(TrimSpace(s)) == GeneralCode(s)
  {
    TrimKeeps(s, SUBJECT_PHRASE);
    TrimKeeps(s, SCHEMA_PHRASE);
    TrimKeeps(s, REVISION_PHRASE);
    TrimKeeps(s, MISSING_SCHEMA_PHRASE);
    TrimKeeps(s, NOT_JSON_PHRASE);
  }

  lemma UntrimmedCapability(s: string)
    ensures CapabilityCode(TrimSpace(s)) == CapabilityCode(s)
  {
    TrimKeeps(s, "must be the subject pubkey");
    TrimKeeps(s, "'d' tag");
    TrimKeeps(s, "declare a 'type'");
    TrimKeeps(s, "'scopes' must be an array");
  }

  lemma UntrimmedIdentity(s: string)
    ensures IdentityCode(TrimSpace(s)) == IdentityCode(s)
  {
    TrimKeeps(s, "must be the subject pubkey");
    TrimKeeps(s, "'d' tag");
    TrimKeeps(s, "non-empty 'username'");
    TrimKeeps(s, "signer_type must be one of");
    TrimKeeps(s, "'enabled' must be a boolean");
    TrimKeeps(s, "'admin' must be a boolean");
  }

  lemma UntrimmedDelegation(s: string)
    ensures DelegationCode(TrimSpace(s)) == DelegationCode(s)
  {
    TrimKeeps(s, "p, server, and expiry");
    TrimKeeps(s, "p and server tags");
    TrimKeeps(s, "expiry must be");
    TrimKeeps(s, "at least one scope");
  }

  // So under each of these kinds the code is read off the wording as it stands.
  lemma CodeForCapability(s: string)
    ensures CodeFor(CAPABILITY, s) == if GeneralCode(s).Some? then GeneralCode(s).value else CapabilityCode(s)
  {
    UntrimmedGeneral(s);
    UntrimmedCapability(s);
  }

  lemma CodeForIdentity(s: string)
    ensures CodeFor(IDENTITY_DEFINITION, s) == if GeneralCode(s).Some? then GeneralCode(s).value else IdentityCode(s)
  {
    UntrimmedGeneral(s);
    UntrimmedIdentity(s);
  }

  lemma CodeForDelegation(s: string)
    ensures CodeFor(DELEGATION, s) == if GeneralCode(s).Some? then GeneralCode(s).value else DelegationCode(s)
  {
    UntrimmedGeneral(s);
    UntrimmedDelegation(s);
  }

  // A wording with no quote mark and no capital J.
  lemma PlainWording(s: string)
    requires Lacks(s, {'\'', 'J'})
    ensures GeneralCode(s) == None
  {
    Misses(s, SUBJECT_PHRASE, '\'');
    Misses(s, SCHEMA_PHRASE, '\'');
    Misses(s, REVISION_PHRASE, '\'');
    Misses(s, MISSING_SCHEMA_PHRASE, '\'');
    Misses(s, NOT_JSON_PHRASE, 'J');
  }

  // A wording whose quote marks all stand in a short tail.
  lemma LateQuoteWording(a: string, b: string, c: char)
    requires c in {'h', 'y'} && |b| <= 20
    requires Lacks(a, {'\'', c, 'J'}) && Lacks(b, {c, 'J'})
    ensures GeneralCode(a + b) == None
  {
    MissesTail(a, b, SUBJECT_PHRASE);
    MissesTail(a, b, SCHEMA_PHRASE);
    MissesTail(a, b, REVISION_PHRASE);
    Misses(a + b, MISSING_SCHEMA_PHRASE, c);
    Misses(a + b, NOT_JSON_PHRASE, 'J');
  }

  // A wording without c and r, as the two boolean flags of an identity have it.
  lemma FlagUnrecognised(s: string)
    requires Lacks(s, {'c', 'r', 'g'})
    ensures GeneralCode(s) == None
  {
    Misses(s, SUBJECT_PHRASE, 'c');
    Misses(s, SCHEMA_PHRASE, 'c');
    Misses(s, REVISION_PHRASE, 'r');
    Misses(s, MISSING_SCHEMA_PHRASE, 'c');
    Misses(s, NOT_JSON_PHRASE, 'c');
  }

  lemma FlagWording(s: string)
    requires Lacks(s, {'c', 'r', 'g'})
    ensures GeneralCode(s) == None
    ensures !Contains(s, "must be the subject pubkey") && !Contains(s, "'d' tag")
    ensures !Contains(s, "non-empty 'username'") && !Contains(s, "signer_type must be one of")
  {
    FlagUnrecognised(s);
    Misses(s, "must be the subject pubkey", 'c');
    Misses(s, "'d' tag", 'g');
    Misses(s, "non-empty 'username'", 'r');
    Misses(s, "signer_type must be one of", 'r');
  }
}
