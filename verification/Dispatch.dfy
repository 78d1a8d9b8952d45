/** The substring dispatch agrees with the table of codes on every rejection the validator produces. */
module Dispatch {
  import opened Options
  import opened Decimal
  import opened Text
  import opened EventModel
  import opened EventProtocol
  import RuleTable

  // ----- wordings a general phrase recognises, whatever the kind -----

  lemma SubjectWording(s: string)
    requires s == "envelope " + SUBJECT_PHRASE + " the 'd' tag"
    ensures GeneralCode(s) == Some("subject-mismatch")
  {
    Within("envelope ", SUBJECT_PHRASE, " the 'd' tag");
  }

  lemma SchemaWording(s: string)
    requires s == "envelope " + SCHEMA_PHRASE + " >= 1"
    ensures GeneralCode(s) == Some("schema-invalid")
  {
    Within("envelope ", SCHEMA_PHRASE, " >= 1");
    assert Lacks("envelope ", {'j'}) && Lacks(SCHEMA_PHRASE, {'j'}) && Lacks(" >= 1", {'j'});
    Misses(s, SUBJECT_PHRASE, 'j');
  }

  lemma RevisionLetters()
    ensures Lacks("envelope ", {'j', 'h'}) && Lacks(" >= 0", {'j', 'h'})
  {}

  lemma RevisionPhraseLetters()
    ensures Lacks(REVISION_PHRASE, {'j', 'h'})
  {}

  lemma RevisionWording(s: string)
    requires s == "envelope " + REVISION_PHRASE + " >= 0"
    ensures GeneralCode(s) == Some("revision-invalid")
  {
    Within("envelope ", REVISION_PHRASE, " >= 0");
    RevisionLetters();
    RevisionPhraseLetters();
    Misses(s, SUBJECT_PHRASE, 'j');
    Misses(s, SCHEMA_PHRASE, 'h');
  }

  lemma MissingSchemaHeadLetters()
    ensures Lacks("trust policy ", {'j', 'g'})
  {}

  lemma MissingSchemaLetters()
    ensures Lacks(MISSING_SCHEMA_PHRASE, {'j', 'g'})
  {}

  lemma MissingSchemaWording(s: string)
    requires s == "trust policy " + MISSING_SCHEMA_PHRASE
    ensures GeneralCode(s) == Some("31101:missing-schema")
  {
    assert s == "trust policy " + MISSING_SCHEMA_PHRASE + "";
    Within("trust policy ", MISSING_SCHEMA_PHRASE, "");
    MissingSchemaHeadLetters();
    MissingSchemaLetters();
    Misses(s, SUBJECT_PHRASE, 'j');
    Misses(s, SCHEMA_PHRASE, 'g');
    Misses(s, REVISION_PHRASE, 'g');
  }

  // Text that none of the phrases tried before "not JSON" occurs in.
  ghost predicate PhraseFree(s: string) {
    && !Contains(s, SUBJECT_PHRASE) && !Contains(s, SCHEMA_PHRASE)
    && !Contains(s, REVISION_PHRASE) && !Contains(s, MISSING_SCHEMA_PHRASE)
  }

  lemma UnquotedIsPhraseFree(s: string)
    requires '\'' !in s
    ensures PhraseFree(s)
  {
    Misses(s, SUBJECT_PHRASE, '\'');
    Misses(s, SCHEMA_PHRASE, '\'');
    Misses(s, REVISION_PHRASE, '\'');
    Misses(s, MISSING_SCHEMA_PHRASE, '\'');
  }

  lemma NotJsonWording(what: string)
    requires '\'' !in what
    ensures GeneralCode(what + NOT_JSON_PHRASE) == Some("content-not-json")
  {
    var s := what + NOT_JSON_PHRASE;
    assert s == what + NOT_JSON_PHRASE + "";
    Within(what, NOT_JSON_PHRASE, "");
    UnquotedIsPhraseFree(s);
  }

  // A wording that ends in the decoder's own text is read as "not JSON" exactly when that text
  // holds none of the phrases tried before.
  lemma DecoderWording(what: string, decoder: string)
    requires '\'' !in what
    ensures var s := what + NOT_JSON_PHRASE + ": " + decoder;
      GeneralCode(s).Some? && (GeneralCode(s).value == "content-not-json" <==> PhraseFree(decoder))
  {
    var a := what + NOT_JSON_PHRASE;
    Within(what, NOT_JSON_PHRASE, ": ");
    assert Lacks(NOT_JSON_PHRASE, {'\''}) && Lacks(": ", {'\''});
    UnquotedIsPhraseFree(a + ": ");
    PhrasesSplit(a, decoder);
  }

  lemma PhrasesSharp()
    ensures Sharp(SUBJECT_PHRASE) && Sharp(SCHEMA_PHRASE) && Sharp(REVISION_PHRASE)
    ensures Sharp(MISSING_SCHEMA_PHRASE) && Sharp(NOT_JSON_PHRASE)
  {}

  lemma QuotedPhrasesWithoutColon()
    ensures ':' !in SUBJECT_PHRASE && ':' !in SCHEMA_PHRASE
  {}

  lemma MorePhrasesWithoutColon()
    ensures ':' !in REVISION_PHRASE && ':' !in MISSING_SCHEMA_PHRASE && ':' !in NOT_JSON_PHRASE
  {}

  lemma PhrasesSplit(a: string, b: string)
    ensures PhraseFree(a + ": " + b) <==> PhraseFree(a + ": ") && PhraseFree(b)
    ensures Contains(a + ": " + b, NOT_JSON_PHRASE) <==> Contains(a + ": ", NOT_JSON_PHRASE) || Contains(b, NOT_JSON_PHRASE)
  {
    PhrasesSharp();
    QuotedPhrasesWithoutColon();
    MorePhrasesWithoutColon();
    SplitAtColon(a + ": ", b, SUBJECT_PHRASE);
    SplitAtColon(a + ": ", b, SCHEMA_PHRASE);
    SplitAtColon(a + ": ", b, REVISION_PHRASE);
    SplitAtColon(a + ": ", b, MISSING_SCHEMA_PHRASE);
    SplitAtColon(a + ": ", b, NOT_JSON_PHRASE);
  }

  // ----- wordings no general phrase recognises -----

  // The only J of the wording stands after "valid", not after "be".
  lemma ValidIsNotBe(a: string, b: string)
    requires 'J' !in a && b == "lid JSON"
    ensures !Contains(a + b, NOT_JSON_PHRASE)
  {
    CharsOf(a + b, NOT_JSON_PHRASE);
    assert forall i :: 0 <= i < |a| ==> (a + b)[i] == a[i];
    assert forall i :: |a| <= i < |a + b| && (a + b)[i] == 'J' ==> i == |a| + 4;
    assert (a + b)[|a| + 2] == 'd' && NOT_JSON_PHRASE[16] == 'J' && NOT_JSON_PHRASE[14] == 'e';
  }

  lemma InvalidJsonWording(what: string, s: string)
    requires Lacks(what, {'\'', 'J'})
    requires s == what + " content must be valid JSON"
    ensures GeneralCode(s) == None && !Contains(s, "'d' tag")
  {
    var a, b := what + " content must be va", "lid JSON";
    assert Lacks(" content must be va", {'\'', 'J'}) && Lacks(b, {'\''});
    assert s == a + b;
    UnquotedIsPhraseFree(a + b);
    ValidIsNotBe(a, b);
    Misses(a + b, "'d' tag", '\'');
  }

  lemma SeverityLetters()
    ensures Lacks("notice severity must ", {'\'', 'J'}) && Lacks("be one of ", {'\'', 'J'})
    ensures Lacks("info|warning|critical", {'\'', 'J'})
  {}

  lemma SeverityWording(s: string)
    requires s == "notice severity must " + "be one of " + "info|warning|critical"
    ensures GeneralCode(s) == None
  {
    SeverityLetters();
    PlainWording(s);
  }

  lemma ToolLetters()
    ensures Lacks("operation request content ", {'\'', 'h', 'J'}) && Lacks("non-empty 'tool'", {'h', 'J'})
  {}

  lemma ToolWording(s: string)
    requires s == "operation request content " + "must declare a " + "non-empty 'tool'"
    ensures GeneralCode(s) == None
  {
    ToolLetters();
    DeclareLetters();
    LateQuoteWording("operation request content " + "must declare a ", "non-empty 'tool'", 'h');
  }

  lemma ChainLetters()
    ensures Lacks("operation chain events ", {'\'', 'y', 'J'}) && Lacks("must reference the request ", {'\'', 'y', 'J'})
    ensures Lacks("via an 'e' tag", {'y', 'J'})
  {}

  lemma ChainWording(s: string)
    requires s == "operation chain events " + "must reference the request " + "via an 'e' tag"
    ensures GeneralCode(s) == None
  {
    ChainLetters();
    LateQuoteWording("operation chain events " + "must reference the request ", "via an 'e' tag", 'y');
  }

  // A wording that ends by naming the d tag.
  lemma TagWording(a: string)
    requires Lacks(a, {'\'', 'h', 'J'})
    ensures GeneralCode(a + "'d' tag") == None && Contains(a + "'d' tag", "'d' tag")
  {
    assert Lacks("'d' tag", {'h', 'J'});
    LateQuoteWording(a, "'d' tag", 'h');
    assert a + "'d' tag" == a + "'d' tag" + "";
    Within(a, "'d' tag", "");
  }

  lemma SubjectNameLetters(what: string)
    requires what == "trust policy" || what == "build attestation"
    ensures Lacks(what, {'\'', 'h', 'J'})
  {}

  lemma CarryLetters()
    ensures Lacks(" must carry a non-empty ", {'\'', 'h', 'J'})
  {}

  lemma AddressableWording(what: string, s: string)
    requires what == "trust policy" || what == "build attestation"
    requires s == what + " must carry a non-empty " + "'d' tag"
    ensures GeneralCode(s) == None && Contains(s, "'d' tag")
  {
    SubjectNameLetters(what);
    CarryLetters();
    TagWording(what + " must carry a non-empty ");
  }

  // ----- wordings of definitions about a subject key -----

  lemma KeyTagWording(a: string)
    requires Lacks(a, {'\'', 'h', 'J'}) && Lacks(a, {'j'})
    ensures GeneralCode(a + "'d' tag") == None && Contains(a + "'d' tag", "'d' tag")
    ensures !Contains(a + "'d' tag", "must be the subject pubkey")
  {
    TagWording(a);
    assert Lacks("'d' tag", {'j'});
    Misses(a + "'d' tag", "must be the subject pubkey", 'j');
  }

  lemma CapabilityEventLetters()
    ensures Lacks("capability event ", {'\'', 'h', 'J'}) && Lacks("capability event ", {'j'})
  {}

  lemma IdentityLetters()
    ensures Lacks("identity definition ", {'\'', 'h', 'J'}) && Lacks("identity definition ", {'j'})
  {}

  lemma RequiresTagLetters()
    ensures Lacks("requires a non-empty ", {'\'', 'h', 'J'}) && Lacks("requires a non-empty ", {'j'})
  {}

  lemma HexLetters()
    ensures Lacks("must be the subject pubkey", {'r', 'J'})
  {}

  lemma HexTailLetters()
    ensures Lacks(" (64-hex)", {'r', 'J'})
  {}

  lemma NoRWording(s: string)
    requires Lacks(s, {'r', 'J'})
    ensures GeneralCode(s) == None
  {
    Misses(s, SUBJECT_PHRASE, 'r');
    Misses(s, SCHEMA_PHRASE, 'r');
    Misses(s, REVISION_PHRASE, 'r');
    Misses(s, MISSING_SCHEMA_PHRASE, 'r');
    Misses(s, NOT_JSON_PHRASE, 'J');
  }

  lemma HexWording(a: string)
    requires Lacks(a, {'r', 'J'})
    ensures var s := a + "must be the subject pubkey" + " (64-hex)";
      GeneralCode(s) == None && Contains(s, "must be the subject pubkey")
  {
    HexLetters();
    HexTailLetters();
    NoRWording(a + "must be the subject pubkey" + " (64-hex)");
    Within(a, "must be the subject pubkey", " (64-hex)");
  }

  lemma CapabilityTagWording(s: string)
    requires s == "capability event " + "requires a non-empty " + "'d' tag"
    ensures CodeFor(CAPABILITY, s) == "missing-d"
  {
    CodeForCapability(s);
    CapabilityEventLetters();
    RequiresTagLetters();
    KeyTagWording("capability event " + "requires a non-empty ");
  }

  lemma CapabilityHexLetters()
    ensures Lacks("capability event 'd' tag ", {'r', 'J'})
  {}

  lemma CapabilityHexWording(s: string)
    requires s == "capability event 'd' tag " + "must be the subject pubkey" + " (64-hex)"
    ensures CodeFor(CAPABILITY, s) == "d-not-hex64"
  {
    CodeForCapability(s);
    CapabilityHexLetters();
    HexWording("capability event 'd' tag ");
  }

  lemma TypeHeadLetters()
    ensures Lacks("capability content must ", {'\'', 'h', 'J'}) && Lacks("capability content must ", {'g'})
  {}

  lemma TypeLetters()
    ensures Lacks("declare a 'type'", {'h', 'J'}) && Lacks("declare a 'type'", {'g'})
  {}

  lemma CapabilityTypeWording(s: string)
    requires s == "capability content must " + "declare a 'type'"
    ensures CodeFor(CAPABILITY, s) == "31100:missing-type"
  {
    CodeForCapability(s);
    TypeHeadLetters();
    TypeLetters();
    LateQuoteWording("capability content must ", "declare a 'type'", 'h');
    Misses(s, "must be the subject pubkey", 'h');
    Misses(s, "'d' tag", 'g');
    assert s == "capability content must " + "declare a 'type'" + "";
    Within("capability content must ", "declare a 'type'", "");
  }

  lemma ScopesHeadLetters()
    ensures Lacks("capability ", {'j', 'h', 'v'}) && Lacks("capability ", {'J', 'd'})
  {}

  lemma ScopesTailLetters()
    ensures Lacks(" of strings", {'j', 'h', 'v'}) && Lacks(" of strings", {'J', 'd'})
  {}

  lemma ScopesPhraseLetters()
    ensures Lacks("'scopes' must be an array", {'j', 'h', 'v'})
  {}

  lemma ScopesPhraseMoreLetters()
    ensures Lacks("'scopes' must be an array", {'J', 'd'})
  {}

  lemma ScopesUnrecognised(s: string)
    requires Lacks(s, {'j', 'h', 'v'}) && Lacks(s, {'J', 'd'})
    ensures GeneralCode(s) == None
  {
    Misses(s, SUBJECT_PHRASE, 'j');
    Misses(s, SCHEMA_PHRASE, 'h');
    Misses(s, REVISION_PHRASE, 'v');
    Misses(s, MISSING_SCHEMA_PHRASE, 'h');
    Misses(s, NOT_JSON_PHRASE, 'J');
  }

  lemma ScopesMisses(s: string)
    requires Lacks(s, {'j', 'h', 'v'}) && Lacks(s, {'J', 'd'})
    ensures !Contains(s, "must be the subject pubkey") && !Contains(s, "'d' tag") && !Contains(s, "declare a 'type'")
  {
    Misses(s, "must be the subject pubkey", 'h');
    Misses(s, "'d' tag", 'd');
    Misses(s, "declare a 'type'", 'd');
  }

  lemma CapabilityScopesWording(s: string)
    requires s == "capability " + "'scopes' must be an array" + " of strings"
    ensures CodeFor(CAPABILITY, s) == "31100:scopes-not-array"
  {
    CodeForCapability(s);
    ScopesHeadLetters();
    ScopesTailLetters();
    ScopesPhraseLetters();
    ScopesPhraseMoreLetters();
    ScopesUnrecognised(s);
    ScopesMisses(s);
    Within("capability ", "'scopes' must be an array", " of strings");
  }

  lemma IdentityTagWording(s: string)
    requires s == "identity definition " + "requires a non-empty " + "'d' tag"
    ensures CodeFor(IDENTITY_DEFINITION, s) == "missing-d"
  {
    CodeForIdentity(s);
    IdentityLetters();
    RequiresTagLetters();
    KeyTagWording("identity definition " + "requires a non-empty ");
  }

  lemma IdentityHexLetters()
    ensures Lacks("identity definition 'd' tag ", {'r', 'J'})
  {}

  lemma IdentityHexWording(s: string)
    requires s == "identity definition 'd' tag " + "must be the subject pubkey" + " (64-hex)"
    ensures CodeFor(IDENTITY_DEFINITION, s) == "d-not-hex64"
  {
    CodeForIdentity(s);
    IdentityHexLetters();
    HexWording("identity definition 'd' tag ");
  }

  lemma UsernameHeadLetters()
    ensures Lacks("identity definition content ", {'\'', 'h', 'J'}) && Lacks("identity definition content ", {'g'})
  {}

  lemma DeclareLetters()
    ensures Lacks("must declare a ", {'\'', 'h', 'J'}) && Lacks("must declare a ", {'g'})
  {}

  lemma UsernameLetters()
    ensures Lacks("non-empty 'username'", {'h', 'J'}) && Lacks("non-empty 'username'", {'g'})
  {}

  lemma IdentityUsernameWording(s: string)
    requires s == "identity definition content " + "must declare a " + "non-empty 'username'"
    ensures CodeFor(IDENTITY_DEFINITION, s) == "31102:missing-username"
  {
    CodeForIdentity(s);
    var a, b := "identity definition content " + "must declare a ", "non-empty 'username'";
    UsernameHeadLetters();
    DeclareLetters();
    UsernameLetters();
    LateQuoteWording(a, b, 'h');
    Misses(s, "must be the subject pubkey", 'h');
    Misses(s, "'d' tag", 'g');
    assert s == a + b + "";
    Within(a, b, "");
  }

  lemma SignerLetters()
    ensures Lacks("signer_type must be one of", {'j', 'J', '\''})
  {}

  lemma SignerTypeLetters()
    ensures Lacks(" nip07|nip46|", {'j', 'J', '\''}) && Lacks("passkey|unknown", {'j', 'J', '\''})
  {}

  lemma IdentitySignerWording(s: string)
    requires s == "identity definition " + "signer_type must be one of" + (" nip07|nip46|" + "passkey|unknown")
    ensures CodeFor(IDENTITY_DEFINITION, s) == "31102:bad-signer-type"
  {
    CodeForIdentity(s);
    IdentityLetters();
    SignerLetters();
    SignerTypeLetters();
    assert Lacks("identity definition ", {'j', 'J', '\''});
    assert Lacks(s, {'j', 'J', '\''});
    PlainWording(s);
    Misses(s, "must be the subject pubkey", 'j');
    Misses(s, "'d' tag", '\'');
    Misses(s, "non-empty 'username'", '\'');
    Within("identity definition ", "signer_type must be one of", " nip07|nip46|" + "passkey|unknown");
  }

  lemma FlaggedLetters()
    ensures Lacks("identity definition ", {'c', 'r', 'g'})
  {}

  lemma EnabledLetters()
    ensures Lacks("'enabled' must be a boolean", {'c', 'r', 'g'})
  {}

  lemma AdminLetters()
    ensures Lacks("'admin' must be a boolean", {'c', 'r', 'g'})
  {}

  lemma IdentityEnabledWording(s: string)
    requires s == "identity definition " + "'enabled' must be a boolean"
    ensures CodeFor(IDENTITY_DEFINITION, s) == "31102:enabled-not-bool"
  {
    CodeForIdentity(s);
    FlaggedLetters();
    EnabledLetters();
    FlagWording(s);
    assert s == "identity definition " + "'enabled' must be a boolean" + "";
    Within("identity definition ", "'enabled' must be a boolean", "");
  }

  lemma IdentityAdminWording(s: string)
    requires s == "identity definition " + "'admin' must be a boolean"
    ensures CodeFor(IDENTITY_DEFINITION, s) == "31102:admin-not-bool"
  {
    CodeForIdentity(s);
    FlaggedLetters();
    AdminLetters();
    FlagWording(s);
    assert Lacks("identity definition ", {'\''});
    MissesTail("identity definition ", "'admin' must be a boolean", "'enabled' must be a boolean");
    assert s == "identity definition " + "'admin' must be a boolean" + "";
    Within("identity definition ", "'admin' must be a boolean", "");
  }

  // ----- wordings of delegations -----

  lemma DelegationTagsLetters()
    ensures Lacks("delegation requires ", {'\'', 'J'}) && Lacks("p, server, and expiry", {'\'', 'J'})
    ensures Lacks(" tags", {'\'', 'J'})
  {}

  lemma DelegationHexLetters()
    ensures Lacks("delegation ", {'\'', 'J'}) && Lacks("p and server tags", {'\'', 'J'})
    ensures Lacks(" must be 64-hex pubkeys", {'\'', 'J'})
  {}

  lemma DelegationTagsWording(s: string)
    requires s == "delegation requires " + "p, server, and expiry" + " tags"
    ensures CodeFor(DELEGATION, s) == "27236:bad-tags"
  {
    CodeForDelegation(s);
    DelegationTagsLetters();
    PlainWording(s);
    Within("delegation requires ", "p, server, and expiry", " tags");
  }

  lemma DelegationHexWording(s: string)
    requires s == "delegation " + "p and server tags" + " must be 64-hex pubkeys"
    ensures CodeFor(DELEGATION, s) == "27236:bad-tags"
  {
    CodeForDelegation(s);
    DelegationHexLetters();
    PlainWording(s);
    Within("delegation ", "p and server tags", " must be 64-hex pubkeys");
  }

  lemma ExpiryLetters()
    ensures Lacks("delegation ", {'\'', 'J', ','}) && Lacks("expiry must be", {'\'', 'J', ','})
  {}

  lemma ExpiryTailLetters()
    ensures Lacks(" a positive ", {'\'', 'J', ','}) && Lacks("unix timestamp", {'\'', 'J', ','})
  {}

  lemma ServerLetters()
    ensures Lacks("delegation ", {'v'}) && Lacks("expiry must be", {'v'})
    ensures Lacks(" a positive ", {'r'}) && Lacks("unix timestamp", {'r'})
  {}

  // "server" needs a v right after an r.
  lemma NoServerTags(a: string, b: string)
    requires Lacks(a, {'v'}) && Lacks(b, {'r'}) && b != "" && b[0] == ' '
    ensures !Contains(a + b, "p and server tags")
  {
    assert forall j :: 0 <= j < |a| ==> (a + b)[j] == a[j] && a[j] in a;
    assert forall j :: |a| <= j < |a + b| ==> (a + b)[j] == b[j - |a|] && b[j - |a|] in b;
    MissesPair(a + b, "p and server tags", 8);
  }

  lemma DelegationExpiryWording(s: string)
    requires s == "delegation " + "expiry must be" + (" a positive " + "unix timestamp")
    ensures CodeFor(DELEGATION, s) == "27236:bad-expiry"
  {
    CodeForDelegation(s);
    ExpiryLetters();
    ExpiryTailLetters();
    ServerLetters();
    PlainWording(s);
    Misses(s, "p, server, and expiry", ',');
    NoServerTags("delegation " + "expiry must be", " a positive " + "unix timestamp");
    Within("delegation ", "expiry must be", " a positive " + "unix timestamp");
  }

  lemma ScopeHeadLetters()
    ensures Lacks("delegation requires ", {'\'', 'J', ','}) && Lacks("delegation requires ", {'v', 'x'})
  {}

  lemma ScopePhraseLetters()
    ensures Lacks("at least one scope", {'\'', 'J', ','}) && Lacks("at least one scope", {'v', 'x'})
    ensures Lacks(" tag", {'\'', 'J', ','}) && Lacks(" tag", {'v', 'x'})
  {}

  lemma ScopeMisses(s: string)
    requires Lacks(s, {'\'', 'J', ','}) && Lacks(s, {'v', 'x'})
    ensures GeneralCode(s) == None
    ensures !Contains(s, "p, server, and expiry") && !Contains(s, "p and server tags") && !Contains(s, "expiry must be")
  {
    PlainWording(s);
    Misses(s, "p, server, and expiry", ',');
    Misses(s, "p and server tags", 'v');
    Misses(s, "expiry must be", 'x');
  }

  lemma DelegationScopeWording(s: string)
    requires s == "delegation requires " + "at least one scope" + " tag"
    ensures CodeFor(DELEGATION, s) == "27236:missing-scope"
  {
    CodeForDelegation(s);
    ScopeHeadLetters();
    ScopePhraseLetters();
    ScopeMisses(s);
    Within("delegation requires ", "at least one scope", " tag");
  }

  lemma RevocationLetters()
    ensures Lacks("delegation revocation ", {'\'', 'J'})
  {}

  lemma RevocationTailLetters()
    ensures Lacks("requires a ", {'\'', 'J'}) && Lacks("64-hex e tag", {'\'', 'J'})
  {}

  lemma CodeForRevocation(s: string)
    requires GeneralCode(s) == None && Contains(s, "64-hex e tag")
    ensures CodeFor(DELEGATION_REVOCATION, s) == "27237:missing-e"
  {
    UntrimmedGeneral(s);
    TrimKeeps(s, "64-hex e tag");
  }

  lemma RevocationWording(s: string)
    requires s == "delegation revocation " + "requires a " + "64-hex e tag"
    ensures CodeFor(DELEGATION_REVOCATION, s) == "27237:missing-e"
  {
    RevocationLetters();
    RevocationTailLetters();
    PlainWording(s);
    assert s == "delegation revocation " + "requires a " + "64-hex e tag" + "";
    Within("delegation revocation " + "requires a ", "64-hex e tag", "");
    CodeForRevocation(s);
  }

  // ----- the main result -----

  // The rejections each kind of event can meet.
  predicate Produces(kind: GoInt, f: Failure, decoder: string) {
    if f in {EnvelopeSubject, EnvelopeSchema, EnvelopeRevision} then
      kind in {CAPABILITY, TRUST_POLICY, IDENTITY_DEFINITION}
    else if kind == CAPABILITY then
      f in {CapabilityTag, CapabilityHex, CapabilityContent, CapabilityType, CapabilityScopes}
    else if kind == IDENTITY_DEFINITION then
      f in {IdentityTag, IdentityHex, IdentityContent, IdentitySigner, IdentityEnabled, IdentityAdmin, IdentityUsername}
    else if kind == TRUST_POLICY then
      f in {AddressableTag("trust policy"), ContentNotJson("trust policy"), TrustPolicySchema, TrustPolicyContent(decoder)}
    else if kind == BUILD_ATTESTATION then
      f in {AddressableTag("build attestation"), ContentNotJson("build attestation")}
    else if kind == OPERATION_REQUEST then f in {RequestContent(decoder), RequestTool}
    else if kind == DELEGATION then f in {DelegationTags, DelegationHex, DelegationExpiry, DelegationScope}
    else if kind == DELEGATION_REVOCATION then f == RevocationTag
    else f in {ContentNotJson("chain step"), ChainTag, ContentNotJson("notice payload"), NoticeSeverity}
  }

  lemma ValidateProduces(e: Event, decoder: string)
    requires Validate(e, decoder).Some?
    ensures Produces(e.kind, Validate(e, decoder).value, decoder)
  {}

  /** For every rejection the validator can produce, reading the code off the wording gives the code of
      the rule that failed; where the wording ends in the decoder's own text, exactly when that text
      holds none of the phrases tried first. */
  lemma DispatchIsFaithful(e: Event, decoder: string)
    requires Validate(e, decoder).Some?
    ensures var f := Validate(e, decoder).value;
      (CodeFor(e.kind, Reason(f)) == CodeOf(e.kind, f)) <==>
      (f.TrustPolicyContent? || f.RequestContent? ==> PhraseFree(decoder))
  {
    ValidateProduces(e, decoder);
    RulesCoded(e.kind, Validate(e, decoder).value, decoder);
  }

  lemma RulesCoded(kind: GoInt, f: Failure, decoder: string)
    requires Produces(kind, f, decoder)
    ensures (CodeFor(kind, Reason(f)) == CodeOf(kind, f)) <==>
      (f.TrustPolicyContent? || f.RequestContent? ==> PhraseFree(decoder))
  {
    if f.TrustPolicyContent? || f.RequestContent? {
      DecoderRulesCoded(kind, f, decoder);
    } else if f in {EnvelopeSubject, EnvelopeSchema, EnvelopeRevision, TrustPolicySchema} {
      EnvelopeRulesCoded(kind, f);
    } else if kind == CAPABILITY {
      CapabilityRulesCoded(f);
    } else if kind == IDENTITY_DEFINITION {
      IdentityRulesCoded(f);
    } else {
      OtherRulesCoded(kind, f, decoder);
    }
  }

  lemma OtherRulesCoded(kind: GoInt, f: Failure, decoder: string)
    requires Produces(kind, f, decoder) && !f.TrustPolicyContent? && !f.RequestContent?
    requires kind != CAPABILITY && kind != IDENTITY_DEFINITION
    requires f !in {EnvelopeSubject, EnvelopeSchema, EnvelopeRevision, TrustPolicySchema}
    ensures CodeFor(kind, Reason(f)) == CodeOf(kind, f)
  {
    match f
    case DelegationTags | DelegationHex | DelegationExpiry | DelegationScope => DelegationRulesCoded(f);
    case ContentNotJson(what) => WhatRulesCoded(kind, what, f);
    case AddressableTag(what) => WhatRulesCoded(kind, what, f);
    case RevocationTag => RevocationCoded();
    case NoticeSeverity | RequestTool | ChainTag => PlainRulesCoded(kind, f);
  }

  lemma DecoderRulesCoded(kind: GoInt, f: Failure, decoder: string)
    requires f == TrustPolicyContent(decoder) || f == RequestContent(decoder)
    ensures CodeFor(kind, Reason(f)) == CodeOf(kind, f) <==> PhraseFree(decoder)
  {
    DecoderHeadLetters();
    UntrimmedGeneral(Reason(f));
    DecoderWording(if f.RequestContent? then "operation request " else "trust policy ", decoder);
  }

  lemma DecoderHeadLetters()
    ensures '\'' !in "operation request " && '\'' !in "trust policy "
  {}

  lemma EnvelopeRulesCoded(kind: GoInt, f: Failure)
    requires f in {EnvelopeSubject, EnvelopeSchema, EnvelopeRevision, TrustPolicySchema}
    ensures CodeFor(kind, Reason(f)) == CodeOf(kind, f)
  {
    UntrimmedGeneral(Reason(f));
    match f
    case EnvelopeSubject => SubjectWording(EnvelopeReason(f));
    case EnvelopeSchema => SchemaWording(EnvelopeReason(f));
    case EnvelopeRevision => RevisionWording(EnvelopeReason(f));
    case TrustPolicySchema => MissingSchemaWording(EnvelopeReason(f));
  }

  lemma CapabilityTagCoded(f: Failure)
    requires f == CapabilityTag
    ensures CodeFor(CAPABILITY, Reason(f)) == CodeOf(CAPABILITY, f)
  {
    CapabilityTagWording(CapabilityReason(f));
  }

  lemma CapabilityHexCoded(f: Failure)
    requires f == CapabilityHex
    ensures CodeFor(CAPABILITY, Reason(f)) == CodeOf(CAPABILITY, f)
  {
    CapabilityHexWording(CapabilityReason(f));
  }

  lemma CapabilityTypeCoded(f: Failure)
    requires f == CapabilityType
    ensures CodeFor(CAPABILITY, Reason(f)) == CodeOf(CAPABILITY, f)
  {
    CapabilityTypeWording(CapabilityReason(f));
  }

  lemma CapabilityScopesCoded(f: Failure)
    requires f == CapabilityScopes
    ensures CodeFor(CAPABILITY, Reason(f)) == CodeOf(CAPABILITY, f)
  {
    CapabilityScopesWording(CapabilityReason(f));
  }

  lemma CapabilityContentCoded(f: Failure)
    requires f == CapabilityContent
    ensures CodeFor(CAPABILITY, Reason(f)) == CodeOf(CAPABILITY, f)
  {
    assert '\'' !in "capability ";
    CodeForCapability(Reason(f));
    NotJsonWording("capability ");
  }

  lemma CapabilityRulesCoded(f: Failure)
    requires f in {CapabilityTag, CapabilityHex, CapabilityContent, CapabilityType, CapabilityScopes}
    ensures CodeFor(CAPABILITY, Reason(f)) == CodeOf(CAPABILITY, f)
  {
    match f
    case CapabilityTag => CapabilityTagCoded(f);
    case CapabilityHex => CapabilityHexCoded(f);
    case CapabilityContent => CapabilityContentCoded(f);
    case CapabilityType => CapabilityTypeCoded(f);
    case CapabilityScopes => CapabilityScopesCoded(f);
  }

  lemma IdentityTagCoded(f: Failure)
    requires f == IdentityTag
    ensures CodeFor(IDENTITY_DEFINITION, Reason(f)) == CodeOf(IDENTITY_DEFINITION, f)
  {
    IdentityTagWording(IdentityReason(f));
  }

  lemma IdentityHexCoded(f: Failure)
    requires f == IdentityHex
    ensures CodeFor(IDENTITY_DEFINITION, Reason(f)) == CodeOf(IDENTITY_DEFINITION, f)
  {
    IdentityHexWording(IdentityReason(f));
  }

  lemma IdentitySignerCoded(f: Failure)
    requires f == IdentitySigner
    ensures CodeFor(IDENTITY_DEFINITION, Reason(f)) == CodeOf(IDENTITY_DEFINITION, f)
  {
    IdentitySignerWording(IdentityReason(f));
  }

  lemma IdentityEnabledCoded(f: Failure)
    requires f == IdentityEnabled
    ensures CodeFor(IDENTITY_DEFINITION, Reason(f)) == CodeOf(IDENTITY_DEFINITION, f)
  {
    IdentityEnabledWording(IdentityReason(f));
  }

  lemma IdentityAdminCoded(f: Failure)
    requires f == IdentityAdmin
    ensures CodeFor(IDENTITY_DEFINITION, Reason(f)) == CodeOf(IDENTITY_DEFINITION, f)
  {
    IdentityAdminWording(IdentityReason(f));
  }

  lemma IdentityUsernameCoded(f: Failure)
    requires f == IdentityUsername
    ensures CodeFor(IDENTITY_DEFINITION, Reason(f)) == CodeOf(IDENTITY_DEFINITION, f)
  {
    IdentityUsernameWording(IdentityReason(f));
  }

  lemma IdentityContentCoded(f: Failure)
    requires f == IdentityContent
    ensures CodeFor(IDENTITY_DEFINITION, Reason(f)) == CodeOf(IDENTITY_DEFINITION, f)
  {
    assert '\'' !in "identity definition ";
    CodeForIdentity(Reason(f));
    NotJsonWording("identity definition ");
  }

  lemma IdentityRulesCoded(f: Failure)
    requires f in {IdentityTag, IdentityHex, IdentityContent, IdentitySigner, IdentityEnabled, IdentityAdmin, IdentityUsername}
    ensures CodeFor(IDENTITY_DEFINITION, Reason(f)) == CodeOf(IDENTITY_DEFINITION, f)
  {
    match f
    case IdentityTag => IdentityTagCoded(f);
    case IdentityHex => IdentityHexCoded(f);
    case IdentityContent => IdentityContentCoded(f);
    case IdentitySigner => IdentitySignerCoded(f);
    case IdentityEnabled => IdentityEnabledCoded(f);
    case IdentityAdmin => IdentityAdminCoded(f);
    case IdentityUsername => IdentityUsernameCoded(f);
  }

  lemma DelegationTagsCoded(f: Failure)
    requires f == DelegationTags
    ensures CodeFor(DELEGATION, Reason(f)) == CodeOf(DELEGATION, f)
  {
    DelegationTagsWording(DelegationReason(f));
  }

  lemma DelegationHexCoded(f: Failure)
    requires f == DelegationHex
    ensures CodeFor(DELEGATION, Reason(f)) == CodeOf(DELEGATION, f)
  {
    DelegationHexWording(DelegationReason(f));
  }

  lemma DelegationExpiryCoded(f: Failure)
    requires f == DelegationExpiry
    ensures CodeFor(DELEGATION, Reason(f)) == CodeOf(DELEGATION, f)
  {
    DelegationExpiryWording(DelegationReason(f));
  }

  lemma DelegationScopeCoded(f: Failure)
    requires f == DelegationScope
    ensures CodeFor(DELEGATION, Reason(f)) == CodeOf(DELEGATION, f)
  {
    DelegationScopeWording(DelegationReason(f));
  }

  lemma DelegationRulesCoded(f: Failure)
    requires f in {DelegationTags, DelegationHex, DelegationExpiry, DelegationScope}
    ensures CodeFor(DELEGATION, Reason(f)) == CodeOf(DELEGATION, f)
  {
    match f
    case DelegationTags => DelegationTagsCoded(f);
    case DelegationHex => DelegationHexCoded(f);
    case DelegationExpiry => DelegationExpiryCoded(f);
    case DelegationScope => DelegationScopeCoded(f);
  }

  lemma WhatRulesCoded(kind: GoInt, what: string, f: Failure)
    requires what in {"trust policy", "build attestation", "chain step", "notice payload"}
    requires f == ContentNotJson(what) || (f == AddressableTag(what) && what in {"trust policy", "build attestation"})
    requires kind !in {CAPABILITY, IDENTITY_DEFINITION, DELEGATION, DELEGATION_REVOCATION}
    ensures CodeFor(kind, Reason(f)) == CodeOf(kind, f)
  {
    UntrimmedGeneral(Reason(f));
    TrimKeeps(Reason(f), "'d' tag");
    WhatLetters(what);
    if f.ContentNotJson? {
      InvalidJsonWording(what, Reason(f));
    } else {
      AddressableWording(what, Reason(f));
    }
  }

  lemma RevocationCoded()
    ensures CodeFor(DELEGATION_REVOCATION, Reason(RevocationTag)) == CodeOf(DELEGATION_REVOCATION, RevocationTag)
  {
    RevocationWording(Reason(RevocationTag));
  }

  lemma PlainRulesCoded(kind: GoInt, f: Failure)
    requires f in {NoticeSeverity, RequestTool, ChainTag}
    requires kind !in {CAPABILITY, TRUST_POLICY, IDENTITY_DEFINITION, DELEGATION, DELEGATION_REVOCATION}
    ensures CodeFor(kind, Reason(f)) == CodeOf(kind, f)
  {
    UntrimmedGeneral(Reason(f));
    match f
    case NoticeSeverity => SeverityWording(Reason(f));
    case RequestTool => ToolWording(Reason(f));
    case ChainTag => ChainWording(Reason(f));
  }

  lemma WhatLetters(what: string)
    requires what in {"trust policy", "build attestation", "chain step", "notice payload"}
    ensures Lacks(what, {'\'', 'J'})
  {}

  /** An envelope whose subject disagrees with the d tag is never reported as a missing d tag, although
      its wording mentions the tag; and content that is no JSON at all, where that check comes first,
      is reported as schema-invalid because its wording differs. */
  lemma SubjectAndJsonCodes(e: Event, decoder: string)
    requires Validate(e, decoder).Some?
    ensures var f := Validate(e, decoder).value;
      && (f.EnvelopeSubject? ==> Judge(e, decoder) == Verdict(false, "subject-mismatch"))
      && (f.ContentNotJson? ==> Judge(e, decoder) == Verdict(false, "schema-invalid"))
  {
    DispatchIsFaithful(e, decoder);
  }

  /** End to end: an event is accepted exactly when it breaks no rule of its kind's table, and otherwise
      gets the code of the first rule it breaks. */
  lemma JudgeFollowsTable(e: Event, decoder: string)
    requires PhraseFree(decoder)
    ensures Judge(e, decoder) ==
      match RuleTable.FirstFailing(e, RuleTable.ChecksOf(e.kind, decoder))
      case None => Verdict(true, "")
      case Some(f) => Verdict(false, CodeOf(e.kind, f))
  {
    RuleTable.ValidateFollowsTable(e, decoder);
    if Validate(e, decoder).Some? {
      DispatchIsFaithful(e, decoder);
    }
  }
}
