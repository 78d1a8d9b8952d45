/** What an accepted definition guarantees about its envelope, and an accepted delegation about its expiry. */
module Envelopes {
  import opened Options
  import opened Decimal
  import Text
  import Headers
  import opened Json
  import opened EventModel

  // The header rules, over the members of the content.
  ghost predicate HeaderHolds(e: Event) {
    && (forall n :: Headers.Declares(e.content, "schema", n) ==> n >= 1)
    && (forall n :: Headers.Declares(e.content, "revision", n) ==> n >= 0)
    && (forall s :: Headers.Says(e.content, "subject", s) && s != "" ==>
          Find(e.tags, "d").Some? && Find(e.tags, "d").value[1] == s)
  }

  lemma EnvelopeAccepted(e: Event)
    ensures ValidateEnvelope(e) == None <==> (Headers.HeaderReadable(e.content) ==> HeaderHolds(e))
  {
    Headers.HeaderMeans(e.content);
    if Headers.HeaderReadable(e.content) {
      var env := DecodeEnvelope(e.content).value;
      if env.subject != "" {
        assert Headers.Says(e.content, "subject", env.subject);
      }
      if env.schema.Some? {
        assert Headers.Declares(e.content, "schema", env.schema.value);
      }
      if env.revision.Some? {
        assert Headers.Declares(e.content, "revision", env.revision.value);
      }
    }
  }

  /** A trust policy is accepted exactly when it has a d tag and a readable header that declares a schema
      and obeys the header rules: no legacy form and no mistyped header passes. */
  lemma TrustPolicyAcceptance(e: Event, decoder: string)
    requires e.kind == TRUST_POLICY
    ensures Validate(e, decoder) == None <==>
      && Find(e.tags, "d").Some? && Find(e.tags, "d").value[1] != ""
      && Headers.HeaderReadable(e.content)
      && (exists n :: Headers.Declares(e.content, "schema", n))
      && HeaderHolds(e)
  {
    EnvelopeAccepted(e);
    SchemaDeclared(e.content);
  }

  lemma SchemaDeclared(c: Content)
    ensures DecodeEnvelope(c).Some? <==> Headers.HeaderReadable(c)
    ensures Headers.HeaderReadable(c) ==>
      (DecodeEnvelope(c).value.schema.Some? <==> exists n :: Headers.Declares(c, "schema", n))
  {
    Headers.HeaderMeans(c);
    if Headers.HeaderReadable(c) && DecodeEnvelope(c).value.schema.Some? {
      assert Headers.Declares(c, "schema", DecodeEnvelope(c).value.schema.value);
    }
  }

  /** An accepted capability or identity obeys the header rules whenever its header is readable. */
  lemma DefinitionEnvelope(e: Event, decoder: string)
    requires e.kind in {CAPABILITY, IDENTITY_DEFINITION}
    requires Validate(e, decoder) == None
    ensures Headers.HeaderReadable(e.content) ==> HeaderHolds(e)
  {
    EnvelopeAccepted(e);
  }

  /** A capability that is well formed apart from its envelope is accepted exactly when its envelope
      either is unreadable or holds: one mistyped header field switches the header rules off. */
  lemma CapabilityAcceptance(e: Event, decoder: string)
    requires e.kind == CAPABILITY
    ensures Validate(e, decoder) == None <==>
      && Find(e.tags, "d").Some? && ValidHex64(Find(e.tags, "d").value[1])
      && e.content.Doc? && e.content.value.Obj?
      && (exists s: string :: s != "" && RawField(e.content.value, "type") == Some(Str(s)))
      && (RawField(e.content.value, "scopes").Some? ==> IsStringList(RawField(e.content.value, "scopes").value))
      && (Headers.HeaderReadable(e.content) ==> HeaderHolds(e))
  {
    EnvelopeAccepted(e);
    if e.content.Doc? {
      var role := RawField(e.content.value, "type");
      if role.Some? && role.value.Str? && role.value.s != "" {
        assert role == Some(Str(role.value.s));
      }
    }
  }

  // What an identity's own fields must be; null reads as absent, and so does a mistyped username.
  predicate IdentityFieldsHold(doc: Json) {
    var signer, enabled, username := RawField(doc, "signer_type"), RawField(doc, "enabled"), RawField(doc, "username");
    && (signer.Some? ==> signer.value.Null? || (signer.value.Str? && signer.value.s in {"", "nip07", "nip46", "passkey", "unknown"}))
    && IsOptionalBool(enabled) && IsOptionalBool(RawField(doc, "admin"))
    && (enabled == Some(Bool(false)) || (username.Some? && username.value.Str? && Text.TrimSpace(username.value.s) != ""))
  }

  /** An identity is accepted exactly when its key and fields hold, it names a user unless it is disabled,
      and its envelope either is unreadable or holds. */
  lemma IdentityAcceptance(e: Event, decoder: string)
    requires e.kind == IDENTITY_DEFINITION
    ensures Validate(e, decoder) == None <==>
      && Find(e.tags, "d").Some? && ValidHex64(Find(e.tags, "d").value[1])
      && e.content.Doc? && e.content.value.Obj?
      && IdentityFieldsHold(e.content.value)
      && (Headers.HeaderReadable(e.content) ==> HeaderHolds(e))
  {
    EnvelopeAccepted(e);
    if e.content.Doc? {
      var enabled := RawField(e.content.value, "enabled");
      assert enabled.Some? && enabled.value.Bool? && !enabled.value.b <==> enabled == Some(Bool(false));
    }
  }

  const SUBJECT_KEY: string := seq(64, _ => 'a')

  // A capability whose schema is 0 and whose revision is a string.
  const MISTYPED: Event := Event("id", "author", 0, CAPABILITY, [["d", SUBJECT_KEY]],
    Doc(50, Obj([Member("type", Str("agent")), Member("schema", Int(0)), Member("revision", Str("x"))])))

  /** The decoding condition is needed: an accepted capability can carry schema 0. */
  lemma MistypedEnvelopeIsAccepted(decoder: string)
    ensures Validate(MISTYPED, decoder) == None && Headers.Declares(MISTYPED.content, "schema", 0)
  {
    var ms := Members(MISTYPED.content.value);
    assert FoldName("schema") == "schema";
    assert FoldName("revision") == "revision";
    assert FoldName("type") == "type";
    assert Find(MISTYPED.tags, "d") == Some(["d", SUBJECT_KEY]);
    assert ms[2].name == "revision" && Names(ms[2], "revision");
    assert ms[..2] == [Member("type", Str("agent")), Member("schema", Int(0))];
    assert ms[..2][..1] == [Member("type", Str("agent"))];
    assert !IntFieldOk(ms, "revision");
    assert DecodeEnvelope(MISTYPED.content) == None;
    assert ms[..1] == [ms[0]];
    assert LastNamed(ms[..1], "type") == Some(Str("agent"));
    assert LastNamed(ms[..2], "type") == Some(Str("agent"));
    assert RawField(MISTYPED.content.value, "type") == Some(Str("agent"));
    assert LastNamed(ms[..1], "scopes") == None;
    assert RawField(MISTYPED.content.value, "scopes") == None;
    assert IntFieldOk(ms, "schema");
    assert IntField(ms[..2], "schema") == Some(0);
    assert IntField(ms, "schema") == Some(0);
    Headers.IntFieldDeclares(MISTYPED.content, "schema", 0);
  }

  // A positive machine integer in decimal, with an optional plus sign and any leading zeros.
  predicate PositiveText(s: string) {
    var digits := if s != "" && s[0] == '+' then s[1..] else s;
    && digits != "" && (forall c :: c in digits ==> '0' <= c <= '9')
    && AllDigits(digits) && 1 <= DigitsValue(digits) <= 9_223_372_036_854_775_807
  }

  /** A delegation that is well formed apart from its expiry is accepted exactly when the expiry is the
      text of a positive machine integer; among printed integers, exactly when it is positive. */
  lemma DelegationExpires(e: Event, decoder: string)
    requires e.kind == DELEGATION
    requires Find(e.tags, "p").Some? && ValidHex64(Find(e.tags, "p").value[1])
    requires Find(e.tags, "server").Some? && ValidHex64(Find(e.tags, "server").value[1])
    requires Find(e.tags, "expiry").Some? && Find(e.tags, "scope").Some?
    ensures Validate(e, decoder) == None <==> PositiveText(Find(e.tags, "expiry").value[1])
    ensures forall n: GoInt :: Find(e.tags, "expiry").value[1] == Itoa(n) ==> (Validate(e, decoder) == None <==> n > 0)
  {
    PositiveTextParses(Find(e.tags, "expiry").value[1]);
    forall n: GoInt | Find(e.tags, "expiry").value[1] == Itoa(n) ensures ParseInt(Itoa(n)) == Some(n) {
      ItoaRoundTrip(n);
    }
  }

  lemma PositiveTextParses(s: string)
    ensures PositiveText(s) <==> ParseInt(s).Some? && ParseInt(s).value > 0
  {
    if s != "" && AllDigits(s) {
      assert IsDigit(s[0]);
    }
  }
}
