/** Validity of a credential, the updates that must keep it, and the staging payload. */
module Lifecycle {
  import opened Text
  import opened Platform
  import opened Whoami
  import opened Credentials

  predicate ValidHeaders(c: Credential) {
    if c.fedRAMP then
      |c.headers| == 1
      && EqualFold(TrimSpace(if FEDRAMP_HEADER in c.headers then c.headers[FEDRAMP_HEADER] else ""), "true")
    else c.headers == map[]
  }

  predicate ValidPrefix(c: Credential) {
    var prefix := Trim(TrimSpace(c.prefix), {'/'});
    !(prefix != "" && '/' in prefix)
  }

  predicate ValidRaw(c: Credential) {
    c.raw != map[] ==>
      && "chatgpt_account_is_fedramp" in c.raw
      && forall key | key in FORBIDDEN_FIELDS :: key in c.raw ==> c.raw[key] == JNull
  }

  /** `Credential.Validate` returns no error. */
  predicate IsValid(c: Credential) {
    && Lower(TrimSpace(c.typ)) == PROVIDER && Lower(TrimSpace(c.authKind)) == AUTH_KIND
    && NormalizeToken(c.accessToken) == Ok(c.accessToken)
    && TrimSpace(c.accountID) != "" && TrimSpace(c.userID) != "" && TrimSpace(c.planType) != ""
    && c.validatedAt != 0
    && ValidPrefix(c)
    && ValidHeaders(c)
    && ValidRaw(c)
  }

  function SyncFedRAMPHeader(c: Credential): Credential {
    if c.fedRAMP then c.(headers := c.headers[FEDRAMP_HEADER := "true"])
    else c.(headers := c.headers - {FEDRAMP_HEADER})
  }

  function NewCredential(token: string, identity: Identity, now: Time): Credential {
    SyncFedRAMPHeader(Credential(
      PROVIDER, AUTH_KIND, token, identity.accountID, identity.userID, identity.email, identity.planType,
      identity.fedRAMP, now, VALIDATION_VALID, false, map[], "", "", "", None, "", false, map[]))
  }

  function WithIdentity(c: Credential, identity: Identity, now: Time): Credential {
    SyncFedRAMPHeader(c.(
      userID := TrimSpace(identity.userID), email := TrimSpace(identity.email), planType := TrimSpace(identity.planType),
      fedRAMP := identity.fedRAMP, validatedAt := now, validationState := VALIDATION_VALID, disabled := false))
  }

  function Disabled(c: Credential, state: string, now: Time): Credential {
    c.(disabled := true, validationState := TrimSpace(state), validatedAt := now)
  }

  /** A credential held by reference, as the methods on `*Credential` update it. */
  class CredentialRecord {
    var value: Credential

    constructor (value: Credential)
      ensures this.value == value
    {
      this.value := value;
    }

    method ApplyIdentity(identity: Identity, now: Time)
      modifies this
      ensures value == WithIdentity(old(value), identity, now)
    {
      value := value.(userID := TrimSpace(identity.userID));
      value := value.(email := TrimSpace(identity.email));
      value := value.(planType := TrimSpace(identity.planType));
      value := value.(fedRAMP := identity.fedRAMP);
      value := value.(validatedAt := now);
      value := value.(validationState := VALIDATION_VALID);
      value := value.(disabled := false);
      ghost var unsynced := value;
      SyncHeader();
      SyncedIsUnique(unsynced, value);
    }

    method Disable(state: string, now: Time)
      modifies this
      ensures value == Disabled(old(value), state, now)
    {
      value := value.(disabled := true);
      value := value.(validationState := TrimSpace(state));
      value := value.(validatedAt := now);
    }

    /** The header is there exactly when the flag is set, and says "true"; every other header and field is kept. */
    method SyncHeader()
      modifies this
      ensures FEDRAMP_HEADER in value.headers <==> value.fedRAMP
      ensures value.fedRAMP ==> value.headers[FEDRAMP_HEADER] == "true"
      ensures value.headers - {FEDRAMP_HEADER} == old(value).headers - {FEDRAMP_HEADER}
      ensures value.(headers := old(value).headers) == old(value)
    {
      if value.fedRAMP {
        value := value.(headers := value.headers[FEDRAMP_HEADER := "true"]);
        return;
      }
      value := value.(headers := value.headers - {FEDRAMP_HEADER});
    }
  }

  /** What a synchronised credential must satisfy has one solution. */
  lemma SyncedIsUnique(c: Credential, synced: Credential)
    requires FEDRAMP_HEADER in synced.headers <==> synced.fedRAMP
    requires synced.fedRAMP ==> synced.headers[FEDRAMP_HEADER] == "true"
    requires synced.headers - {FEDRAMP_HEADER} == c.headers - {FEDRAMP_HEADER}
    requires synced.(headers := c.headers) == c
    ensures synced == SyncFedRAMPHeader(c)
  {
    forall key: string
      ensures key in synced.headers <==> key in SyncFedRAMPHeader(c).headers
      ensures key in synced.headers ==> synced.headers[key] == SyncFedRAMPHeader(c).headers[key]
    {
      if key != FEDRAMP_HEADER {
        assert key in synced.headers <==> key in synced.headers - {FEDRAMP_HEADER};
        assert key in c.headers <==> key in c.headers - {FEDRAMP_HEADER};
        assert key in c.headers ==> (synced.headers - {FEDRAMP_HEADER})[key] == (c.headers - {FEDRAMP_HEADER})[key];
      }
    }
    assert synced.headers == SyncFedRAMPHeader(c).headers;
  }

  lemma ValidHasIdentifiers(c: Credential)
    ensures IsValid(c) ==> TrimSpace(c.accountID) != "" && TrimSpace(c.userID) != ""
  {
  }

  // ---------- validity over the lifecycle ----------

  /** A valid credential's headers are the FedRAMP header exactly when its flag is set. */
  lemma FlagAndHeaderInStep(c: Credential)
    requires IsValid(c)
    ensures c.headers.Keys == if c.fedRAMP then {FEDRAMP_HEADER} else {}
  {
    if c.fedRAMP {
      assert FEDRAMP_HEADER in c.headers by {
        NothingIsTrue();
      }
      OnlyKey(c.headers.Keys, FEDRAMP_HEADER);
      assert |c.headers.Keys| == |c.headers|;
    }
  }

  lemma NothingIsTrue()
    ensures !EqualFold(TrimSpace(""), "true")
  {
  }

  lemma OnlyKey(keys: set<string>, key: string)
    requires |keys| == 1 && key in keys
    ensures keys == {key}
  {
    assert |keys - {key}| == 0;
  }

  lemma SyncedHeadersAreValid(c: Credential)
    requires c.headers.Keys <= {FEDRAMP_HEADER}
    ensures ValidHeaders(SyncFedRAMPHeader(c))
  {
    var d := SyncFedRAMPHeader(c);
    TrimFixed("true", SPACES);
    if c.fedRAMP {
      assert d.headers.Keys == {FEDRAMP_HEADER};
      assert |d.headers| == |d.headers.Keys|;
    } else {
      assert d.headers == map[];
    }
  }

  lemma MarkersAreNormal()
    ensures Lower(TrimSpace(PROVIDER)) == PROVIDER && Lower(TrimSpace(AUTH_KIND)) == AUTH_KIND
  {
    TrimFixed(PROVIDER, SPACES);
    TrimFixed(AUTH_KIND, SPACES);
  }

  /** A new credential is complete exactly when the clock has a time to stamp it with. */
  lemma NewCredentialValidity(rawToken: string, identity: Identity, now: Time)
    requires NormalizeToken(rawToken).Ok? && NormalIdentity(identity)
    ensures IsValid(NewCredential(NormalizeToken(rawToken).value, identity, now)) <==> now != 0
  {
    NormalizeTokenIdempotent(rawToken);
    MarkersAreNormal();
    TrimFixed("", SPACES);
    TrimFixed("", {'/'});
    SyncedHeadersAreValid(NewCredential(NormalizeToken(rawToken).value, identity, now).(headers := map[]));
  }

  /** Revalidation keeps a valid credential valid, with flag and header in step again. */
  lemma WithIdentityValidity(c: Credential, identity: Identity, now: Time)
    requires IsValid(c) && NormalIdentity(identity)
    ensures IsValid(WithIdentity(c, identity, now)) <==> now != 0
  {
    FlagAndHeaderInStep(c);
    SyncedHeadersAreValid(WithIdentity(c, identity, now).(headers := c.headers));
    assert WithIdentity(c, identity, now) == SyncFedRAMPHeader(WithIdentity(c, identity, now).(headers := c.headers));
  }

  /** Disabling keeps a valid credential valid, and keeps its principal. */
  lemma DisabledValidity(c: Credential, state: string, now: Time)
    requires IsValid(c)
    ensures IsValid(Disabled(c, state, now)) <==> now != 0
  {
  }

  /** What is written for a valid credential is recognised as owned, and decodes to a valid credential again. */
  lemma MarshalledIsOwnedAndValid(c: Credential)
    requires IsValid(c)
    ensures DecodeOwnedCredential(Marshal(c)) == Owned(c.(raw := EncodedFields(c)))
    ensures IsValid(c.(raw := EncodedFields(c)))
  {
    MarshalledIsOwned(c);
    EncodedFieldLookup(c, "chatgpt_account_is_fedramp");
    forall key | key in FORBIDDEN_FIELDS
      ensures key !in EncodedFields(c)
    {
      ForbiddenIsUnknown();
      EncodedFieldLookup(c, key);
    }
  }

  lemma MarshalledIsOwned(c: Credential)
    requires Lower(TrimSpace(c.typ)) == PROVIDER && Lower(TrimSpace(c.authKind)) == AUTH_KIND
    ensures DecodeOwnedCredential(Marshal(c)) == Owned(c.(raw := EncodedFields(c)))
  {
    hide EncodedField, CredentialOf, WellTyped, EncodedFields;
    DecodeMarshalled(c);
    assert Lower(PROVIDER) == PROVIDER && Lower(AUTH_KIND) == AUTH_KIND;
    OwnedWhenMarked(Marshal(c), c.(raw := EncodedFields(c)));
  }

  lemma OwnedWhenMarked(document: Document, c: Credential)
    requires DecodeCredential(document) == Some(c) && IsMarker(c.typ, PROVIDER) && IsMarker(c.authKind, AUTH_KIND)
    ensures DecodeOwnedCredential(document) == Owned(c)
  {
    hide TrimSpace, Lower;
    var fields := document.json.fields;
    assert TextOk(fields, "type") && TextOk(fields, "auth_kind") by {
      assert "type" in TEXT_FIELDS && "auth_kind" in TEXT_FIELDS;
    }
  }

  // ---------- staging ----------

  /** `failClosedHostPayload`: the encoded object with an empty token and the disabled flag. */
  function FailClosedHostPayload(document: Document): Option<Document> {
    match document
    case Parsed(JObject(fields)) =>
      Some(Parsed(JObject(fields["access_token" := JString("")]["disabled" := JBool(true)])))
    case _ => None
  }

  function Staged(c: Credential): Credential {
    c.(accessToken := "", disabled := true)
  }

  /** The staging payload is the encoding of the credential without its token, disabled. */
  lemma StagingPayload(c: Credential)
    ensures FailClosedHostPayload(Marshal(c)) == Some(Marshal(Staged(c)))
  {
    hide EncodedField, EncodedFields, Staged;
    var encoded, staged := EncodedFields(c), EncodedFields(Staged(c));
    forall key
      ensures key in encoded["access_token" := JString("")]["disabled" := JBool(true)] <==> key in staged
      ensures key in staged ==> staged[key] == encoded["access_token" := JString("")]["disabled" := JBool(true)][key]
    {
      EncodedFieldLookup(c, key);
      EncodedFieldLookup(Staged(c), key);
      StagedField(c, key);
    }
    assert staged == encoded["access_token" := JString("")]["disabled" := JBool(true)];
  }

  lemma StagedField(c: Credential, key: string)
    ensures EncodedField(Staged(c), key)
         == if key == "access_token" then Some(JString(""))
            else if key == "disabled" then Some(JBool(true))
            else EncodedField(c, key)
  {
    assert "access_token" in FIELD_NAMES && "disabled" in FIELD_NAMES;
    StagedKnownField(c, key);
  }

  lemma StagedKnownField(c: Credential, key: string)
    ensures KnownField(Staged(c), key)
         == if key == "access_token" then Some(JString(""))
            else if key == "disabled" then Some(JBool(true))
            else KnownField(c, key)
  {
  }

  /** `credentialPayloadEqual`: both decode, to deeply equal values. */
  predicate CredentialPayloadEqual(left: Document, right: Document) {
    left.Parsed? && right.Parsed? && left.json == right.json
  }

  /** The final file never looks like its staging file, so the host cannot take one for the other. */
  lemma StagingIsNeverFinal(c: Credential)
    requires IsValid(c)
    ensures !CredentialPayloadEqual(Marshal(Staged(c)), Marshal(c))
  {
    EncodedTexts(c);
    EncodedTexts(Staged(c));
    TrimFixed("", SPACES);
  }

  // ---------- in plain terms ----------

  /** What a complete credential is. */
  lemma ValidExactly(c: Credential)
    ensures IsValid(c)
            <==> && Lower(TrimSpace(c.typ)) == "codex" && Lower(TrimSpace(c.authKind)) == "pat"
                 && TrimSpace(c.accessToken) == c.accessToken && 3 <= |c.accessToken| <= 16384
                 && c.accessToken[..3] == "at-" && Printable(c.accessToken)
                 && TrimSpace(c.accountID) != "" && TrimSpace(c.userID) != "" && TrimSpace(c.planType) != ""
                 && c.validatedAt != 0
                 && '/' !in Trim(TrimSpace(c.prefix), {'/'})
                 && (if c.fedRAMP then c.headers.Keys == {"X-OpenAI-Fedramp"} && EqualFold(TrimSpace(c.headers["X-OpenAI-Fedramp"]), "true")
                     else c.headers == map[])
                 && (c.raw == map[] || "chatgpt_account_is_fedramp" in c.raw)
                 && (forall key | key in ["api_key", "refresh_token", "id_token", "expires_at", "expiry", "last_refresh"] ::
                       key in c.raw ==> c.raw[key].JNull?)
  {
    hide NormalizeToken, TrimSpace, EqualFold, Lower, Printable, Trim;
    TokenExactly(c.accessToken);
    HeadersExactly(c);
    RawExactly(c);
  }

  lemma HeadersExactly(c: Credential)
    ensures ValidHeaders(c)
            <==> if c.fedRAMP then c.headers.Keys == {"X-OpenAI-Fedramp"} && EqualFold(TrimSpace(c.headers["X-OpenAI-Fedramp"]), "true")
                 else c.headers == map[]
  {
    hide TrimSpace, EqualFold;
    NothingIsTrue();
    assert |c.headers| == |c.headers.Keys|;
    if c.fedRAMP {
      if |c.headers| == 1 && FEDRAMP_HEADER in c.headers {
        OnlyKey(c.headers.Keys, FEDRAMP_HEADER);
      }
      assert |{FEDRAMP_HEADER}| == 1;
    }
  }

  lemma RawExactly(c: Credential)
    ensures ValidRaw(c)
            <==> && (c.raw == map[] || "chatgpt_account_is_fedramp" in c.raw)
                 && (forall key | key in ["api_key", "refresh_token", "id_token", "expires_at", "expiry", "last_refresh"] ::
                       key in c.raw ==> c.raw[key].JNull?)
  {
  }

  /** The staging payload: an empty token, the disabled flag, and every other field as in the final one. */
  lemma StagingFields(c: Credential)
    ensures Marshal(c).Parsed? && Marshal(c).json.JObject? && Marshal(Staged(c)).Parsed? && Marshal(Staged(c)).json.JObject?
    ensures var final, staging := Marshal(c).json.fields, Marshal(Staged(c)).json.fields;
            && "access_token" in staging && staging["access_token"] == JString("")
            && "disabled" in staging && staging["disabled"] == JBool(true)
            && forall key | key != "access_token" && key != "disabled" ::
                 (key in staging <==> key in final) && (key in final ==> staging[key] == final[key])
  {
    hide EncodedField, EncodedFields, Staged;
    forall key
      ensures var final, staging := EncodedFields(c), EncodedFields(Staged(c));
              if key == "access_token" then key in staging && staging[key] == JString("")
              else if key == "disabled" then key in staging && staging[key] == JBool(true)
              else (key in staging <==> key in final) && (key in final ==> staging[key] == final[key])
    {
      EncodedFieldLookup(c, key);
      EncodedFieldLookup(Staged(c), key);
      StagedField(c, key);
    }
  }
}
