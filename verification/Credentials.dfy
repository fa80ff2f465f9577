/** The stored credential: its JSON codec, its validity and its lifecycle updates. */
module Credentials {
  import opened Text
  import opened Platform

  const PROVIDER := "codex"
  const AUTH_KIND := "pat"
  const VALIDATION_VALID := "valid"
  const VALIDATION_INVALID := "invalid"
  const VALIDATION_MISMATCH := "account_mismatch"
  const FEDRAMP_HEADER := "X-OpenAI-Fedramp"

  const FORBIDDEN_FIELDS := ["api_key", "refresh_token", "id_token", "expires_at", "expiry", "last_refresh"]

  const FIELD_NAMES := [
    "type", "auth_kind", "access_token", "account_id", "chatgpt_user_id",
    "email", "plan_type", "chatgpt_account_is_fedramp", "validated_at",
    "validation_state", "disabled", "headers", "base_url", "proxy_url",
    "prefix", "priority", "note", "websockets"]

  const TEXT_FIELDS := [
    "type", "auth_kind", "access_token", "account_id", "chatgpt_user_id", "email", "plan_type",
    "validation_state", "base_url", "proxy_url", "prefix", "note"]

  const FLAG_FIELDS := ["chatgpt_account_is_fedramp", "disabled", "websockets"]

  /**
   A credential. An empty `headers` or `raw` map is Go's nil map; `raw` holds
   the fields of the object the credential was decoded from.
   */
  datatype Credential = Credential(
    typ: string, authKind: string, accessToken: string, accountID: string, userID: string,
    email: string, planType: string, fedRAMP: bool, validatedAt: Time, validationState: string,
    disabled: bool, headers: map<string, string>, baseURL: string, proxyURL: string, prefix: string,
    priority: Option<Json>, note: string, websockets: bool, raw: map<string, Json>)

  // ---------- decoding ----------

  predicate TextOk(fields: map<string, Json>, key: string) {
    key in fields ==> fields[key].JNull? || fields[key].JString?
  }

  function TextOf(fields: map<string, Json>, key: string): string {
    if key in fields && fields[key].JString? then fields[key].str else ""
  }

  predicate FlagOk(fields: map<string, Json>, key: string) {
    key in fields ==> fields[key].JNull? || fields[key].JBool?
  }

  function FlagOf(fields: map<string, Json>, key: string): bool {
    key in fields && fields[key].JBool? && fields[key].flag
  }

  /** `time.Time` decoding: null and absence leave the zero time. */
  function InstantOf(fields: map<string, Json>): Option<Time> {
    if "validated_at" !in fields || fields["validated_at"].JNull? then Some(0)
    else if fields["validated_at"].JString? then LIB.parseTime(fields["validated_at"].str)
    else None
  }

  predicate HeadersOk(fields: map<string, Json>) {
    "headers" in fields ==>
      var value := fields["headers"];
      value.JNull? || (value.JObject? && forall k | k in value.fields :: value.fields[k].JNull? || value.fields[k].JString?)
  }

  function HeadersOf(fields: map<string, Json>): map<string, string> {
    if "headers" in fields && fields["headers"].JObject? then
      var entries := fields["headers"].fields;
      map k | k in entries :: TextOf(entries, k)
    else map[]
  }

  predicate WellTyped(fields: map<string, Json>) {
    && (forall key | key in TEXT_FIELDS :: TextOk(fields, key))
    && (forall key | key in FLAG_FIELDS :: FlagOk(fields, key))
    && HeadersOk(fields)
    && InstantOf(fields).Some?
  }

  function CredentialOf(fields: map<string, Json>): Credential
    requires WellTyped(fields)
  {
    Credential(
      TextOf(fields, "type"), TextOf(fields, "auth_kind"), TextOf(fields, "access_token"),
      TextOf(fields, "account_id"), TextOf(fields, "chatgpt_user_id"), TextOf(fields, "email"),
      TextOf(fields, "plan_type"), FlagOf(fields, "chatgpt_account_is_fedramp"), InstantOf(fields).value,
      TextOf(fields, "validation_state"), FlagOf(fields, "disabled"), HeadersOf(fields),
      TextOf(fields, "base_url"), TextOf(fields, "proxy_url"), TextOf(fields, "prefix"),
      if "priority" in fields then Some(fields["priority"]) else None,
      TextOf(fields, "note"), FlagOf(fields, "websockets"), fields)
  }

  function DecodeCredential(document: Document): Option<Credential> {
    match document
    case Parsed(JObject(fields)) => if WellTyped(fields) then Some(CredentialOf(fields)) else None
    case _ => None
  }

  /** The outcomes of `DecodeOwnedCredential`: (false, nil), (false, err), (true, err) and (true, nil). */
  datatype Decoded = Foreign | Undecodable | OwnedMalformed | Owned(credential: Credential)

  function DecodeOwnedCredential(document: Document): Decoded {
    match document
    case Malformed => Undecodable
    case Parsed(JNull) => Foreign
    case Parsed(JObject(fields)) =>
      if !TextOk(fields, "type") || !TextOk(fields, "auth_kind") then Undecodable
      else if !IsMarker(TextOf(fields, "type"), PROVIDER) || !IsMarker(TextOf(fields, "auth_kind"), AUTH_KIND) then Foreign
      else
        (match DecodeCredential(document)
         case Some(credential) => Owned(credential)
         case None => OwnedMalformed)
    case Parsed(_) => Undecodable
  }

  predicate IsMarker(text: string, marker: string) {
    EqualFold(TrimSpace(text), marker)
  }

  // ---------- encoding ----------

  function OptionalText(s: string): Option<Json> {
    if s == "" then None else Some(JString(s))
  }

  /** The value a struct field is encoded as, `None` when `omitempty` drops it. */
  function KnownField(c: Credential, key: string): Option<Json> {
    if key == "type" then Some(JString(c.typ))
    else if key == "auth_kind" then Some(JString(c.authKind))
    else if key == "access_token" then Some(JString(c.accessToken))
    else if key == "account_id" then Some(JString(c.accountID))
    else if key == "chatgpt_user_id" then Some(JString(c.userID))
    else if key == "email" then OptionalText(c.email)
    else if key == "plan_type" then Some(JString(c.planType))
    else if key == "chatgpt_account_is_fedramp" then Some(JBool(c.fedRAMP))
    else if key == "validated_at" then Some(JString(LIB.formatTime(c.validatedAt)))
    else if key == "validation_state" then OptionalText(c.validationState)
    else if key == "disabled" then Some(JBool(c.disabled))
    else if key == "headers" then
      if c.headers == map[] then None else Some(JObject(map k | k in c.headers :: JString(c.headers[k])))
    else if key == "base_url" then OptionalText(c.baseURL)
    else if key == "proxy_url" then OptionalText(c.proxyURL)
    else if key == "prefix" then OptionalText(c.prefix)
    else if key == "priority" then c.priority
    else if key == "note" then OptionalText(c.note)
    else if key == "websockets" then if c.websockets then Some(JBool(true)) else None
    else None
  }

  function KnownFields(c: Credential): map<string, Json> {
    map key | key in FIELD_NAMES && KnownField(c, key).Some? :: KnownField(c, key).value
  }

  predicate HasRaw(c: Credential, key: string) {
    key in c.raw
  }

  /** The value under `key` in the encoded object. */
  function EncodedField(c: Credential, key: string): Option<Json> {
    if key in FIELD_NAMES then
      if key == "websockets" && HasRaw(c, key) && !c.websockets then Some(JBool(false)) else KnownField(c, key)
    else if key in FORBIDDEN_FIELDS then None
    else if key in c.raw then Some(c.raw[key])
    else None
  }

  /** The encoded object: unknown fields as decoded, struct fields as they are now, forbidden fields gone. */
  function EncodedFields(c: Credential): map<string, Json> {
    map key | key in c.raw.Keys + (set name | name in FIELD_NAMES) && EncodedField(c, key).Some? :: EncodedField(c, key).value
  }

  function Marshal(c: Credential): Document {
    Parsed(JObject(EncodedFields(c)))
  }

  method DeleteFields(fields: map<string, Json>, names: seq<string>) returns (kept: map<string, Json>)
    ensures kept == map key | key in fields && key !in names :: fields[key]
  {
    kept := fields;
    for i := 0 to |names|
      invariant kept == map key | key in fields && key !in names[..i] :: fields[key]
    {
      assert names[..i + 1] == names[..i] + [names[i]];
      kept := kept - {names[i]};
    }
    assert names[..|names|] == names;
  }

  method OverlayFields(fields: map<string, Json>, overlay: map<string, Json>) returns (merged: map<string, Json>)
    ensures merged == fields + overlay
  {
    merged := fields;
    var pending := overlay.Keys;
    while pending != {}
      invariant pending <= overlay.Keys
      invariant merged.Keys == fields.Keys + (overlay.Keys - pending)
      invariant forall key | key in merged ::
                  merged[key] == if key in overlay && key !in pending then overlay[key] else fields[key]
      decreases |pending|
    {
      var key :| key in pending;
      merged := merged[key := overlay[key]];
      pending := pending - {key};
    }
  }

  method MarshalJSON(c: Credential) returns (document: Document)
    ensures document == Marshal(c)
  {
    var knownFields := KnownFields(c);
    var names, forbidden := FIELD_NAMES, FORBIDDEN_FIELDS;
    var fields := DeleteFields(c.raw, names);
    fields := DeleteFields(fields, forbidden);
    DeletedTwice(c.raw, names, forbidden);
    fields := OverlayFields(fields, knownFields);
    if HasRaw(c, "websockets") && !c.websockets {
      fields := fields["websockets" := JBool(false)];
    }
    EditedIsEncoded(c, fields);
    document := Parsed(JObject(fields));
  }

  lemma DeletedTwice(fields: map<string, Json>, names: seq<string>, others: seq<string>)
    ensures var once := map key | key in fields && key !in names :: fields[key];
            (map key | key in once && key !in others :: once[key])
            == map key | key in fields && key !in names && key !in others :: fields[key]
  {
  }

  /** Deleting, overlaying and restoring `websockets` gives every key its encoded value. */
  lemma EditedIsEncoded(c: Credential, fields: map<string, Json>)
    requires var unknown := map key | key in c.raw && key !in FIELD_NAMES && key !in FORBIDDEN_FIELDS :: c.raw[key];
             fields == if HasRaw(c, "websockets") && !c.websockets then (unknown + KnownFields(c))["websockets" := JBool(false)]
                       else unknown + KnownFields(c)
    ensures fields == EncodedFields(c)
  {
    forall key
      ensures key in fields <==> key in EncodedFields(c)
      ensures key in fields ==> fields[key] == EncodedFields(c)[key]
    {
      EditedField(c, fields, key);
    }
  }

  lemma EditedField(c: Credential, fields: map<string, Json>, key: string)
    requires var unknown := map key | key in c.raw && key !in FIELD_NAMES && key !in FORBIDDEN_FIELDS :: c.raw[key];
             fields == if HasRaw(c, "websockets") && !c.websockets then (unknown + KnownFields(c))["websockets" := JBool(false)]
                       else unknown + KnownFields(c)
    ensures key in fields <==> key in EncodedFields(c)
    ensures key in fields ==> fields[key] == EncodedFields(c)[key]
  {
    EncodedFieldLookup(c, key);
    if key == "websockets" {
      assert key in FIELD_NAMES && key !in FORBIDDEN_FIELDS;
    }
  }

  // ---------- round trips ----------

  lemma EncodedFieldLookup(c: Credential, key: string)
    ensures key in EncodedFields(c) <==> EncodedField(c, key).Some?
    ensures key in EncodedFields(c) ==> EncodedFields(c)[key] == EncodedField(c, key).value
  {
  }

  lemma TextFieldIsText(c: Credential, key: string)
    requires key in TEXT_FIELDS
    ensures key in FIELD_NAMES && key != "websockets"
    ensures KnownField(c, key).Some? ==> KnownField(c, key).value.JString?
  {
  }

  lemma FlagFieldIsFlag(c: Credential, key: string)
    requires key in FLAG_FIELDS
    ensures key in FIELD_NAMES
    ensures KnownField(c, key).Some? ==> KnownField(c, key).value.JBool?
  {
  }

  lemma EncodedIsWellTyped(c: Credential)
    ensures WellTyped(EncodedFields(c))
  {
    hide EncodedFields, KnownField;
    forall key | key in TEXT_FIELDS
      ensures TextOk(EncodedFields(c), key)
    {
      EncodedFieldLookup(c, key);
      TextFieldIsText(c, key);
    }
    forall key | key in FLAG_FIELDS
      ensures FlagOk(EncodedFields(c), key)
    {
      EncodedFieldLookup(c, key);
      FlagFieldIsFlag(c, key);
    }
    EncodedOthersOk(c);
  }

  lemma EncodedOthersOk(c: Credential)
    ensures HeadersOk(EncodedFields(c)) && InstantOf(EncodedFields(c)).Some?
  {
    hide EncodedFields;
    EncodedFieldLookup(c, "headers");
    EncodedFieldLookup(c, "validated_at");
  }

  lemma EncodedText(c: Credential, key: string, text: string)
    requires key in FIELD_NAMES && key != "websockets"
    requires KnownField(c, key) == Some(JString(text)) || (text == "" && KnownField(c, key) == None)
    ensures TextOf(EncodedFields(c), key) == text
  {
    EncodedFieldLookup(c, key);
  }

  lemma EncodedTexts(c: Credential)
    ensures var f := EncodedFields(c);
            && TextOf(f, "type") == c.typ && TextOf(f, "auth_kind") == c.authKind
            && TextOf(f, "access_token") == c.accessToken && TextOf(f, "account_id") == c.accountID
            && TextOf(f, "chatgpt_user_id") == c.userID && TextOf(f, "email") == c.email
  {
    EncodedText(c, "type", c.typ);
    EncodedText(c, "auth_kind", c.authKind);
    EncodedText(c, "access_token", c.accessToken);
    EncodedText(c, "account_id", c.accountID);
    EncodedText(c, "chatgpt_user_id", c.userID);
    EncodedText(c, "email", c.email);
  }

  lemma EncodedOptionalTexts(c: Credential)
    ensures var f := EncodedFields(c);
            && TextOf(f, "plan_type") == c.planType && TextOf(f, "validation_state") == c.validationState
            && TextOf(f, "base_url") == c.baseURL && TextOf(f, "proxy_url") == c.proxyURL
            && TextOf(f, "prefix") == c.prefix && TextOf(f, "note") == c.note
  {
    EncodedText(c, "plan_type", c.planType);
    EncodedText(c, "validation_state", c.validationState);
    EncodedText(c, "base_url", c.baseURL);
    EncodedText(c, "proxy_url", c.proxyURL);
    EncodedText(c, "prefix", c.prefix);
    EncodedText(c, "note", c.note);
  }

  lemma EncodedFlags(c: Credential)
    ensures var f := EncodedFields(c);
            && FlagOf(f, "chatgpt_account_is_fedramp") == c.fedRAMP && FlagOf(f, "disabled") == c.disabled
            && FlagOf(f, "websockets") == c.websockets
  {
    hide EncodedFields;
    EncodedFieldLookup(c, "chatgpt_account_is_fedramp");
    EncodedFieldLookup(c, "disabled");
    EncodedFieldLookup(c, "websockets");
  }

  lemma EncodedOthers(c: Credential)
    ensures var f := EncodedFields(c);
            && InstantOf(f) == Some(c.validatedAt)
            && HeadersOf(f) == c.headers
            && (if "priority" in f then Some(f["priority"]) else None) == c.priority
  {
    hide EncodedFields;
    EncodedFieldLookup(c, "validated_at");
    EncodedFieldLookup(c, "headers");
    EncodedFieldLookup(c, "priority");
  }

  /** Decoding what was encoded gives the same credential, now backed by the encoded object. */
  lemma DecodeMarshalled(c: Credential)
    ensures DecodeCredential(Marshal(c)) == Some(c.(raw := EncodedFields(c)))
  {
    EncodedIsWellTyped(c);
    EncodedTexts(c);
    EncodedOptionalTexts(c);
    EncodedFlags(c);
    EncodedOthers(c);
  }

  /** Decode-then-encode is idempotent: encoding again gives the same object. */
  lemma MarshalNormalForm(c: Credential)
    ensures EncodedFields(c.(raw := EncodedFields(c))) == EncodedFields(c)
  {
    hide EncodedFields;
    var d := c.(raw := EncodedFields(c));
    forall key
      ensures EncodedField(d, key) == EncodedField(c, key)
    {
      EncodedFieldLookup(c, key);
      EncodedFieldLookup(c, "websockets");
    }
    forall key
      ensures key in EncodedFields(d) <==> key in EncodedFields(c)
      ensures key in EncodedFields(d) ==> EncodedFields(d)[key] == EncodedFields(c)[key]
    {
      EncodedFieldLookup(c, key);
      EncodedFieldLookup(d, key);
    }
    assert EncodedFields(d) == EncodedFields(c);
  }

  /**
   A file that decodes is rewritten to a file that decodes to the same struct
   fields, keeps every unknown field, has no forbidden field, keeps an explicit
   `websockets`, and is its own rewriting.
   */
  lemma CodecRoundTrip(document: Document)
    requires DecodeCredential(document).Some?
    ensures var c := DecodeCredential(document).value;
            var rewritten := EncodedFields(c);
            && DecodeCredential(Marshal(c)) == Some(c.(raw := rewritten))
            && Marshal(c.(raw := rewritten)) == Marshal(c)
            && (forall key | key !in FIELD_NAMES && key !in FORBIDDEN_FIELDS ::
                  (key in rewritten <==> key in c.raw) && (key in c.raw ==> rewritten[key] == c.raw[key]))
            && (forall key | key in FORBIDDEN_FIELDS :: key !in rewritten)
            && ("websockets" in c.raw ==> "websockets" in rewritten && rewritten["websockets"] == JBool(c.websockets))
  {
    var c := DecodeCredential(document).value;
    DecodeMarshalled(c);
    MarshalNormalForm(c);
    forall key | key !in FIELD_NAMES
      ensures (key in EncodedFields(c) <==> key in c.raw && key !in FORBIDDEN_FIELDS)
              && (key in EncodedFields(c) ==> EncodedFields(c)[key] == c.raw[key])
    {
      EncodedFieldLookup(c, key);
    }
    ForbiddenIsUnknown();
    EncodedFieldLookup(c, "websockets");
  }

  lemma ForbiddenIsUnknown()
    ensures forall key | key in FORBIDDEN_FIELDS :: key !in FIELD_NAMES
  {
  }

  // ---------- the codec in plain terms ----------

  predicate IsText(fields: map<string, Json>, key: string) {
    key !in fields || fields[key].JNull? || fields[key].JString?
  }

  predicate IsFlag(fields: map<string, Json>, key: string) {
    key !in fields || fields[key].JNull? || fields[key].JBool?
  }

  /** Every known field has its type, or is absent or null. */
  predicate FieldsFit(fields: map<string, Json>) {
    && (forall key | key in ["type", "auth_kind", "access_token", "account_id", "chatgpt_user_id", "email", "plan_type",
                             "validation_state", "base_url", "proxy_url", "prefix", "note"] :: IsText(fields, key))
    && (forall key | key in ["chatgpt_account_is_fedramp", "disabled", "websockets"] :: IsFlag(fields, key))
    && ("headers" !in fields || fields["headers"].JNull?
        || (fields["headers"].JObject? && forall key | key in fields["headers"].fields :: IsText(fields["headers"].fields, key)))
    && ("validated_at" !in fields || fields["validated_at"].JNull?
        || (fields["validated_at"].JString? && LIB.parseTime(fields["validated_at"].str).Some?))
  }

  lemma FieldsFitExactly(fields: map<string, Json>)
    ensures WellTyped(fields) <==> FieldsFit(fields)
  {
    if "headers" in fields && fields["headers"].JObject? {
      var entries := fields["headers"].fields;
      assert forall key | key in entries :: IsText(entries, key) <==> entries[key].JNull? || entries[key].JString?;
    }
    assert forall key :: TextOk(fields, key) <==> IsText(fields, key);
    assert forall key :: FlagOk(fields, key) <==> IsFlag(fields, key);
  }

  /**
   What a file is taken for: unreadable without an object or with an ill-typed
   marker, foreign without both markers, and with them a credential exactly when
   every known field has its type.
   */
  lemma DecodedExactly(document: Document)
    ensures var decoded := DecodeOwnedCredential(document);
            if document.Malformed? then decoded.Undecodable?
            else if document.json.JNull? then decoded.Foreign?
            else if !document.json.JObject? then decoded.Undecodable?
            else
              var f := document.json.fields;
              && (decoded.Undecodable? <==> !IsText(f, "type") || !IsText(f, "auth_kind"))
              && (decoded.Foreign? <==>
                    && IsText(f, "type") && IsText(f, "auth_kind")
                    && !(EqualFold(TrimSpace(TextOf(f, "type")), "codex") && EqualFold(TrimSpace(TextOf(f, "auth_kind")), "pat")))
              && (decoded.Owned? ==> FieldsFit(f) && decoded.credential == CredentialOf(f))
              && (decoded.OwnedMalformed? ==> !FieldsFit(f))
  {
    hide WellTyped, FieldsFit, CredentialOf, TrimSpace, EqualFold;
    if document.Parsed? && document.json.JObject? {
      FieldsFitExactly(document.json.fields);
    }
  }

  /** The keys that are always written. */
  lemma EncodedRequiredKeys(c: Credential)
    ensures var f := EncodedFields(c);
            && "type" in f && "auth_kind" in f && "access_token" in f && "account_id" in f && "chatgpt_user_id" in f
            && "plan_type" in f && "chatgpt_account_is_fedramp" in f && "validated_at" in f && "disabled" in f
  {
    hide EncodedFields, OptionalText;
    EncodedFieldLookup(c, "type");
    EncodedFieldLookup(c, "auth_kind");
    EncodedFieldLookup(c, "access_token");
    EncodedFieldLookup(c, "account_id");
    EncodedFieldLookup(c, "chatgpt_user_id");
    EncodedFieldLookup(c, "plan_type");
    EncodedFieldLookup(c, "chatgpt_account_is_fedramp");
    EncodedFieldLookup(c, "validated_at");
    EncodedFieldLookup(c, "disabled");
  }

  /** When the optional texts are written. */
  lemma EncodedOptionalKeys(c: Credential)
    ensures var f := EncodedFields(c);
            && ("email" in f <==> c.email != "") && ("validation_state" in f <==> c.validationState != "")
            && ("base_url" in f <==> c.baseURL != "") && ("proxy_url" in f <==> c.proxyURL != "")
            && ("prefix" in f <==> c.prefix != "") && ("note" in f <==> c.note != "")
  {
    hide EncodedFields;
    EncodedFieldLookup(c, "email");
    EncodedFieldLookup(c, "validation_state");
    EncodedFieldLookup(c, "base_url");
    EncodedFieldLookup(c, "proxy_url");
    EncodedFieldLookup(c, "prefix");
    EncodedFieldLookup(c, "note");
  }

  /** When the other optional fields are written. */
  lemma EncodedOtherKeys(c: Credential)
    ensures var f := EncodedFields(c);
            && ("headers" in f <==> c.headers != map[]) && ("priority" in f <==> c.priority.Some?)
            && ("websockets" in f <==> c.websockets || "websockets" in c.raw)
  {
    hide EncodedFields;
    EncodedFieldLookup(c, "headers");
    EncodedFieldLookup(c, "priority");
    EncodedFieldLookup(c, "websockets");
  }

  /** No OAuth or API-key field is ever written, and every other unknown field is written as it was. */
  lemma OtherFieldsKept(c: Credential, key: string)
    ensures var f := EncodedFields(c);
            if key in ["api_key", "refresh_token", "id_token", "expires_at", "expiry", "last_refresh"] then key !in f
            else if key in ["type", "auth_kind", "access_token", "account_id", "chatgpt_user_id", "email", "plan_type",
                            "chatgpt_account_is_fedramp", "validated_at", "validation_state", "disabled", "headers",
                            "base_url", "proxy_url", "prefix", "priority", "note", "websockets"] then true
            else (key in f <==> key in c.raw) && (key in c.raw ==> f[key] == c.raw[key])
  {
    hide EncodedFields, KnownField;
    ForbiddenIsUnknown();
    EncodedFieldLookup(c, key);
  }
}
