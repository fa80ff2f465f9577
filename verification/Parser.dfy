/** The plugin's auth parser: what a file means to the host. */
module Parser {
  import opened Text
  import opened Platform
  import opened OwnedNames
  import opened Credentials
  import opened Lifecycle

  /** The parsed auth record; its display label and routing attributes are not modelled. */
  datatype AuthData = AuthData(
    provider: string, fileName: string, prefix: string, proxyURL: string, disabled: bool, storage: Document,
    metadata: map<string, Json>)

  datatype AuthParse = NotHandled | Handled(auth: AuthData)

  const RECORD_KEYS := [
    "type", "auth_kind", "access_token", "account_id", "chatgpt_user_id", "plan_type",
    "chatgpt_account_is_fedramp", "validated_at", "disabled", "email", "validation_state",
    "headers", "base_url", "proxy_url", "prefix", "note", "websockets"]

  /** The entry of a token-bearing record under `key`, `None` when there is none. */
  function RecordEntry(c: Credential, key: string): Option<Json> {
    if key == "type" then Some(JString(PROVIDER))
    else if key == "auth_kind" then Some(JString(AUTH_KIND))
    else if key == "access_token" then Some(JString(c.accessToken))
    else if key == "account_id" then Some(JString(c.accountID))
    else if key == "chatgpt_user_id" then Some(JString(c.userID))
    else if key == "plan_type" then Some(JString(c.planType))
    else if key == "chatgpt_account_is_fedramp" then Some(JBool(c.fedRAMP))
    else if key == "validated_at" then Some(JString(LIB.formatTime(c.validatedAt)))
    else if key == "disabled" then Some(JBool(c.disabled))
    else if key == "email" then OptionalText(c.email)
    else if key == "validation_state" then OptionalText(c.validationState)
    else if key == "headers" then
      if c.headers == map[] then None else Some(JObject(map k | k in c.headers :: JString(c.headers[k])))
    else if key == "base_url" then OptionalText(c.baseURL)
    else if key == "proxy_url" then OptionalText(c.proxyURL)
    else if key == "prefix" then OptionalText(c.prefix)
    else if key == "note" then OptionalText(c.note)
    else if key == "websockets" then if HasRaw(c, key) || c.websockets then Some(JBool(c.websockets)) else None
    else None
  }

  function Metadata(c: Credential): map<string, Json> {
    map key | key in RECORD_KEYS && RecordEntry(c, key).Some? :: RecordEntry(c, key).value
  }

  function AuthDataOf(c: Credential, document: Document, fileName: string): AuthData {
    AuthData(
      PROVIDER, TrimSpace(fileName), Trim(TrimSpace(c.prefix), {'/'}), TrimSpace(c.proxyURL), c.disabled, document, Metadata(c))
  }

  function DisabledAuthData(document: Document, fileName: string): AuthData {
    AuthData(PROVIDER, TrimSpace(fileName), "", "", true, document, map[
      "type" := JString(PROVIDER), "auth_kind" := JString(AUTH_KIND),
      "disabled" := JBool(true), "validation_state" := JString("malformed")])
  }

  function ParseAuth(document: Document, fileName: string): AuthParse {
    match DecodeOwnedCredential(document)
    case Foreign => NotHandled
    case Undecodable => if IsOwnedFile(fileName) then Handled(DisabledAuthData(document, fileName)) else NotHandled
    case OwnedMalformed => Handled(DisabledAuthData(document, fileName))
    case Owned(c) =>
      if !IsValid(c) then Handled(DisabledAuthData(document, fileName))
      else if IsOwnedFile(fileName) && !IsOwnedFileForPrincipal(fileName, c.accountID, c.userID) then
        Handled(DisabledAuthData(document, fileName))
      else Handled(AuthDataOf(c, document, fileName))
  }

  predicate BearsToken(auth: AuthData) {
    "access_token" in auth.metadata
  }

  lemma AuthDataBearsToken(c: Credential, document: Document, fileName: string)
    ensures var auth := AuthDataOf(c, document, fileName);
            BearsToken(auth) && auth.metadata["access_token"] == JString(c.accessToken) && auth.disabled == c.disabled
            && auth.storage == document
  {
    hide TrimSpace, Metadata;
    MetadataLookup(c, "access_token");
  }

  lemma MetadataLookup(c: Credential, key: string)
    requires key in RECORD_KEYS
    ensures key in Metadata(c) <==> RecordEntry(c, key).Some?
    ensures key in Metadata(c) ==> Metadata(c)[key] == RecordEntry(c, key).value
  {
  }

  lemma DisabledBearsNoToken(document: Document, fileName: string)
    ensures !BearsToken(DisabledAuthData(document, fileName)) && DisabledAuthData(document, fileName).disabled
  {
  }

  /** A record bears a token exactly when its file holds a valid credential under a name that may hold it. */
  lemma TokenNeedsValidBoundFile(document: Document, fileName: string)
    ensures var parse, decoded := ParseAuth(document, fileName), DecodeOwnedCredential(document);
            (parse.Handled? && BearsToken(parse.auth))
            <==> decoded.Owned? && IsValid(decoded.credential)
                 && (IsOwnedFile(fileName) ==>
                       IsOwnedFileForPrincipal(fileName, decoded.credential.accountID, decoded.credential.userID))
    ensures var parse, decoded := ParseAuth(document, fileName), DecodeOwnedCredential(document);
            parse.Handled? && !parse.auth.disabled ==>
              BearsToken(parse.auth) && !decoded.credential.disabled
              && parse.auth.metadata["access_token"] == JString(decoded.credential.accessToken)
    ensures ParseAuth(document, fileName).NotHandled?
            <==> var decoded := DecodeOwnedCredential(document);
                 decoded.Foreign? || (decoded.Undecodable? && !IsOwnedFile(fileName))
  {
    hide DecodeOwnedCredential, IsValid, AuthDataOf, DisabledAuthData, ParseOwnedFile;
    DisabledBearsNoToken(document, fileName);
    var decoded := DecodeOwnedCredential(document);
    if decoded.Owned? {
      AuthDataBearsToken(decoded.credential, document, fileName);
    }
  }

  /** What is saved for a valid credential is what the parser then accepts: same token, same disabled flag. */
  lemma SavedFileParsesAsSaved(c: Credential, fileName: string)
    requires IsValid(c)
    requires IsOwnedFile(fileName) ==> IsOwnedFileForPrincipal(fileName, c.accountID, c.userID)
    ensures var parse := ParseAuth(Marshal(c), fileName);
            && parse.Handled? && parse.auth.disabled == c.disabled && parse.auth.storage == Marshal(c)
            && BearsToken(parse.auth) && parse.auth.metadata["access_token"] == JString(c.accessToken)
  {
    hide EncodedFields, IsValid, ParseOwnedFile, AuthDataOf, DecodeOwnedCredential, TrimSpace;
    MarshalledIsOwnedAndValid(c);
    AuthDataBearsToken(c.(raw := EncodedFields(c)), Marshal(c), fileName);
  }

  /** The staging payload, under any name, is a disabled record without a token. */
  lemma StagingParsesDisabled(c: Credential, fileName: string)
    requires IsValid(c)
    ensures var parse := ParseAuth(Marshal(Staged(c)), fileName);
            parse.Handled? && parse.auth.disabled && !BearsToken(parse.auth)
  {
    hide EncodedFields, ParseOwnedFile, DisabledAuthData, DecodeOwnedCredential;
    MarshalledIsOwned(Staged(c));
    TrimFixed("", SPACES);
    DisabledBearsNoToken(Marshal(Staged(c)), fileName);
  }

  // ---------- what is in a record ----------

  /** The object a document holds, if it holds one. */
  function FieldsOf(document: Document): map<string, Json> {
    match document
    case Parsed(JObject(fields)) => fields
    case _ => map[]
  }

  /** A record with a token is the one built from the file's own credential. */
  lemma BearingRecord(document: Document, fileName: string)
    requires ParseAuth(document, fileName).Handled? && BearsToken(ParseAuth(document, fileName).auth)
    ensures WellTyped(FieldsOf(document))
    ensures ParseAuth(document, fileName).auth == AuthDataOf(CredentialOf(FieldsOf(document)), document, fileName)
  {
    hide IsValid, ParseOwnedFile, WellTyped, CredentialOf, AuthDataOf, DisabledAuthData, DecodeOwnedCredential, TrimSpace;
    TokenNeedsValidBoundFile(document, fileName);
    DisabledBearsNoToken(document, fileName);
    DecodedFields(document);
  }

  /** A record with a token shows the file's own fields, each under its name. */
  lemma RecordShowsFile(document: Document, fileName: string)
    requires ParseAuth(document, fileName).Handled? && BearsToken(ParseAuth(document, fileName).auth)
    ensures var auth, f := ParseAuth(document, fileName).auth, FieldsOf(document);
            var m := auth.metadata;
            && auth.provider == "codex" && auth.fileName == TrimSpace(fileName) && auth.storage == document
            && auth.disabled == FlagOf(f, "disabled")
            && auth.prefix == Trim(TrimSpace(TextOf(f, "prefix")), {'/'}) && auth.proxyURL == TrimSpace(TextOf(f, "proxy_url"))
            && "type" in m && m["type"] == JString("codex") && "auth_kind" in m && m["auth_kind"] == JString("pat")
            && "access_token" in m && m["access_token"] == JString(TextOf(f, "access_token"))
            && "account_id" in m && m["account_id"] == JString(TextOf(f, "account_id"))
            && "chatgpt_user_id" in m && m["chatgpt_user_id"] == JString(TextOf(f, "chatgpt_user_id"))
            && "plan_type" in m && m["plan_type"] == JString(TextOf(f, "plan_type"))
            && "chatgpt_account_is_fedramp" in m && m["chatgpt_account_is_fedramp"] == JBool(FlagOf(f, "chatgpt_account_is_fedramp"))
            && "disabled" in m && m["disabled"] == JBool(FlagOf(f, "disabled"))
            && InstantOf(f).Some? && "validated_at" in m && m["validated_at"] == JString(LIB.formatTime(InstantOf(f).value))
  {
    hide ParseAuth, Metadata, BearsToken, Trim, TrimSpace, HeadersOf;
    BearingRecord(document, fileName);
    var c := CredentialOf(FieldsOf(document));
    MetadataLookup(c, "type");
    MetadataLookup(c, "auth_kind");
    MetadataLookup(c, "access_token");
    MetadataLookup(c, "account_id");
    MetadataLookup(c, "chatgpt_user_id");
    MetadataLookup(c, "plan_type");
    MetadataLookup(c, "chatgpt_account_is_fedramp");
    MetadataLookup(c, "disabled");
    MetadataLookup(c, "validated_at");
  }

  /** The entry under `key` is the text, or missing when the text is empty. */
  predicate ShowsText(m: map<string, Json>, key: string, text: string) {
    if text == "" then key !in m else key in m && m[key] == JString(text)
  }

  /** The optional texts are there exactly when the file's field is not empty. */
  lemma RecordShowsOptionalTexts(document: Document, fileName: string)
    requires ParseAuth(document, fileName).Handled? && BearsToken(ParseAuth(document, fileName).auth)
    ensures var m, f := ParseAuth(document, fileName).auth.metadata, FieldsOf(document);
            && ShowsText(m, "email", TextOf(f, "email")) && ShowsText(m, "validation_state", TextOf(f, "validation_state"))
            && ShowsText(m, "base_url", TextOf(f, "base_url")) && ShowsText(m, "proxy_url", TextOf(f, "proxy_url"))
            && ShowsText(m, "prefix", TextOf(f, "prefix")) && ShowsText(m, "note", TextOf(f, "note"))
  {
    hide ParseAuth, BearsToken, TrimSpace, HeadersOf, InstantOf, Metadata;
    BearingRecord(document, fileName);
    var c := CredentialOf(FieldsOf(document));
    MetadataLookup(c, "email");
    MetadataLookup(c, "validation_state");
    MetadataLookup(c, "base_url");
    MetadataLookup(c, "proxy_url");
    MetadataLookup(c, "prefix");
    MetadataLookup(c, "note");
  }

  /** So are the headers and the websockets flag, and there is no other entry. */
  lemma RecordShowsNothingElse(document: Document, fileName: string)
    requires ParseAuth(document, fileName).Handled? && BearsToken(ParseAuth(document, fileName).auth)
    ensures var m, f := ParseAuth(document, fileName).auth.metadata, FieldsOf(document);
            && ("headers" in m <==> HeadersOf(f) != map[])
            && ("headers" in m ==> m["headers"] == JObject(map k | k in HeadersOf(f) :: JString(HeadersOf(f)[k])))
            && ("websockets" in m <==> "websockets" in f)
            && ("websockets" in m ==> m["websockets"] == JBool(FlagOf(f, "websockets")))
            && (forall key | key in m ::
                  key in ["type", "auth_kind", "access_token", "account_id", "chatgpt_user_id", "plan_type",
                          "chatgpt_account_is_fedramp", "validated_at", "disabled", "email", "validation_state",
                          "headers", "base_url", "proxy_url", "prefix", "note", "websockets"])
  {
    hide ParseAuth, BearsToken, TrimSpace, HeadersOf, InstantOf, Metadata;
    BearingRecord(document, fileName);
    var c := CredentialOf(FieldsOf(document));
    RecordKeysOnly(c);
    MetadataLookup(c, "headers");
    MetadataLookup(c, "websockets");
  }

  lemma RecordKeysOnly(c: Credential)
    ensures forall key | key in Metadata(c) :: key in RECORD_KEYS
  {
  }

  lemma DecodedFields(document: Document)
    requires DecodeOwnedCredential(document).Owned?
    ensures document.Parsed? && document.json.JObject?
    ensures var f := document.json.fields; WellTyped(f) && DecodeOwnedCredential(document).credential == CredentialOf(f)
  {
    hide WellTyped, CredentialOf, IsMarker;
  }

  /** Every other handled file becomes the same bare disabled record. */
  lemma DisabledRecord(document: Document, fileName: string)
    requires ParseAuth(document, fileName).Handled? && !BearsToken(ParseAuth(document, fileName).auth)
    ensures ParseAuth(document, fileName).auth
         == AuthData("codex", TrimSpace(fileName), "", "", true, document, map[
              "type" := JString("codex"), "auth_kind" := JString("pat"), "disabled" := JBool(true),
              "validation_state" := JString("malformed")])
  {
    hide AuthDataOf, DecodeOwnedCredential, IsValid, TrimSpace, ParseOwnedFile;
    var decoded := DecodeOwnedCredential(document);
    if decoded.Owned? {
      AuthDataBearsToken(decoded.credential, document, fileName);
    }
  }
}
