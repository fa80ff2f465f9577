/** Token and identity normalisation, and the classification of identity requests. */
module Whoami {
  import opened Text
  import opened Platform
  import opened HostStream

  const MAX_TOKEN_BYTES := 16 * 1024
  const MAX_WHOAMI_BODY_BYTES := 1024 * 1024
  const MAX_IDENTITY_FIELD_BYTES := 4 * 1024

  datatype ErrorKind =
    | InvalidInput | Authentication | Rejected | RateLimited | Transient | MalformedResponse | Persistence

  datatype Error = Error(kind: ErrorKind, httpStatus: int, retryable: bool)

  datatype Result<+T> = Ok(value: T) | Err(error: Error)

  datatype Identity = Identity(userID: string, accountID: string, planType: string, email: string, fedRAMP: bool)

  predicate HasControl(s: string) {
    exists i | 0 <= i < |s| :: s[i] < ' ' || s[i] == 127 as char
  }

  function NormalizeToken(raw: string): Result<string> {
    var token := TrimSpace(raw);
    if token == "" then Err(Error(InvalidInput, 400, false))
    else if |token| > MAX_TOKEN_BYTES then Err(Error(InvalidInput, 413, false))
    else if !("at-" <= token) then Err(Error(InvalidInput, 400, false))
    else if HasControl(token) then Err(Error(InvalidInput, 400, false))
    else Ok(token)
  }

  /** A normalised token is its own normal form. */
  lemma NormalizeTokenIdempotent(raw: string)
    requires NormalizeToken(raw).Ok?
    ensures NormalizeToken(NormalizeToken(raw).value) == NormalizeToken(raw)
  {
    TrimSpaceIdempotent(raw);
  }

  predicate Printable(s: string) {
    forall i | 0 <= i < |s| :: s[i] as int >= 0x20 && s[i] as int != 0x7f
  }

  lemma PrintableHasNoControl(s: string)
    ensures Printable(s) <==> !HasControl(s)
  {
  }

  /** Which texts are tokens, what is kept of one, and how the others are refused. */
  lemma TokenExactly(raw: string)
    ensures var token, result := TrimSpace(raw), NormalizeToken(raw);
            && (result.Ok? <==> 3 <= |token| <= 16384 && token[..3] == "at-" && Printable(token))
            && (result.Ok? ==> result.value == token)
            && (result.Err? ==> result.error == Error(InvalidInput, if |token| > 16384 then 413 else 400, false))
  {
    hide TrimSpace, Printable, HasControl;
    PrintableHasNoControl(TrimSpace(raw));
  }

  function NormalizeIdentityField(raw: string, required: bool): Option<string> {
    var value := TrimSpace(raw);
    if value == "" then if required then None else Some("")
    else if |value| > MAX_IDENTITY_FIELD_BYTES || HasControl(value) then None
    else Some(value)
  }

  /** A `*string` field: `None` when ill-typed, `Some(None)` when absent or null. */
  function WireText(fields: map<string, Json>, key: string): Option<Option<string>> {
    if key !in fields || fields[key].JNull? then Some(None)
    else if fields[key].JString? then Some(Some(fields[key].str))
    else None
  }

  function WireFlag(fields: map<string, Json>, key: string): Option<Option<bool>> {
    if key !in fields || fields[key].JNull? then Some(None)
    else if fields[key].JBool? then Some(Some(fields[key].flag))
    else None
  }

  function RequiredText(fields: map<string, Json>, key: string): Option<string> {
    match WireText(fields, key)
    case Some(Some(text)) => NormalizeIdentityField(text, true)
    case _ => None
  }

  function DecodeIdentity(raw: string): Option<Identity> {
    if raw == "" || |raw| > MAX_WHOAMI_BODY_BYTES then None
    else
      match LIB.parseJson(raw)
      case Parsed(JObject(fields)) => IdentityOf(fields)
      case _ => None
  }

  function IdentityOf(fields: map<string, Json>): Option<Identity> {
    var userID := RequiredText(fields, "chatgpt_user_id");
    var accountID := RequiredText(fields, "chatgpt_account_id");
    var planType := RequiredText(fields, "chatgpt_plan_type");
    var fedRAMP := WireFlag(fields, "chatgpt_account_is_fedramp");
    var wireEmail := WireText(fields, "email");
    if userID.None? || accountID.None? || planType.None? || wireEmail.None? then None
    else
      match fedRAMP
      case Some(Some(flag)) =>
        (match NormalizeIdentityField(wireEmail.value.GetOr(""), false)
         case Some(email) => Some(Identity(userID.value, accountID.value, planType.value, email, flag))
         case None => None)
      case _ => None
  }

  /** What every decoded identity satisfies. */
  predicate NormalIdentity(identity: Identity) {
    && NormalField(identity.userID) && identity.userID != ""
    && NormalField(identity.accountID) && identity.accountID != ""
    && NormalField(identity.planType) && identity.planType != ""
    && NormalField(identity.email)
  }

  predicate NormalField(s: string) {
    TrimSpace(s) == s && |s| <= MAX_IDENTITY_FIELD_BYTES && !HasControl(s)
  }

  lemma NormalizedFieldIsNormal(raw: string, required: bool)
    requires NormalizeIdentityField(raw, required).Some?
    ensures NormalField(NormalizeIdentityField(raw, required).value)
    ensures required ==> NormalizeIdentityField(raw, required).value != ""
  {
    TrimSpaceIdempotent(raw);
    assert TrimSpace("") == "";
  }

  lemma DecodedIdentityIsNormal(raw: string)
    requires DecodeIdentity(raw).Some?
    ensures NormalIdentity(DecodeIdentity(raw).value)
  {
    var fields := LIB.parseJson(raw).json.fields;
    forall key | RequiredText(fields, key).Some?
      ensures NormalField(RequiredText(fields, key).value) && RequiredText(fields, key).value != ""
    {
      NormalizedFieldIsNormal(WireText(fields, key).value.value, true);
    }
    NormalizedFieldIsNormal(WireText(fields, "email").value.GetOr(""), false);
  }

  predicate IsSuccess(status: int) {
    200 <= status < 300
  }

  function ClassifyStatus(status: int): Error {
    if status == 401 || status == 403 then Error(Authentication, status, false)
    else if status == 429 then Error(RateLimited, status, true)
    else if status >= 500 then Error(Transient, status, true)
    else Error(Rejected, status, false)
  }

  /**
   `endpointValid` says whether the configured base URL can be turned into the
   identity endpoint; `response` is what the bounded reader returned.
   */
  function FetchIdentity(endpointValid: bool, rawToken: string, response: HttpResult): Result<Identity> {
    match NormalizeToken(rawToken)
    case Err(error) => Err(error)
    case Ok(token) =>
      if !endpointValid then Err(Error(InvalidInput, 500, false))
      else if response.failure.Some? then
        if !IsSuccess(response.status) && response.status != 0 then Err(ClassifyStatus(response.status))
        else if response.failure == Some(BodyTooLarge) then Err(Error(MalformedResponse, 502, false))
        else Err(Error(Transient, 502, true))
      else if !IsSuccess(response.status) then Err(ClassifyStatus(response.status))
      else
        match DecodeIdentity(response.body)
        case None => Err(Error(MalformedResponse, 502, false))
        case Some(identity) => Ok(identity)
  }

  /** Only the two authoritative statuses, whatever happened to the body, count as a rejected token. */
  lemma AuthenticationFailureIsAuthoritative(endpointValid: bool, rawToken: string, response: HttpResult)
    ensures var result := FetchIdentity(endpointValid, rawToken, response);
            (result.Err? && result.error.kind == Authentication)
            <==> NormalizeToken(rawToken).Ok? && endpointValid && (response.status == 401 || response.status == 403)
  {
  }

  /** An identity is returned exactly for a complete, decodable 2xx response, and it is in normal form. */
  lemma IdentityComesFromCompleteSuccess(endpointValid: bool, rawToken: string, response: HttpResult)
    ensures var result := FetchIdentity(endpointValid, rawToken, response);
            && (result.Ok? <==> NormalizeToken(rawToken).Ok? && endpointValid && response.failure.None?
                                && IsSuccess(response.status) && DecodeIdentity(response.body).Some?)
            && (result.Ok? ==> result.value == DecodeIdentity(response.body).value && NormalIdentity(result.value))
  {
    if DecodeIdentity(response.body).Some? {
      DecodedIdentityIsNormal(response.body);
    }
  }

  /** The identity is the wire object's own fields, trimmed, each under its name; all but the email are required. */
  lemma IdentityIsTheWireFields(fields: map<string, Json>)
    ensures var result := IdentityOf(fields);
            result.Some? ==>
              && WireText(fields, "chatgpt_user_id") == Some(Some(fields["chatgpt_user_id"].str))
              && WireText(fields, "chatgpt_account_id") == Some(Some(fields["chatgpt_account_id"].str))
              && WireText(fields, "chatgpt_plan_type") == Some(Some(fields["chatgpt_plan_type"].str))
              && result.value.userID == TrimSpace(fields["chatgpt_user_id"].str)
              && result.value.accountID == TrimSpace(fields["chatgpt_account_id"].str)
              && result.value.planType == TrimSpace(fields["chatgpt_plan_type"].str)
              && fields["chatgpt_account_is_fedramp"] == JBool(result.value.fedRAMP)
              && (result.value.email != "" ==> result.value.email == TrimSpace(fields["email"].str))
  {
    TrimFixed("", SPACES);
    hide TrimSpace, HasControl;
  }

  /** A text of the wire object that may go into an identity. */
  predicate Fits(fields: map<string, Json>, key: string) {
    && key in fields && fields[key].JString?
    && |TrimSpace(fields[key].str)| <= 4096 && Printable(TrimSpace(fields[key].str))
  }

  /** Which wire objects are identities, and with which email. */
  lemma IdentityExactly(fields: map<string, Json>)
    ensures IdentityOf(fields).Some?
            <==> && Fits(fields, "chatgpt_user_id") && TrimSpace(fields["chatgpt_user_id"].str) != ""
                 && Fits(fields, "chatgpt_account_id") && TrimSpace(fields["chatgpt_account_id"].str) != ""
                 && Fits(fields, "chatgpt_plan_type") && TrimSpace(fields["chatgpt_plan_type"].str) != ""
                 && "chatgpt_account_is_fedramp" in fields && fields["chatgpt_account_is_fedramp"].JBool?
                 && ("email" !in fields || fields["email"].JNull? || Fits(fields, "email"))
    ensures IdentityOf(fields).Some? ==>
              IdentityOf(fields).value.email == if "email" in fields && fields["email"].JString? then TrimSpace(fields["email"].str) else ""
  {
    hide TrimSpace, Printable, HasControl, Fits;
    TrimFixed("", SPACES);
    FitsExactly(fields, "chatgpt_user_id");
    FitsExactly(fields, "chatgpt_account_id");
    FitsExactly(fields, "chatgpt_plan_type");
    FitsExactly(fields, "email");
  }

  lemma NoText()
    ensures TrimSpace("") == ""
  {
    TrimFixed("", SPACES);
  }

  lemma FitsExactly(fields: map<string, Json>, key: string)
    ensures Fits(fields, key) ==> key in fields && fields[key].JString?
    ensures RequiredText(fields, key).Some? <==> Fits(fields, key) && TrimSpace(fields[key].str) != ""
    ensures key in fields && fields[key].JString? ==>
              var field := NormalizeIdentityField(fields[key].str, false);
              (field.Some? <==> Fits(fields, key)) && (field.Some? ==> field.value == TrimSpace(fields[key].str))
    ensures NormalizeIdentityField("", false) == Some("")
  {
    hide TrimSpace;
    NoText();
    if key in fields && fields[key].JString? {
      PrintableHasNoControl(TrimSpace(fields[key].str));
      if TrimSpace(fields[key].str) == "" {
        assert Printable("");
      }
    }
  }

  /** A body is an identity when it is one JSON object of at most a mebibyte that is one. */
  lemma BodyExactly(raw: string)
    ensures DecodeIdentity(raw)
         == if 0 < |raw| <= 1_048_576 && LIB.parseJson(raw).Parsed? && LIB.parseJson(raw).json.JObject?
            then IdentityOf(LIB.parseJson(raw).json.fields) else None
  {
  }

  /** What each failed request is reported as. */
  lemma FailuresExactly(endpointValid: bool, rawToken: string, response: HttpResult)
    requires NormalizeToken(rawToken).Ok?
    ensures var result, status := FetchIdentity(endpointValid, rawToken, response), response.status;
            && (!endpointValid ==> result == Err(Error(InvalidInput, 500, false)))
            && (endpointValid && (200 <= status < 300 || (status == 0 && response.failure.Some?)) ==>
                  && (response.failure == Some(BodyTooLarge) ==> result == Err(Error(MalformedResponse, 502, false)))
                  && (response.failure.Some? && response.failure != Some(BodyTooLarge) ==> result == Err(Error(Transient, 502, true)))
                  && (response.failure.None? && DecodeIdentity(response.body).None? ==> result == Err(Error(MalformedResponse, 502, false))))
            && (endpointValid && !(200 <= status < 300) && !(status == 0 && response.failure.Some?) ==>
                  result == Err(if status == 401 || status == 403 then Error(Authentication, status, false)
                                else if status == 429 then Error(RateLimited, 429, true)
                                else if status >= 500 then Error(Transient, status, true)
                                else Error(Rejected, status, false)))
  {
    hide NormalizeToken, DecodeIdentity;
  }

  /**
   A failed request may be retried exactly on 429, on a server error, and when
   the transport failed with no status, or with a success status and a body that
   was not too large.
   */
  lemma RetryableExactly(rawToken: string, response: HttpResult)
    requires NormalizeToken(rawToken).Ok?
    ensures var result := FetchIdentity(true, rawToken, response);
            result.Err? && result.error.retryable
            <==> || response.status == 429 || response.status >= 500
                 || (&& (response.status == 0 || IsSuccess(response.status))
                     && response.failure.Some? && response.failure != Some(BodyTooLarge))
  {
    hide NormalizeToken, DecodeIdentity;
  }
}
