/** What an import or a revalidation decides to save, before anything is written. */
module Decisions {
  import opened Text
  import opened Platform
  import opened Principal
  import opened OwnedNames
  import opened HostStream
  import opened Whoami
  import opened Credentials
  import opened Lifecycle

  datatype RevalidationOutcome = RevalidationValid | RevalidationInvalid | RevalidationAccountMismatch

  datatype Revision = Revision(credential: Credential, outcome: RevalidationOutcome)

  /** The credential `Import` hands to the save, or the error it returns without saving. */
  function ImportPlan(rawToken: string, endpointValid: bool, response: HttpResult, now: Time): Result<Credential> {
    match NormalizeToken(rawToken)
    case Err(error) => Err(error)
    case Ok(token) =>
      match FetchIdentity(endpointValid, token, response)
      case Err(error) => Err(error)
      case Ok(identity) => Ok(NewCredential(token, identity, now))
  }

  /** The credential `Revalidate` hands to the save, or the error it returns without saving. */
  function RevalidationPlan(c: Credential, endpointValid: bool, response: HttpResult, now: Time): Result<Revision> {
    if !IsValid(c) then Err(Error(InvalidInput, 0, false))
    else
      match FetchIdentity(endpointValid, c.accessToken, response)
      case Err(error) =>
        if error.kind != Authentication then Err(error)
        else Ok(Revision(Disabled(c, VALIDATION_INVALID, now), RevalidationInvalid))
      case Ok(identity) =>
        if !SamePrincipal(identity.accountID, identity.userID, c.accountID, c.userID) then
          Ok(Revision(Disabled(c, VALIDATION_MISMATCH, now), RevalidationAccountMismatch))
        else Ok(Revision(WithIdentity(c, identity, now), RevalidationValid))
  }

  /** A complete 2xx response whose body decodes. */
  predicate NamesIdentity(response: HttpResult) {
    response.failure.None? && IsSuccess(response.status) && DecodeIdentity(response.body).Some?
  }

  predicate NamesOtherPrincipal(c: Credential, response: HttpResult) {
    && NamesIdentity(response)
    && var identity := DecodeIdentity(response.body).value;
       !SamePrincipal(identity.accountID, identity.userID, c.accountID, c.userID)
  }

  /**
   A revalidation tries to save a disabled credential exactly on status 401 or
   403 or on an identity of another principal, an enabled one exactly on an
   identity of the same principal, and nothing on every other outcome.
   */
  lemma RevalidationDecision(c: Credential, response: HttpResult, now: Time)
    requires IsValid(c)
    ensures var plan := RevalidationPlan(c, true, response, now);
            && (plan.Ok? && plan.value.credential.disabled
                <==> response.status == 401 || response.status == 403 || NamesOtherPrincipal(c, response))
            && (plan.Ok? && !plan.value.credential.disabled
                <==> NamesIdentity(response) && !NamesOtherPrincipal(c, response))
  {
    AuthenticationFailureIsAuthoritative(true, c.accessToken, response);
    IdentityComesFromCompleteSuccess(true, c.accessToken, response);
  }

  /** No outcome rebinds the credential or changes its token, and only the clock can make it incomplete. */
  lemma RevalidationKeepsPrincipal(c: Credential, endpointValid: bool, response: HttpResult, now: Time)
    requires RevalidationPlan(c, endpointValid, response, now).Ok?
    ensures var d := RevalidationPlan(c, endpointValid, response, now).value.credential;
            && SamePrincipal(d.accountID, d.userID, c.accountID, c.userID)
            && d.accessToken == c.accessToken
            && (IsValid(d) <==> now != 0)
  {
    hide NormalizeToken, DecodeIdentity, FetchIdentity, IsValid, TrimSpace;
    ValidHasIdentifiers(c);
    match FetchIdentity(endpointValid, c.accessToken, response) {
      case Err(_) =>
        DisabledValidity(c, VALIDATION_INVALID, now);
      case Ok(identity) =>
        IdentityComesFromCompleteSuccess(endpointValid, c.accessToken, response);
        WithIdentityValidity(c, identity, now);
        DisabledValidity(c, VALIDATION_MISMATCH, now);
        TrimSpaceIdempotent(identity.userID);
    }
  }

  /**
   What a disabling revalidation saves and answers: after a rejected token the
   state is "invalid", after another principal's identity "account_mismatch"; only
   the flag, the state and the time change.
   */
  lemma RevalidationDisables(c: Credential, response: HttpResult, now: Time)
    requires IsValid(c)
    ensures response.status == 401 || response.status == 403 ==>
              RevalidationPlan(c, true, response, now)
              == Ok(Revision(c.(disabled := true, validationState := "invalid", validatedAt := now), RevalidationInvalid))
    ensures NamesOtherPrincipal(c, response) ==>
              RevalidationPlan(c, true, response, now)
              == Ok(Revision(c.(disabled := true, validationState := "account_mismatch", validatedAt := now), RevalidationAccountMismatch))
  {
    hide NormalizeToken, DecodeIdentity, FetchIdentity, IsValid, SamePrincipal;
    ValidTokenIsNormal(c);
    AuthenticationFailureIsAuthoritative(true, c.accessToken, response);
    IdentityComesFromCompleteSuccess(true, c.accessToken, response);
    TrimFixed("invalid", SPACES);
    TrimFixed("account_mismatch", SPACES);
  }

  /** Any other failure is handed on as it is, and so is an incomplete stored credential, before any request. */
  lemma RevalidationErrors(c: Credential, endpointValid: bool, response: HttpResult, now: Time)
    ensures !IsValid(c) ==> RevalidationPlan(c, endpointValid, response, now) == Err(Error(InvalidInput, 0, false))
    ensures IsValid(c) && !(endpointValid && (response.status == 401 || response.status == 403 || NamesIdentity(response))) ==>
              && FetchIdentity(endpointValid, c.accessToken, response).Err?
              && RevalidationPlan(c, endpointValid, response, now) == Err(FetchIdentity(endpointValid, c.accessToken, response).error)
  {
    hide NormalizeToken, DecodeIdentity, FetchIdentity, IsValid, SamePrincipal;
    AuthenticationFailureIsAuthoritative(endpointValid, c.accessToken, response);
    IdentityComesFromCompleteSuccess(endpointValid, c.accessToken, response);
  }

  /** A revalidation that confirms the principal saves exactly the identity's current data, enabled and marked valid. */
  lemma RevalidationShowsIdentity(c: Credential, response: HttpResult, now: Time)
    requires IsValid(c) && NamesIdentity(response) && !NamesOtherPrincipal(c, response)
    ensures var plan, identity := RevalidationPlan(c, true, response, now), DecodeIdentity(response.body).value;
            && plan.Ok? && plan.value.outcome == RevalidationValid
            && var d := plan.value.credential;
               && d == c.(userID := identity.userID, email := identity.email, planType := identity.planType,
                          fedRAMP := identity.fedRAMP, validatedAt := now, validationState := "valid", disabled := false,
                          headers := d.headers)
               && d.headers == if identity.fedRAMP then map["X-OpenAI-Fedramp" := "true"] else map[]
  {
    hide DecodeIdentity, IsValid, SamePrincipal, NormalizeToken;
    IdentityComesFromCompleteSuccess(true, c.accessToken, response);
    FlagAndHeaderInStep(c);
    var identity := DecodeIdentity(response.body).value;
    OnlyFedRAMPHeader(c.headers, identity.fedRAMP);
    ValidTokenIsNormal(c);
  }

  lemma OnlyFedRAMPHeader(headers: map<string, string>, fedRAMP: bool)
    requires headers.Keys <= {FEDRAMP_HEADER}
    ensures headers[FEDRAMP_HEADER := "true"] == map["X-OpenAI-Fedramp" := "true"]
    ensures headers - {FEDRAMP_HEADER} == map[]
  {
  }

  lemma ValidTokenIsNormal(c: Credential)
    requires IsValid(c)
    ensures NormalizeToken(c.accessToken).Ok?
  {
    hide NormalizeToken;
  }

  /** Two identities the endpoint can return have the same hash preimage only if they are the same principal. */
  lemma IdentitiesHashApart(raw: string, raw': string)
    requires DecodeIdentity(raw).Some? && DecodeIdentity(raw').Some?
    ensures var i, j := DecodeIdentity(raw).value, DecodeIdentity(raw').value;
            Preimage(TrimSpace(i.accountID), TrimSpace(i.userID)) == Preimage(TrimSpace(j.accountID), TrimSpace(j.userID))
            <==> SamePrincipal(i.accountID, i.userID, j.accountID, j.userID)
  {
    hide DecodeIdentity, Preimage, TrimSpace;
    DecodedIdentityIsNormal(raw);
    DecodedIdentityIsNormal(raw');
    var i, j := DecodeIdentity(raw).value, DecodeIdentity(raw').value;
    PreimageInjective(i.accountID, i.userID, j.accountID, j.userID);
  }

  /**
   An import saves exactly for a well-formed token and a decoded identity; what
   it saves is enabled, carries that token and that identity and nothing else, and
   is incomplete only when the clock reads zero.
   */
  lemma ImportDecision(rawToken: string, endpointValid: bool, response: HttpResult, now: Time)
    ensures var plan := ImportPlan(rawToken, endpointValid, response, now);
            && (plan.Ok? <==> NormalizeToken(rawToken).Ok? && endpointValid && NamesIdentity(response))
            && (plan.Ok? ==>
                  var c, identity := plan.value, DecodeIdentity(response.body).value;
                  && SamePrincipal(c.accountID, c.userID, identity.accountID, identity.userID)
                  && (IsValid(c) <==> now != 0)
                  && c == Credential(
                       "codex", "pat", TrimSpace(rawToken), identity.accountID, identity.userID, identity.email, identity.planType,
                       identity.fedRAMP, now, "valid", false, if identity.fedRAMP then map["X-OpenAI-Fedramp" := "true"] else map[],
                       "", "", "", None, "", false, map[]))
  {
    OnlyFedRAMPHeader(map[], true);
    if NormalizeToken(rawToken).Ok? {
      var token := NormalizeToken(rawToken).value;
      NormalizeTokenIdempotent(rawToken);
      IdentityComesFromCompleteSuccess(endpointValid, token, response);
      if FetchIdentity(endpointValid, token, response).Ok? {
        NewCredentialValidity(rawToken, FetchIdentity(endpointValid, token, response).value, now);
      }
    }
  }

  // ---------- the management handler's checks before a revalidation ----------

  datatype Target = NotFound | Unusable | Usable(credential: Credential)

  /** `handleRevalidate` on the file the host returned for the requested index. */
  function RevalidationTarget(name: string, document: Document): Target {
    var decoded := DecodeOwnedCredential(document);
    if decoded.Foreign? || decoded.Undecodable? || !IsOwnedFile(name) then NotFound
    else if decoded.OwnedMalformed? || TrimSpace(name) == "" then Unusable
    else if !IsOwnedFileForPrincipal(name, decoded.credential.accountID, decoded.credential.userID) then Unusable
    else Usable(decoded.credential)
  }

  /** The stored credential is used exactly when the file is the plugin's, decodes and is named after its principal. */
  lemma TargetExactly(name: string, document: Document)
    ensures var target, decoded := RevalidationTarget(name, document), DecodeOwnedCredential(document);
            && (target.Usable? <==>
                  decoded.Owned? && IsOwnedFileForPrincipal(name, decoded.credential.accountID, decoded.credential.userID))
            && (target.Usable? ==> target.credential == decoded.credential)
            && (target.NotFound? <==> !IsOwnedFile(name) || decoded.Foreign? || decoded.Undecodable?)
  {
    hide DecodeOwnedCredential, PrincipalHash;
  }
}
