/** The management handler: revalidation requests and status rows. */
module Management {
  import opened Text
  import opened Platform
  import opened Principal
  import opened OwnedNames
  import opened HostStream
  import opened Credentials
  import opened Lifecycle
  import opened Decisions
  import opened Parser
  import opened Resolver
  import opened SaveProtocol
  import opened Service

  const SETTLE_DELAY: nat := 250_000_000

  datatype Readiness = ReadyState | PendingState | UnavailableState | DisabledState

  /** A status row; the credential's display fields are not modelled. */
  datatype Row = Row(authIndex: string, name: string, disabled: bool, unavailable: bool, readiness: Readiness)

  predicate WatcherUpdateSettled(file: HostEntry, runtime: HostEntry, now: Time) {
    && file.modTime != 0 && runtime.updatedAt != 0 && now != 0
    && file.modTime <= runtime.updatedAt <= now
    && now - runtime.updatedAt >= SETTLE_DELAY
  }

  /** Whether a listed entry is shown at all: a codex entry whose file the host returns under a plugin name. */
  predicate Shown(file: HostEntry, physical: Option<Physical>) {
    && (ProviderOf(file) == "" || EqualFold(ProviderOf(file), PROVIDER))
    && TrimSpace(file.authIndex) != ""
    && physical.Some?
    && IsOwnedFile(PhysicalName(file, physical.value))
  }

  /**
   The row of one listed entry. `physical` and `runtime` are the host's replies
   for its index, `None` for an error.
   */
  method StatusForFile(file: HostEntry, physical: Option<Physical>, runtime: Option<HostEntry>, now: Time)
    returns (row: Option<Row>)
    ensures row.Some? ==>
              Shown(file, physical) && row.value.name == PhysicalName(file, physical.value) && row.value.authIndex == TrimSpace(file.authIndex)
    ensures row.Some? && !row.value.disabled ==>
              var parse := ParseAuth(physical.value.document, row.value.name);
              parse.Handled? && !parse.auth.disabled && BearsToken(parse.auth)
    ensures Shown(file, physical) ==>
              var parse := ParseAuth(physical.value.document, PhysicalName(file, physical.value));
              (parse.Handled? && parse.auth.disabled ==> row.None? || row.value.disabled)
              && (parse.NotHandled? ==> row.None?)
              && (parse.Handled? && !parse.auth.disabled ==> row.Some?)
    ensures row.Some? ==>
              && (row.value.readiness == DisabledState <==> row.value.disabled)
              && (row.value.readiness == UnavailableState <==> !row.value.disabled && row.value.unavailable)
              && (row.value.readiness == ReadyState <==>
                    !row.value.disabled && !row.value.unavailable && runtime.Some? && WatcherUpdateSettled(file, runtime.value, now))
              && (row.value.readiness == ReadyState ==>
                    0 < file.modTime <= runtime.value.updatedAt && runtime.value.updatedAt + 250_000_000 <= now)
              && (row.value.readiness == PendingState && runtime.Some? ==>
                    file.modTime == 0 || runtime.value.updatedAt < file.modTime || now < runtime.value.updatedAt + 250_000_000)
    // the runtime record is asked for only when file and entry are enabled and available
    ensures row.Some? ==>
              var parse := ParseAuth(physical.value.document, row.value.name);
              if !BearsToken(parse.auth) then row.value.disabled && row.value.unavailable
              else
                var asked := !parse.auth.disabled && !file.disabled && !file.unavailable;
                && row.value.disabled == (parse.auth.disabled || file.disabled || (asked && runtime.Some? && runtime.value.disabled))
                && row.value.unavailable == (file.unavailable || (asked && runtime.Some? && runtime.value.unavailable))
  {
    hide DecodeOwnedCredential, IsValid, ParseOwnedFile, PrincipalHash, TrimSpace, AuthDataOf, Lower, BearsToken;
    var provider := TrimSpace(file.provider);
    if provider == "" {
      provider := TrimSpace(file.typ);
    }
    if provider != "" && !EqualFold(provider, PROVIDER) {
      return None;
    }
    var authIndex := TrimSpace(file.authIndex);
    if authIndex == "" {
      return None;
    }
    if physical.None? {
      return None;
    }
    var physicalName := TrimSpace(physical.value.name);
    if physicalName == "" {
      physicalName := TrimSpace(file.name);
    }
    if !IsOwnedFile(physicalName) {
      return None;
    }
    TokenNeedsValidBoundFile(physical.value.document, physicalName);
    var decoded := DecodeOwnedCredential(physical.value.document);
    if decoded.Foreign? {
      return None;
    }
    if !decoded.Owned? || !IsValid(decoded.credential) {
      return Some(Row(authIndex, physicalName, true, true, DisabledState));
    }
    var credential := decoded.credential;
    if !IsOwnedFileForPrincipal(physicalName, credential.accountID, credential.userID) {
      return None;
    }
    EnabledMeansParsed(physical.value.document, physicalName);
    var disabled := credential.disabled || file.disabled;
    var unavailable := file.unavailable;
    var readiness := PendingState;
    if disabled {
      readiness := DisabledState;
    } else if unavailable {
      readiness := UnavailableState;
    } else if runtime.Some? {
      disabled := disabled || runtime.value.disabled;
      unavailable := unavailable || runtime.value.unavailable;
      if disabled {
        readiness := DisabledState;
      } else if unavailable {
        readiness := UnavailableState;
      } else if WatcherUpdateSettled(file, runtime.value, now) {
        readiness := ReadyState;
      }
    }
    return Some(Row(authIndex, physicalName, disabled, unavailable, readiness));
  }

  lemma EnabledMeansParsed(document: Document, name: string)
    requires IsOwnedFile(name) && DecodeOwnedCredential(document).Owned? && IsValid(DecodeOwnedCredential(document).credential)
    requires var c := DecodeOwnedCredential(document).credential; IsOwnedFileForPrincipal(name, c.accountID, c.userID)
    ensures ParseAuth(document, name).Handled?
    ensures ParseAuth(document, name).auth.disabled == DecodeOwnedCredential(document).credential.disabled
  {
    hide DecodeOwnedCredential, IsValid, ParseOwnedFile, PrincipalHash, TrimSpace;
  }

  datatype Response =
    | InvalidRequest | CredentialNotFound | CredentialMalformed
    | ImportDone(attempt: Attempt)
    | RevalidationDone(attempt: Attempt, outcome: RevalidationOutcome)

  class Handler {
    const service: Service
    var locked: bool

    constructor (service: Service)
      ensures this.service == service && !locked
    {
      this.service := service;
      locked := false;
    }

    /** An import request with a well-formed body, from taking the mutation lock to giving it back. */
    method HandleImport(pat: string, endpointValid: bool, response: HttpResult, now: Time, view: HostView) returns (answer: Response)
      requires !locked
      modifies this, service
      ensures !locked && answer.ImportDone?
      ensures ImportPlan(pat, endpointValid, response, now).Err? ==>
                answer.attempt == Declined(ImportPlan(pat, endpointValid, response, now).error) && service.Now() == old(service.Now())
      ensures ImportPlan(pat, endpointValid, response, now).Ok? ==>
                var c := ImportPlan(pat, endpointValid, response, now).value;
                answer.attempt.Attempted? && answer.attempt.credential == c
                && SaveOutcome(answer.attempt.exit, service.Now())
                   == SaveRun(service.env, service.runtimeCapable, service.settings, c, Resolution(view, c, ""), old(service.Now()))
    {
      hide SaveRun, Resolution, ImportPlan;
      locked := true;
      var attempt := service.Import(pat, endpointValid, response, now, view);
      locked := false;
      return ImportDone(attempt);
    }

    /**
     A revalidation request with a well-formed body. `physical` is the file the
     host returns for the requested index. Nothing is saved unless the file is
     the plugin's own, decodes, and is named after its principal; then the save
     is asked to keep exactly that name.
     */
    method HandleRevalidate(rawIndex: string, physical: Option<Physical>, endpointValid: bool, response: HttpResult, now: Time, view: HostView)
      returns (answer: Response)
      requires !locked
      modifies this, service
      ensures !locked
      ensures answer == InvalidRequest <==> TrimSpace(rawIndex) == ""
      ensures !answer.RevalidationDone? ==> service.Now() == old(service.Now())
      ensures answer.RevalidationDone? <==>
                && TrimSpace(rawIndex) != "" && physical.Some?
                && var decoded := DecodeOwnedCredential(physical.value.document);
                   decoded.Owned? && IsOwnedFileForPrincipal(physical.value.name, decoded.credential.accountID, decoded.credential.userID)
      ensures answer == CredentialNotFound <==>
                && TrimSpace(rawIndex) != ""
                && (|| physical.None? || !IsOwnedFile(physical.value.name)
                    || DecodeOwnedCredential(physical.value.document).Foreign? || DecodeOwnedCredential(physical.value.document).Undecodable?)
      ensures !answer.ImportDone?
      ensures answer.RevalidationDone? ==>
                var c := DecodeOwnedCredential(physical.value.document).credential;
                match RevalidationPlan(c, endpointValid, response, now)
                case Err(error) => answer.attempt == Declined(error) && service.Now() == old(service.Now())
                case Ok(revision) =>
                  && answer.attempt.Attempted? && answer.attempt.credential == revision.credential && answer.outcome == revision.outcome
                  && SaveOutcome(answer.attempt.exit, service.Now())
                     == SaveRun(service.env, service.runtimeCapable, service.settings, revision.credential,
                                Resolution(view, revision.credential, physical.value.name), old(service.Now()))
    {
      hide SaveRun, Resolution, RevalidationPlan, DecodeOwnedCredential, ParseOwnedFile, TrimSpace, PrincipalHash;
      if physical.Some? {
        TargetExactly(physical.value.name, physical.value.document);
      }
      var authIndex := TrimSpace(rawIndex);
      if authIndex == "" {
        return InvalidRequest;
      }
      locked := true;
      if physical.None? {
        locked := false;
        return CredentialNotFound;
      }
      var decoded := DecodeOwnedCredential(physical.value.document);
      var owned := decoded.Owned? || decoded.OwnedMalformed?;
      if !owned || !IsOwnedFile(physical.value.name) {
        locked := false;
        return CredentialNotFound;
      }
      if decoded.OwnedMalformed? || TrimSpace(physical.value.name) == "" {
        locked := false;
        return CredentialMalformed;
      }
      if !IsOwnedFileForPrincipal(physical.value.name, decoded.credential.accountID, decoded.credential.userID) {
        locked := false;
        return CredentialMalformed;
      }
      var attempt, outcome := service.Revalidate(decoded.credential, physical.value.name, endpointValid, response, now, view);
      locked := false;
      return RevalidationDone(attempt, outcome);
    }
  }
}
