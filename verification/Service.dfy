/** The PAT service in its own imperative form, proved against the run functions of `SaveProtocol`. */
module Service {
  import opened Text
  import opened Platform
  import opened HostStream
  import opened Whoami
  import opened Principal
  import opened Credentials
  import opened Lifecycle
  import opened Decisions
  import opened Resolver
  import opened Watcher
  import opened SaveProtocol

  /** Nothing was saved because of `error`, or a save of `credential` was attempted and ended in `exit`. */
  datatype Attempt = Declined(error: Error) | Attempted(credential: Credential, exit: SaveExit)

  class Service {
    const env: Environment
    const runtimeCapable: bool
    const settings: Settings
    var tick: nat
    var clock: nat
    var log: seq<FileState>
    var writes: seq<Document>

    constructor (env: Environment, runtimeCapable: bool, settings: Settings, file: FileState)
      ensures this.env == env && this.runtimeCapable == runtimeCapable && this.settings == settings
      ensures Now() == World(0, 0, [file], [])
    {
      this.env := env;
      this.runtimeCapable := runtimeCapable;
      this.settings := settings;
      tick, clock, log, writes := 0, 0, [file], [];
    }

    function Now(): World
      reads this
    {
      World(tick, clock, log, writes)
    }

    /** The environment acts; then the plugin's next action meets the returned replies. */
    method Advance() returns (move: Move)
      modifies this
      ensures Now() == Step(env, old(Now())) && move == env(old(tick))
    {
      move := env(tick);
      tick := tick + 1;
      clock := clock + move.elapsed;
      log := log + move.installs;
    }

    method ReadSecuredCredential(job: Job) returns (content: Option<Document>, modTime: Time)
      modifies this
      ensures !PathOk(job) ==> content.None? && Now() == old(Now())
      ensures PathOk(job) && !Current(Step(env, old(Now()))).Regular? ==> content.None? && Now() == Step(env, old(Now()))
      ensures PathOk(job) && Current(Step(env, old(Now()))).Regular? ==>
                var statted := Step(env, old(Now()));
                && Now() == Step(env, statted)
                && content == Readable(Current(Now()))
                && modTime == Current(statted).modTime
    {
      hide Base, TrimSpace;
      content, modTime := None, 0;
      if TrimSpace(job.path) == "" || Base(TrimSpace(job.path)) != job.fileName {
        return;
      }
      var _ := Advance();
      var info := Current(Now());
      if !info.Regular? {
        return;
      }
      modTime := info.modTime;
      var _ := Advance();
      content := Readable(Current(Now()));
    }

    method RewriteSecuredCredential(job: Job, document: Document) returns (ok: bool)
      modifies this
      ensures (Now(), ok) == Rewrite(env, job, document, old(Now()))
    {
      hide Base, TrimSpace;
      if TrimSpace(job.path) == "" || Base(TrimSpace(job.path)) != job.fileName {
        return false;
      }
      if document.Malformed? {
        return false;
      }
      var _ := Advance();
      if !Current(Now()).Regular? {
        return false;
      }
      var move := Advance();
      if !move.writeWorks {
        return false;
      }
      log := log + [Regular(document, move.stamp)];
      writes := writes + [document];
      return true;
    }

    method AuthIndexForFile(fileName: string) returns (index: Option<string>)
      modifies this
      ensures Now() == Step(env, old(Now()))
      ensures index == IndexFor(env(old(tick)).list, fileName)
    {
      var move := Advance();
      if move.list.None? {
        return None;
      }
      index := UniqueIndex(move.list.value, fileName);
    }

    method AuthGetRuntime(index: string) returns (record: Option<RuntimeRecord>)
      modifies this
      ensures Now() == Step(env, old(Now()))
      ensures record == Lookup(env(old(tick)).runtime, index)
    {
      var move := Advance();
      record := Lookup(move.runtime, index);
    }

    method ReadClock() returns (now: nat)
      modifies this
      ensures Now() == Step(env, old(Now())) && now == Now().clock
    {
      var _ := Advance();
      now := clock;
    }

    /** Waits for one poll interval or for the caller's context, whichever ends first. */
    method Sleep(duration: nat) returns (cancelled: bool)
      modifies this
      ensures var woken := Step(env, old(Now()));
              && cancelled == env(old(tick)).cancelled
              && Now() == if cancelled then woken else Later(woken, duration)
    {
      var move := Advance();
      cancelled := move.cancelled;
      if !cancelled {
        clock := clock + duration;
      }
    }

    /** One iteration of the wait. */
    method PollOnce(job: Job, stableWindow: nat, window: Window) returns (result: PollResult)
      modifies this
      ensures result == Poll(env, job, stableWindow, old(Now()), window) && result.w == Now()
    {
      hide PathOk, ContentOk, IndexFor, Lookup, Rewrite, Ready, Step;
      var content, modTime := ReadSecuredCredential(job);
      if content.None? {
        return PollError(Now());
      }
      if !ContentOk(job, content.value) {
        DesiredExists(job, content.value);
        var ok := RewriteSecuredCredential(job, job.desired.value);
        return if ok then PollAgain(Now(), NoWindow) else PollError(Now());
      }
      result := ObserveRuntime(job, stableWindow, window, modTime);
    }

    method ObserveRuntime(job: Job, stableWindow: nat, window: Window, modTime: Time) returns (result: PollResult)
      requires PathOk(job)
      modifies this
      ensures result == Observe(env, job, stableWindow, old(Now()), window, modTime) && result.w == Now()
    {
      hide PathOk, ContentOk, IndexFor, Lookup, Ready, Step;
      var authIndex := AuthIndexForFile(job.fileName);
      if authIndex.None? {
        return PollAgain(Now(), window);
      }
      var runtime := AuthGetRuntime(authIndex.value);
      var now := ReadClock();
      if runtime.None? || !Ready(job, modTime, runtime.value) {
        return PollAgain(Now(), NoWindow);
      }
      var stable := window;
      if stable.NoWindow? || stable.modTime != modTime {
        stable := Window(now, modTime);
      }
      if now - stable.since < stableWindow {
        return PollAgain(Now(), stable);
      }
      result := ConfirmStable(job, stable, authIndex.value);
    }

    method ConfirmStable(job: Job, window: Window, authIndex: string) returns (result: PollResult)
      requires window.Window? && PathOk(job)
      modifies this
      ensures result == Confirm(env, job, old(Now()), window, authIndex) && result.w == Now()
    {
      hide PathOk, ContentOk, Lookup, Ready, Step;
      var confirmed, confirmedModTime := ReadSecuredCredential(job);
      if confirmed.None? {
        return PollError(Now());
      }
      var contentReady := ContentOk(job, confirmed.value);
      var confirmedRuntime := AuthGetRuntime(authIndex);
      if confirmedRuntime.Some? && window.modTime == confirmedModTime && contentReady
         && Ready(job, confirmedModTime, confirmedRuntime.value) {
        return PollDone(Now());
      }
      return PollAgain(Now(), NoWindow);
    }

    method AwaitWatcherState(job: Job) returns (ending: Ending)
      modifies this
      ensures ending == Await(env, job, settings, old(Now())).ending
      ensures Now() == Await(env, job, settings, old(Now())).w
    {
      hide Poll, Step, Timeout, PollInterval, StableWindow;
      var timeout, pollInterval, stableWindow := Timeout(settings), PollInterval(settings), StableWindow(settings);
      var started := ReadClock();
      var deadline := started + timeout;
      var window := NoWindow;
      ghost var whole := AwaitFrom(env, job, settings, deadline, Now(), NoWindow);
      while true
        invariant whole.ending == AwaitFrom(env, job, settings, deadline, Now(), window).ending
        invariant whole.w == AwaitFrom(env, job, settings, deadline, Now(), window).w
        decreases if clock > deadline then 0 else deadline - clock + 1
      {
        ghost var before := Now();
        PollExtends(env, job, stableWindow, before, window);
        var result := PollOnce(job, stableWindow, window);
        match result {
          case PollError(_) => return Broken;
          case PollDone(_) => return Stable;
          case PollAgain(_, next) => window := next;
        }
        ghost var polled := Now();
        var now := ReadClock();
        StepExtends(env, polled);
        if now > deadline {
          return TimedOut;
        }
        ghost var checked := Now();
        var cancelled := Sleep(pollInterval);
        StepExtends(env, checked);
        if cancelled {
          return Cancelled;
        }
      }
    }

    method AwaitWatcherStage(fileName: string, path: string) returns (ok: bool)
      modifies this
      ensures (Now(), ok) == Barrier(env, runtimeCapable, StageJob(fileName, path), settings, old(Now()))
    {
      hide Await;
      if !runtimeCapable {
        return true;
      }
      var ending := AwaitWatcherState(StageJob(fileName, path));
      ok := ending.Stable?;
    }

    method AwaitWatcherPersistence(fileName: string, path: string, desired: Document, disabled: bool) returns (ok: bool)
      modifies this
      ensures (Now(), ok) == Barrier(env, runtimeCapable, Job(path, fileName, Some(desired), disabled), settings, old(Now()))
    {
      hide Await;
      if !runtimeCapable {
        return true;
      }
      var ending := AwaitWatcherState(Job(path, fileName, Some(desired), disabled));
      ok := ending.Stable?;
    }

    method HostAuthSave(payload: Document) returns (reply: Option<SaveReply>)
      modifies this
      ensures (Now(), reply) == AuthSave(env, payload, old(Now()))
    {
      var move := Advance();
      if move.writeWorks {
        log := log + [Regular(payload, move.stamp)];
        writes := writes + [payload];
      }
      reply := move.saved;
    }

    method SaveCredential(c: Credential, view: HostView, preferredFileName: string) returns (exit: SaveExit)
      modifies this
      ensures SaveOutcome(exit, Now())
           == SaveRun(env, runtimeCapable, settings, c, Resolution(view, c, preferredFileName), old(Now()))
    {
      hide IsValid, Resolution, Marshal, FailClosedHostPayload, TrimSpace, Barrier, Rewrite, AuthSave;
      if !IsValid(c) {
        return Incomplete;
      }
      var resolved := ResolveFileName(view, c, preferredFileName);
      if resolved.None? {
        return Unresolved;
      }
      var fileName := resolved.value;
      var raw := MarshalJSON(c);
      StagingPayload(c);
      var hostPayload := FailClosedHostPayload(raw).value;
      var saved := HostAuthSave(hostPayload);
      if saved.None? {
        return HostSaveFailed;
      }
      if TrimSpace(saved.value.name) != fileName {
        return UnexpectedFile;
      }
      var path := saved.value.path;
      var staged := AwaitWatcherStage(fileName, path);
      if !staged {
        return StageUnstable;
      }
      var rewritten := RewriteSecuredCredential(Job(path, fileName, Some(raw), c.disabled), raw);
      if !rewritten {
        return RewriteFailed;
      }
      var persisted := AwaitWatcherPersistence(fileName, path, raw, c.disabled);
      if !persisted {
        return FinalUnstable;
      }
      return SavedAt(fileName, path);
    }

    /** Fetches the identity behind a token; `response` is the bounded reader's result. */
    method Validate(endpointValid: bool, token: string, response: HttpResult) returns (identity: Result<Identity>)
      ensures identity == FetchIdentity(endpointValid, token, response)
    {
      identity := FetchIdentity(endpointValid, token, response);
    }

    method Import(rawToken: string, endpointValid: bool, response: HttpResult, now: Time, view: HostView)
      returns (attempt: Attempt)
      modifies this
      ensures match ImportPlan(rawToken, endpointValid, response, now)
              case Err(error) => attempt == Declined(error) && Now() == old(Now())
              case Ok(c) =>
                && attempt.Attempted? && attempt.credential == c
                && SaveOutcome(attempt.exit, Now())
                   == SaveRun(env, runtimeCapable, settings, c, Resolution(view, c, ""), old(Now()))
    {
      hide SaveRun, Resolution, FetchIdentity;
      var token := NormalizeToken(rawToken);
      if token.Err? {
        return Declined(token.error);
      }
      var identity := Validate(endpointValid, token.value, response);
      if identity.Err? {
        return Declined(identity.error);
      }
      var credential := NewCredential(token.value, identity.value, now);
      var exit := SaveCredential(credential, view, "");
      return Attempted(credential, exit);
    }

    method Revalidate(credential: Credential, fileName: string, endpointValid: bool, response: HttpResult, now: Time, view: HostView)
      returns (attempt: Attempt, outcome: RevalidationOutcome)
      modifies this
      ensures match RevalidationPlan(credential, endpointValid, response, now)
              case Err(error) => attempt == Declined(error) && Now() == old(Now())
              case Ok(revision) =>
                && attempt.Attempted? && attempt.credential == revision.credential && outcome == revision.outcome
                && SaveOutcome(attempt.exit, Now())
                   == SaveRun(env, runtimeCapable, settings, revision.credential, Resolution(view, revision.credential, fileName), old(Now()))
    {
      hide SaveRun, Resolution, FetchIdentity, IsValid, WithIdentity, Disabled, SamePrincipal;
      outcome := RevalidationInvalid;
      if !IsValid(credential) {
        return Declined(Error(InvalidInput, 0, false)), outcome;
      }
      var identity := Validate(endpointValid, credential.accessToken, response);
      var record := new CredentialRecord(credential);
      if identity.Err? {
        if identity.error.kind != Authentication {
          return Declined(identity.error), outcome;
        }
        record.Disable(VALIDATION_INVALID, now);
      } else if !SamePrincipal(identity.value.accountID, identity.value.userID, credential.accountID, credential.userID) {
        record.Disable(VALIDATION_MISMATCH, now);
        outcome := RevalidationAccountMismatch;
      } else {
        record.ApplyIdentity(identity.value, now);
        outcome := RevalidationValid;
      }
      var exit := SaveCredential(record.value, view, fileName);
      return Attempted(record.value, exit), outcome;
    }
  }

  lemma StepExtends(env: Environment, w: World)
    ensures Extends(w, Step(env, w))
  {
  }

  lemma DesiredExists(job: Job, document: Document)
    requires !ContentOk(job, document)
    ensures job.desired.Some?
  {
  }

  /** The loop of `authIndexForFile`: blank indexes are skipped, a second different one is an error. */
  method UniqueIndex(files: seq<HostEntry>, fileName: string) returns (index: Option<string>)
    ensures index == IndexFor(Some(files), fileName)
  {
    hide TrimSpace;
    var authIndex := "";
    for i := 0 to |files|
      invariant Indexes(files[..i], fileName) == if authIndex == "" then {} else {authIndex}
    {
      var file := files[i];
      assert files[..i + 1] == files[..i] + [file];
      IndexesAppend(files[..i], file, fileName);
      if file.runtimeOnly || TrimSpace(file.name) != fileName {
        continue;
      }
      var candidate := TrimSpace(file.authIndex);
      if candidate == "" {
        continue;
      }
      if authIndex != "" && authIndex != candidate {
        TwoIndexes(files, i + 1, fileName, authIndex, candidate);
        return None;
      }
      authIndex := candidate;
    }
    assert files[..|files|] == files;
    if authIndex == "" {
      return None;
    }
    return Some(authIndex);
  }

  lemma IndexesAppend(files: seq<HostEntry>, file: HostEntry, fileName: string)
    ensures Indexes(files + [file], fileName)
         == Indexes(files, fileName) + if IsRecordOf(file, fileName) then {TrimSpace(file.authIndex)} else {}
  {
    hide TrimSpace;
  }

  lemma TwoIndexes(files: seq<HostEntry>, n: nat, fileName: string, a: string, b: string)
    requires n <= |files| && a != b && a in Indexes(files[..n], fileName) && b in Indexes(files[..n], fileName)
    ensures |Indexes(files, fileName)| != 1
  {
    hide TrimSpace, IsRecordOf;
    var indexes := Indexes(files, fileName);
    assert a in indexes && b in indexes;
    assert |{a, b}| == 2 && {a, b} <= indexes;
    SubsetSize({a, b}, indexes);
  }

  lemma {:induction false} SubsetSize(small: set<string>, large: set<string>)
    requires small <= large
    ensures |small| <= |large|
  {
    assert large == small + (large - small);
  }
}
