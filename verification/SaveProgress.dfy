/** The save is not only safe: with a host that does its part in time, it succeeds. */
module SaveProgress {
  import opened Text
  import opened Platform
  import opened OwnedNames
  import opened Credentials
  import opened Lifecycle
  import opened Parser
  import opened Watcher
  import opened WatcherProgress
  import opened LateSettling
  import opened SaveProtocol

  // ---------- a watcher that shows what the parser says ----------

  /** The runtime record shows the parser's view of the file's content, and is not older than the file. */
  predicate Mirrors(record: RuntimeRecord, document: Document, modTime: Time, fileName: string) {
    && ParseAuth(document, fileName).Handled?
    && record.disabled == ParseAuth(document, fileName).auth.disabled
    && record.updatedAt >= modTime
  }

  /** A mirrored record is a ready one, for the staging payload and for the final one. */
  lemma MirroringIsReady(c: Credential, record: RuntimeRecord, modTime: Time, job: Job)
    requires IsValid(c) && IsOwnedFileForPrincipal(job.fileName, c.accountID, c.userID)
    ensures job.disabled && Mirrors(record, Marshal(Staged(c)), modTime, job.fileName) ==>
              record.disabled == job.disabled && record.updatedAt >= modTime
    ensures job.disabled == c.disabled && Mirrors(record, Marshal(c), modTime, job.fileName) ==>
              record.disabled == job.disabled && record.updatedAt >= modTime
  {
    hide ParseAuth, Marshal, IsValid, ParseOwnedFile;
    StagingParsesDisabled(c, job.fileName);
    SavedFileParsesAsSaved(c, job.fileName);
  }

  /** While the file is `file`, nobody writes it, and the host lists it under `index` with a record that mirrors it. */
  ghost predicate MirroringMoves(env: Environment, job: Job, file: FileState, index: string, from: nat, until: nat)
    requires file.Regular?
  {
    forall tick: nat | from <= tick < until :: MirroringMove(job, file, index, env(tick))
  }

  ghost predicate MirroringMove(job: Job, file: FileState, index: string, move: Move)
    requires file.Regular?
  {
    && QuietMove(move)
    && IndexFor(move.list, job.fileName) == Some(index)
    && index in move.runtime && Mirrors(move.runtime[index], file.document, file.modTime, job.fileName)
  }

  /**
   `LateSettling.Settles` for a host that follows the parser: arbitrary replies
   and regular files up to `time`, then a record that shows the parser's view of
   the file.
   */
  ghost predicate MirrorsFrom(env: Environment, job: Job, settings: Settings, w: World, index: string, time: nat) {
    var started := Step(env, w);
    var (head, _) := HeadAt(env, job, settings, started, NoWindow, time);
    var settled := SettledWorld(env, job, settings, w, time);
    var end := Await(env, job, settings, w).w.tick;
    && BenignMoves(env, w.tick, Earlier(head.tick, end))
    && CalmMoves(env, head.tick, Earlier(settled.tick, end))
    && (Current(settled).Regular? ==> MirroringMoves(env, job, Current(settled), index, settled.tick, end))
  }

  /** If the staging wait still lasts when the host settles, the file holds the staging payload then. */
  ghost predicate StagingStays(env: Environment, job: Job, settings: Settings, c: Credential, w: World, time: nat) {
    var settled := SettledWorld(env, job, settings, w, time);
    settled.tick < Await(env, job, settings, w).w.tick && Current(settled).Regular? ==>
      Current(settled).document == Marshal(Staged(c))
  }

  /** Time for the window even if the host settles only at `time`. */
  predicate InTime(settings: Settings, start: nat, time: nat, delay: nat) {
    (if time > start then time else start) + 2 * (PollInterval(settings) + 10 * delay) + StableWindow(settings) + 6 * delay
    <= start + Timeout(settings)
  }

  lemma InTimeLeavesRoom(env: Environment, job: Job, settings: Settings, w: World, time: nat, delay: nat)
    requires Prompt(env, delay) && InTime(settings, Step(env, w).clock, time, delay)
    ensures SettledWorld(env, job, settings, w, time).clock + StableWindow(settings) + 6 * delay
            <= Step(env, w).clock + Timeout(settings)
  {
    hide SettledWorld, Step, Prompt, PollInterval, StableWindow, Timeout;
    SettlingIsSoon(env, job, settings, w, time, delay);
  }

  /** A mirroring host shows ready records: of the staging payload, and of the final one the wait has put in place. */
  lemma MirroringSettles(env: Environment, c: Credential, job: Job, settings: Settings, w: World, index: string, time: nat)
    requires IsValid(c) && IsOwnedFileForPrincipal(job.fileName, c.accountID, c.userID)
    requires PathOk(job) && Current(w).Regular? && MirrorsFrom(env, job, settings, w, index, time)
    requires SettledWorld(env, job, settings, w, time).clock <= Step(env, w).clock + Timeout(settings)
    requires || (job.desired.None? && job.disabled && StagingStays(env, job, settings, c, w, time))
             || (job.desired == Some(Marshal(c)) && job.disabled == c.disabled)
    ensures Settles(env, job, settings, w, index, time)
  {
    hide IsValid, IsOwnedFileForPrincipal, PathOk, Marshal, Staged, Current, Step, AwaitFrom, HeadAt, SettlingHead,
         BenignMoves, CalmMoves, Mirrors, IndexFor, Timeout;
    var started := Step(env, w);
    var deadline := started.clock + Timeout(settings);
    var (head, _) := HeadAt(env, job, settings, started, NoWindow, time);
    var settled := SettledWorld(env, job, settings, w, time);
    var end := Await(env, job, settings, w).w.tick;
    StepTick(env, w);
    HeadIsLater(env, job, settings, started, NoWindow, time);
    AwaitExtends(env, job, settings, deadline, started, NoWindow);
    BenignStep(env, w, Earlier(head.tick, end));
    MarshalledIsJson(c);
    WaitReachesSettling(env, job, settings, deadline, started, NoWindow, time);
    if Current(settled).Regular? && settled.tick < end {
      forall tick: nat | settled.tick <= tick < end
        ensures SettledMove(job, Current(settled).modTime, index, env(tick))
      {
        assert MirroringMove(job, Current(settled), index, env(tick));
        MirroringIsReady(c, env(tick).runtime[index], Current(settled).modTime, job);
      }
    }
  }

  // ---------- the whole save ----------

  /** The world a save is in after `host.auth.save`, after the staging wait, and after the final write. */
  function AfterHostSave(env: Environment, c: Credential, w: World): World {
    AuthSave(env, Marshal(Staged(c)), w).0
  }

  ghost function AfterStaging(env: Environment, settings: Settings, c: Credential, name: string, path: string, w: World): World {
    Await(env, StageJob(name, path), settings, AfterHostSave(env, c, w)).w
  }

  ghost function AfterRewrite(env: Environment, settings: Settings, c: Credential, name: string, path: string, w: World): World {
    Rewrite(env, FinalJob(c, name, path), Marshal(c), AfterStaging(env, settings, c, name, path, w)).0
  }

  /**
   The host saves the staging payload under the asked name and in each wait
   comes to mirror the file, in the staging wait with the staging payload in it.
   Before it does, it may answer anything and write any regular file.
   */
  ghost predicate Cooperates(
    env: Environment, settings: Settings, c: Credential, name: string, path: string,
    stageIndex: string, stageTime: nat, finalIndex: string, finalTime: nat, w: World)
  {
    var saved := AfterHostSave(env, c, w);
    var staged := AfterStaging(env, settings, c, name, path, w);
    var rewritten := AfterRewrite(env, settings, c, name, path, w);
    && env(w.tick).writeWorks && env(w.tick).saved.Some?
    && TrimSpace(env(w.tick).saved.value.name) == name && env(w.tick).saved.value.path == path
    && PathOk(StageJob(name, path))
    && MirrorsFrom(env, StageJob(name, path), settings, saved, stageIndex, stageTime)
    && StagingStays(env, StageJob(name, path), settings, c, saved, stageTime)
    && BenignMoves(env, staged.tick, staged.tick + 2)
    && MirrorsFrom(env, FinalJob(c, name, path), settings, rewritten, finalIndex, finalTime)
  }

  /**
   With a prompt host that comes to mirror the file in time for both windows,
   every complete credential is saved; and if nobody else writes the file after
   the final write, it holds that credential in the end and the plugin wrote
   exactly the two payloads.
   */
  lemma CooperativeSaveSucceeds(
    env: Environment, settings: Settings, c: Credential, name: string, path: string,
    stageIndex: string, stageTime: nat, finalIndex: string, finalTime: nat, w: World, delay: nat)
    requires IsValid(c) && IsOwnedFileForPrincipal(name, c.accountID, c.userID) && Prompt(env, delay)
    requires Cooperates(env, settings, c, name, path, stageIndex, stageTime, finalIndex, finalTime, w)
    requires InTime(settings, Step(env, AfterHostSave(env, c, w)).clock, stageTime, delay)
    requires InTime(settings, Step(env, AfterRewrite(env, settings, c, name, path, w)).clock, finalTime, delay)
    ensures var out := SaveRun(env, true, settings, c, Some(name), w);
            && out.exit == SavedAt(name, path)
            && (NoInstalls(env, AfterRewrite(env, settings, c, name, path, w).tick, out.w.tick) ==>
                  && Current(out.w).Regular? && Current(out.w).document == Marshal(c)
                  && out.w.writes == w.writes + [Marshal(Staged(c)), Marshal(c)])
  {
    hide IsValid, IsOwnedFileForPrincipal, TrimSpace, PathOk, Marshal, Await, MirrorsFrom, StagingStays, BenignMoves,
         InTime, FinishSave, Rewrite, AuthSave, Step, Prompt, NoInstalls;
    CooperativeStage(env, settings, c, name, path, stageIndex, stageTime, w, delay);
    SamePath(c, name, path);
    CooperativeFinish(env, settings, c, name, path, finalIndex, finalTime, AfterStaging(env, settings, c, name, path, w), delay);
  }

  lemma SamePath(c: Credential, name: string, path: string)
    ensures PathOk(FinalJob(c, name, path)) <==> PathOk(StageJob(name, path))
  {
    hide Marshal, Base, TrimSpace;
  }

  lemma CooperativeStage(
    env: Environment, settings: Settings, c: Credential, name: string, path: string, index: string, time: nat, w: World, delay: nat)
    requires IsValid(c) && IsOwnedFileForPrincipal(name, c.accountID, c.userID) && Prompt(env, delay)
    requires InTime(settings, Step(env, AfterHostSave(env, c, w)).clock, time, delay)
    requires env(w.tick).writeWorks && PathOk(StageJob(name, path))
    requires MirrorsFrom(env, StageJob(name, path), settings, AfterHostSave(env, c, w), index, time)
    requires StagingStays(env, StageJob(name, path), settings, c, AfterHostSave(env, c, w), time)
    ensures var (saved, reply) := AuthSave(env, Marshal(Staged(c)), w);
            && saved == AfterHostSave(env, c, w) && reply == env(w.tick).saved
            && Barrier(env, true, StageJob(name, path), settings, saved) == (AfterStaging(env, settings, c, name, path, w), true)
    ensures var staged := AfterStaging(env, settings, c, name, path, w);
            Current(staged).Regular? && staged.writes == w.writes + [Marshal(Staged(c))]
  {
    hide IsValid, IsOwnedFileForPrincipal, PathOk, Marshal, Await, MirrorsFrom, StagingStays, InTime, Timeout,
         StableWindow, Prompt, Settles, SettledWorld;
    var job := StageJob(name, path);
    var saved := AfterHostSave(env, c, w);
    InTimeLeavesRoom(env, job, settings, saved, time, delay);
    MirroringSettles(env, c, job, settings, saved, index, time);
    SettledWaitSucceeds(env, job, settings, saved, index, time, delay);
    BarrierExtends(env, true, job, settings, saved);
  }

  lemma CooperativeFinish(
    env: Environment, settings: Settings, c: Credential, name: string, path: string, index: string, time: nat, w: World, delay: nat)
    requires IsValid(c) && IsOwnedFileForPrincipal(name, c.accountID, c.userID) && Prompt(env, delay)
    requires PathOk(FinalJob(c, name, path)) && Current(w).Regular?
    requires BenignMoves(env, w.tick, w.tick + 2)
    requires var rewritten := Rewrite(env, FinalJob(c, name, path), Marshal(c), w).0;
             && InTime(settings, Step(env, rewritten).clock, time, delay)
             && MirrorsFrom(env, FinalJob(c, name, path), settings, rewritten, index, time)
    ensures var out := FinishSave(env, true, settings, c, name, path, w);
            && out.exit == SavedAt(name, path)
            && (NoInstalls(env, Rewrite(env, FinalJob(c, name, path), Marshal(c), w).0.tick, out.w.tick) ==>
                  && Current(out.w).Regular? && Current(out.w).document == Marshal(c)
                  && out.w.writes == w.writes + [Marshal(c)])
  {
    hide IsValid, IsOwnedFileForPrincipal, PathOk, Marshal, Await, MirrorsFrom, InTime, Timeout, StableWindow, Prompt,
         Settles, SettledWorld, Rewrite, BenignMoves, NoInstalls, CredentialPayloadEqual;
    var job := FinalJob(c, name, path);
    MarshalledIsJson(c);
    RewriteLands(env, job, Marshal(c), w);
    var rewritten := Rewrite(env, job, Marshal(c), w).0;
    InTimeLeavesRoom(env, job, settings, rewritten, time, delay);
    MirroringSettles(env, c, job, settings, rewritten, index, time);
    SettledWaitSucceeds(env, job, settings, rewritten, index, time, delay);
    QuietAwaitKeepsFile(env, job, settings, rewritten);
  }

  lemma RewriteLands(env: Environment, job: Job, document: Document, w: World)
    requires PathOk(job) && document.Parsed? && Current(w).Regular? && BenignMoves(env, w.tick, w.tick + 2)
    ensures var (rewritten, ok) := Rewrite(env, job, document, w);
            && ok && Current(rewritten) == Regular(document, env(w.tick + 1).stamp)
            && rewritten.writes == w.writes + [document]
  {
    hide PathOk, BenignMoves;
    BenignStep(env, w, w.tick + 2);
    BenignStep(env, Step(env, w), w.tick + 2);
  }

  lemma QuietAwaitKeepsFile(env: Environment, job: Job, settings: Settings, w: World)
    requires Current(w).Regular? && ContentOk(job, Current(w).document)
    ensures var end := Await(env, job, settings, w).w;
            NoInstalls(env, w.tick, end.tick) ==> Current(end) == Current(w) && end.writes == w.writes
  {
    hide AwaitFrom, ContentOk, NoInstalls, Timeout;
    var started := Step(env, w);
    var deadline := started.clock + Timeout(settings);
    var end := Await(env, job, settings, w).w;
    AwaitExtends(env, job, settings, deadline, started, NoWindow);
    if NoInstalls(env, w.tick, end.tick) {
      QuietStep(env, w, w, end.tick);
      QuietWithin(env, w.tick, end.tick, started.tick);
      QuietWaitKeepsFile(env, job, settings, deadline, started, NoWindow);
    }
  }

  lemma MarshalledIsJson(c: Credential)
    ensures Marshal(c).Parsed? && CredentialPayloadEqual(Marshal(c), Marshal(c))
  {
  }
}
