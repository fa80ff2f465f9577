/** The whole save as a run against an environment, and what every run of it keeps. */
module SaveProtocol {
  import opened Text
  import opened Platform
  import opened OwnedNames
  import opened Credentials
  import opened Lifecycle
  import opened Parser
  import opened Watcher
  import opened WatcherSafety

  datatype SaveExit =
    | Incomplete | Unresolved | HostSaveFailed | UnexpectedFile | StageUnstable | RewriteFailed | FinalUnstable
    | SavedAt(name: string, path: string)

  datatype SaveOutcome = SaveOutcome(exit: SaveExit, w: World)

  function StageJob(name: string, path: string): Job {
    Job(path, name, None, true)
  }

  function FinalJob(c: Credential, name: string, path: string): Job {
    Job(path, name, Some(Marshal(c)), c.disabled)
  }

  /** `host.auth.save`: the host may or may not have written when it replies. */
  function AuthSave(env: Environment, payload: Document, w: World): (World, Option<SaveReply>) {
    var asked := Step(env, w);
    var move := env(w.tick);
    (if move.writeWorks then Write(asked, payload, move.stamp) else asked, move.saved)
  }

  /** A wait for the host, skipped when the host has no runtime lookup. */
  ghost function Barrier(env: Environment, runtimeCapable: bool, job: Job, settings: Settings, w: World): (World, bool) {
    if !runtimeCapable then (w, true)
    else
      var result := Await(env, job, settings, w);
      (result.w, result.ending.Stable?)
  }

  ghost function SaveRun(env: Environment, runtimeCapable: bool, settings: Settings, c: Credential, resolution: Option<string>, w: World): SaveOutcome {
    if !IsValid(c) then SaveOutcome(Incomplete, w)
    else if resolution.None? then SaveOutcome(Unresolved, w)
    else
      var name := resolution.value;
      var (saved, reply) := AuthSave(env, Marshal(Staged(c)), w);
      if reply.None? then SaveOutcome(HostSaveFailed, saved)
      else if TrimSpace(reply.value.name) != name then SaveOutcome(UnexpectedFile, saved)
      else
        var (staged, stable) := Barrier(env, runtimeCapable, StageJob(name, reply.value.path), settings, saved);
        if !stable then SaveOutcome(StageUnstable, staged)
        else FinishSave(env, runtimeCapable, settings, c, name, reply.value.path, staged)
  }

  ghost function FinishSave(env: Environment, runtimeCapable: bool, settings: Settings, c: Credential, name: string, path: string, w: World): SaveOutcome {
    var job := FinalJob(c, name, path);
    var (rewritten, ok) := Rewrite(env, job, Marshal(c), w);
    if !ok then SaveOutcome(RewriteFailed, rewritten)
    else
      var (settled, stable) := Barrier(env, runtimeCapable, job, settings, rewritten);
      if stable then SaveOutcome(SavedAt(name, path), settled) else SaveOutcome(FinalUnstable, settled)
  }

  // ---------- staged publication ----------

  /** At most one staging payload, first, then copies of the final payload only. */
  predicate IsPublication(writes: seq<Document>, staging: Document, final: Document) {
    forall i | 0 <= i < |writes| :: writes[i] == final || (i == 0 && writes[i] == staging)
  }

  /** What the plugin wrote between two worlds. */
  function WritesSince(w: World, w': World): seq<Document>
    requires w.writes <= w'.writes
  {
    w'.writes[|w.writes|..]
  }

  /** The world in which the staging wait of a save ends, and whether it succeeded. */
  ghost function StagingEnd(env: Environment, settings: Settings, c: Credential, name: string, w: World): (World, bool) {
    var (saved, reply) := AuthSave(env, Marshal(Staged(c)), w);
    if reply.None? || TrimSpace(reply.value.name) != name then (saved, false)
    else Barrier(env, true, StageJob(name, reply.value.path), settings, saved)
  }

  lemma BarrierExtends(env: Environment, runtimeCapable: bool, job: Job, settings: Settings, w: World)
    ensures var (w', _) := Barrier(env, runtimeCapable, job, settings, w);
            Extends(w, w') && OnlyWrites(w, w', job.desired) && (job.desired.None? ==> w'.writes == w.writes)
  {
    hide AwaitFrom, Timeout;
    var started := Step(env, w);
    AwaitExtends(env, job, settings, started.clock + Timeout(settings), started, NoWindow);
    var (w', _) := Barrier(env, runtimeCapable, job, settings, w);
    assert |w.writes| < |w'.writes| ==> job.desired == Some(w'.writes[|w.writes|]);
  }

  lemma FinishSaveExtends(env: Environment, runtimeCapable: bool, settings: Settings, c: Credential, name: string, path: string, w: World)
    ensures var end := FinishSave(env, runtimeCapable, settings, c, name, path, w).w;
            Extends(w, end) && OnlyWrites(w, end, Some(Marshal(c)))
  {
    hide Rewrite, Barrier, Marshal;
    var job := FinalJob(c, name, path);
    RewriteExtends(env, job, Marshal(c), w);
    BarrierExtends(env, runtimeCapable, job, settings, Rewrite(env, job, Marshal(c), w).0);
  }

  /** Up to the end of the staging wait the plugin has written the staging payload at most. */
  lemma StagingWritesNoToken(env: Environment, settings: Settings, c: Credential, name: string, w: World)
    ensures var (end, _) := StagingEnd(env, settings, c, name, w);
            Extends(w, end) && (WritesSince(w, end) == [] || WritesSince(w, end) == [Marshal(Staged(c))])
  {
    hide Marshal, Await, Barrier;
    var (saved, reply) := AuthSave(env, Marshal(Staged(c)), w);
    assert Extends(w, saved);
    if reply.Some? {
      BarrierExtends(env, true, StageJob(name, reply.value.path), settings, saved);
    }
  }

  /**
   For every environment and every point of failure: the plugin writes at most
   one staging payload and then only the final one. With a runtime-capable host
   nothing but the staging payload is written before the staging wait has
   succeeded, and the final payload is never written when that wait fails. So
   before the first token reaches the directory, the host has shown the file's
   record disabled, and not older than a state of the file since the staging.
   */
  lemma StagedPublication(env: Environment, runtimeCapable: bool, settings: Settings, c: Credential, resolution: Option<string>, w: World)
    ensures var end := SaveRun(env, runtimeCapable, settings, c, resolution, w).w;
            && w.writes <= end.writes
            && IsPublication(WritesSince(w, end), Marshal(Staged(c)), Marshal(c))
            && (runtimeCapable && Marshal(c) in WritesSince(w, end) ==>
                  && resolution.Some?
                  && var (staged, stable) := StagingEnd(env, settings, c, resolution.value, w);
                     && stable && w.writes <= staged.writes <= end.writes && Marshal(c) !in WritesSince(w, staged)
                     && DisabledWasSeen(env, resolution.value, AuthSave(env, Marshal(Staged(c)), w).0, staged))
  {
    hide Marshal, Await, Barrier, FinishSave, IsValid, DisabledWasSeen;
    if IsValid(c) && resolution.Some? {
      var name := resolution.value;
      TokenIsMissing(c);
      var (saved, reply) := AuthSave(env, Marshal(Staged(c)), w);
      if reply.Some? && TrimSpace(reply.value.name) == name {
        var job := StageJob(name, reply.value.path);
        BarrierExtends(env, runtimeCapable, job, settings, saved);
        var (staged, stable) := Barrier(env, runtimeCapable, job, settings, saved);
        if stable {
          FinishSaveExtends(env, runtimeCapable, settings, c, name, reply.value.path, staged);
          if runtimeCapable {
            StagedWasSeen(env, settings, name, reply.value.path, saved);
          }
        }
      }
    }
  }

  /**
   The last record the plugin asked for before `end`, under the one index of the
   file, was disabled and not older than a state the file has had since `start`.
   */
  ghost predicate DisabledWasSeen(env: Environment, name: string, start: World, end: World) {
    var record := LastRecord(env, name, end);
    && record.Some? && record.value.disabled
    && exists i: nat | |start.log| - 1 <= i < |end.log| && end.log[i].Regular? :: record.value.updatedAt >= end.log[i].modTime
  }

  lemma StagedWasSeen(env: Environment, settings: Settings, name: string, path: string, w: World)
    requires Barrier(env, true, StageJob(name, path), settings, w).1
    ensures DisabledWasSeen(env, name, w, Barrier(env, true, StageJob(name, path), settings, w).0)
  {
    hide Await, Upheld, FilledLast, WantedIn, WaitHeads, Recurs, HeldThroughout, LastRecord;
    var first, last, modTime, opening := StableMeansSampled(env, StageJob(name, path), settings, w);
    var end := Await(env, StageJob(name, path), settings, w).w;
    assert end.log[last.statLength - 1].modTime == modTime;
  }

  lemma TokenIsMissing(c: Credential)
    requires IsValid(c)
    ensures Marshal(Staged(c)) != Marshal(c)
  {
    hide EncodedFields, IsValid;
    StagingIsNeverFinal(c);
  }

  // ---------- what success means ----------

  /**
   A save that succeeds on a runtime-capable host, with fresh modification
   times since the save began, left the file holding exactly the saved
   credential without interruption for the stable window; whoever parsed it then
   got the saved token and the saved disabled flag, and the last record the
   plugin asked for, under the file's one index, agreed.
   */
  lemma SavedMeansPublished(env: Environment, settings: Settings, c: Credential, resolution: Option<string>, w: World)
    returns (first: Sample, last: Sample)
    requires SaveRun(env, true, settings, c, resolution, w).exit.SavedAt?
    requires FreshModTimes(SaveRun(env, true, settings, c, resolution, w).w.log, |w.log| - 1)
    requires IsOwnedFileForPrincipal(resolution.GetOr(""), c.accountID, c.userID)
    ensures var out := SaveRun(env, true, settings, c, resolution, w);
            && resolution == Some(out.exit.name) && Base(TrimSpace(out.exit.path)) == out.exit.name
            && first.clock + settings.stableWindow <= last.clock
            && 1 <= first.statLength == last.statLength <= |out.w.log|
            && (forall k | first.statLength - 1 <= k < last.statLength ::
                  out.w.log[k].Regular? && out.w.log[k].document == Marshal(c))
            && var record := LastRecord(env, out.exit.name, out.w);
               record.Some? && record.value.disabled == c.disabled && record.value.updatedAt >= out.w.log[last.statLength - 1].modTime
    ensures var parse := ParseAuth(Marshal(c), resolution.GetOr(""));
            && parse.Handled? && parse.auth.disabled == c.disabled
            && BearsToken(parse.auth) && parse.auth.metadata["access_token"] == JString(c.accessToken)
  {
    hide EncodedFields, IsValid, AwaitFrom, IsOwnedFileForPrincipal, IsOwnedFile, ParseAuth, Base, TrimSpace, LastRecord,
         BearsToken, StableWindow, Staged;
    var out := SaveRun(env, true, settings, c, resolution, w);
    var name := resolution.value;
    SavedFileParsesAsSaved(c, name);
    var (saved, reply) := AuthSave(env, Marshal(Staged(c)), w);
    var (staged, _) := Barrier(env, true, StageJob(name, reply.value.path), settings, saved);
    var job := FinalJob(c, name, reply.value.path);
    var (rewritten, ok) := Rewrite(env, job, Marshal(c), staged);
    BarrierExtends(env, true, StageJob(name, reply.value.path), settings, saved);
    RewriteExtends(env, job, Marshal(c), staged);
    assert |w.log| <= |rewritten.log|;
    var opening: nat;
    first, last, opening := StableMeansUninterrupted(env, job, settings, rewritten);
    var log := out.w.log;
    forall k | first.statLength - 1 <= k < last.statLength
      ensures log[k].Regular? && log[k].document == Marshal(c)
    {
      assert ContentOk(job, log[k].document);
    }
  }
}
