/** Where a save stops and what it has done by then, exit by exit and in the terms of the host's answers. */
module SaveExits {
  import opened Text
  import opened Credentials
  import opened Lifecycle
  import opened Watcher
  import opened SaveProtocol

  /** The world after `host.auth.save`: the staging payload is there if the host's write worked, whatever it replied. */
  function AfterAuthSave(env: Environment, c: Credential, w: World): World {
    var asked, staging := Step(env, w), Marshal(Staged(c));
    if env(w.tick).writeWorks then
      World(asked.tick, asked.clock, asked.log + [Regular(staging, env(w.tick).stamp)], asked.writes + [staging])
    else asked
  }

  /** A complete credential has a name, and the host answered that it saved under it. */
  ghost predicate HostSaved(env: Environment, c: Credential, resolution: Option<string>, w: World) {
    && IsValid(c) && resolution.Some?
    && env(w.tick).saved.Some? && TrimSpace(env(w.tick).saved.value.name) == resolution.value
  }

  /** The world in which the final write begins, once the host has saved. */
  ghost function BeforeFinalWrite(env: Environment, runtimeCapable: bool, settings: Settings, c: Credential, name: string, path: string, w: World): World {
    var saved := AfterAuthSave(env, c, w);
    if runtimeCapable then Await(env, Job(path, name, None, true), settings, saved).w else saved
  }

  ghost predicate StagePassed(env: Environment, runtimeCapable: bool, settings: Settings, c: Credential, name: string, path: string, w: World) {
    runtimeCapable ==> Await(env, Job(path, name, None, true), settings, AfterAuthSave(env, c, w)).ending.Stable?
  }

  /** An incomplete credential or a missing name is refused before the host is asked anything. */
  lemma RefusedBeforeSaving(env: Environment, runtimeCapable: bool, settings: Settings, c: Credential, resolution: Option<string>, w: World)
    ensures var out := SaveRun(env, runtimeCapable, settings, c, resolution, w);
            && (out.exit.Incomplete? <==> !IsValid(c))
            && (out.exit.Unresolved? <==> IsValid(c) && resolution.None?)
            && (out.exit.Incomplete? || out.exit.Unresolved? ==> out.w == w)
  {
    hide IsValid, TrimSpace, Marshal, Barrier, FinishSave;
    if IsValid(c) && resolution.Some? {
      FinishExits(env, runtimeCapable, settings, c, resolution, w);
    }
  }

  lemma FinishExits(env: Environment, runtimeCapable: bool, settings: Settings, c: Credential, resolution: Option<string>, w: World)
    requires IsValid(c) && resolution.Some?
    ensures var exit := SaveRun(env, runtimeCapable, settings, c, resolution, w).exit;
            !exit.Incomplete? && !exit.Unresolved?
  {
    hide IsValid, TrimSpace, Marshal, Barrier, Rewrite;
  }

  /** A host error, a reply under another name or a failed staging wait stops the save right there. */
  lemma StoppedBeforeFinalWrite(env: Environment, runtimeCapable: bool, settings: Settings, c: Credential, name: string, w: World)
    requires IsValid(c)
    ensures var out, reply, saved := SaveRun(env, runtimeCapable, settings, c, Some(name), w), env(w.tick).saved, AfterAuthSave(env, c, w);
            if reply.None? then out == SaveOutcome(HostSaveFailed, saved)
            else if TrimSpace(reply.value.name) != name then out == SaveOutcome(UnexpectedFile, saved)
            else !StagePassed(env, runtimeCapable, settings, c, name, reply.value.path, w) ==>
                   out == SaveOutcome(StageUnstable, BeforeFinalWrite(env, runtimeCapable, settings, c, name, reply.value.path, w))
  {
    hide IsValid, TrimSpace, Marshal, Staged, Await, FinishSave;
  }

  /** The inspection before the final write finds the file where the host put it, regular, and the write goes through. */
  ghost predicate MayWrite(env: Environment, name: string, path: string, staged: World) {
    var inspected := Step(env, staged);
    && TrimSpace(path) != "" && Base(TrimSpace(path)) == name
    && Current(inspected).Regular? && env(inspected.tick).writeWorks
  }

  /**
   The final write is made only right after the file was found regular. When it
   is absent or irregular then, or the write fails, the save ends with the
   staging payload at most, and no token has been written.
   */
  lemma InspectionGuardsFinalWrite(env: Environment, runtimeCapable: bool, settings: Settings, c: Credential, name: string, w: World)
    requires HostSaved(env, c, Some(name), w)
    requires StagePassed(env, runtimeCapable, settings, c, name, env(w.tick).saved.value.path, w)
    ensures var path := env(w.tick).saved.value.path;
            var out, staged := SaveRun(env, runtimeCapable, settings, c, Some(name), w), BeforeFinalWrite(env, runtimeCapable, settings, c, name, path, w);
            !MayWrite(env, name, path, staged) ==>
              && out.exit.RewriteFailed? && out.w.writes == staged.writes
              && w.writes <= out.w.writes && Marshal(c) !in WritesSince(w, out.w)
  {
    hide IsValid, TrimSpace, Base, Marshal, Staged, Await, Current;
    var path := env(w.tick).saved.value.path;
    TokenIsMissing(c);
    BarrierExtends(env, runtimeCapable, StageJob(name, path), settings, AfterAuthSave(env, c, w));
    PlainWrites(env, c, w);
  }

  lemma PlainWrites(env: Environment, c: Credential, w: World)
    ensures AfterAuthSave(env, c, w) == AuthSave(env, Marshal(Staged(c)), w).0
    ensures var writes := AfterAuthSave(env, c, w).writes; writes == w.writes || writes == w.writes + [Marshal(Staged(c))]
  {
    hide Marshal, Staged;
  }

  /** The world right after the final write. */
  ghost function AfterFinalWrite(env: Environment, c: Credential, staged: World): World {
    var inspected := Step(env, staged);
    var replacing := Step(env, inspected);
    World(replacing.tick, replacing.clock, replacing.log + [Regular(Marshal(c), env(inspected.tick).stamp)], replacing.writes + [Marshal(c)])
  }

  /** Otherwise the final payload is in the file, and what remains is the final wait; a host without runtime records has none. */
  lemma FinalWriteLands(env: Environment, runtimeCapable: bool, settings: Settings, c: Credential, name: string, w: World)
    requires HostSaved(env, c, Some(name), w)
    requires StagePassed(env, runtimeCapable, settings, c, name, env(w.tick).saved.value.path, w)
    ensures var path := env(w.tick).saved.value.path;
            var out, staged := SaveRun(env, runtimeCapable, settings, c, Some(name), w), BeforeFinalWrite(env, runtimeCapable, settings, c, name, path, w);
            var written := AfterFinalWrite(env, c, staged);
            var wait := Await(env, Job(path, name, Some(Marshal(c)), c.disabled), settings, written);
            MayWrite(env, name, path, staged) ==>
              out == if !runtimeCapable then SaveOutcome(SavedAt(name, path), written)
                     else if wait.ending.Stable? then SaveOutcome(SavedAt(name, path), wait.w)
                     else SaveOutcome(FinalUnstable, wait.w)
  {
    hide IsValid, TrimSpace, Base, Marshal, Staged, Await, Step, Current;
    PlainWrites(env, c, w);
    ParsedPayload(c);
  }

  lemma ParsedPayload(c: Credential)
    ensures Marshal(c).Parsed?
  {
  }

  /**
   On a host without runtime records a complete credential is saved exactly when
   the host saves it under its name, the file is found regular and the write
   goes through; both payloads are then written, one after the other.
   */
  lemma PlainHostSaves(env: Environment, settings: Settings, c: Credential, name: string, w: World)
    requires IsValid(c) && env(w.tick).writeWorks
    ensures var out, reply, saved := SaveRun(env, false, settings, c, Some(name), w), env(w.tick).saved, AfterAuthSave(env, c, w);
            && (out.exit.SavedAt? <==>
                  reply.Some? && TrimSpace(reply.value.name) == name && MayWrite(env, name, reply.value.path, saved))
            && (out.exit.SavedAt? ==>
                  && out.exit == SavedAt(name, reply.value.path)
                  && Current(out.w).Regular? && Current(out.w).document == Marshal(c)
                  && out.w.writes == w.writes + [Marshal(Staged(c)), Marshal(c)])
  {
    hide IsValid, TrimSpace, Marshal, Staged, Await, MayWrite;
    StoppedBeforeFinalWrite(env, false, settings, c, name, w);
    if HostSaved(env, c, Some(name), w) {
      InspectionGuardsFinalWrite(env, false, settings, c, name, w);
      FinalWriteLands(env, false, settings, c, name, w);
    }
  }
}
