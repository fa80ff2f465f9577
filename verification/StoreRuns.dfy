/** What every run over the auth directory keeps, and how a save is part of one. */
module StoreRuns {
  import opened Text
  import opened Platform
  import opened OwnedNames
  import opened Credentials
  import opened Lifecycle
  import opened Decisions
  import opened Resolver
  import opened SaveProtocol
  import opened StoreProtocol
  import opened Principal

  ghost predicate IsRun(s: State, actions: seq<Action>)
    decreases |actions|
  {
    hide Enabled, Apply;
    actions == [] || (Enabled(s, actions[0]) && IsRun(Apply(s, actions[0]), actions[1..]))
  }

  ghost function After(s: State, actions: seq<Action>): State
    requires IsRun(s, actions)
    decreases |actions|
  {
    hide Enabled, Apply;
    if actions == [] then s else After(Apply(s, actions[0]), actions[1..])
  }

  /** Every sound directory, an empty one in particular, is a state runs may start from. */
  lemma SoundDirectoryStarts(files: Files)
    ensures Inv(State(files, None, map[])) <==> StoreOk(files)
    ensures StoreOk(map[])
  {
    hide FileOwner, ParseOwnedFile, PrincipalHash;
  }

  /**
   Whatever the interleaving, and wherever saves stop: names stay bound to the
   principals in the files, no principal gets a second file, names stay distinct
   up to case, and only the mutex holder is inside a handler.
   */
  lemma {:induction false} RunKeepsStore(s: State, actions: seq<Action>)
    requires Inv(s) && IsRun(s, actions)
    ensures Inv(After(s, actions))
    decreases |actions|
  {
    hide Inv, Enabled, Apply;
    if actions != [] {
      StepKeepsInv(s, actions[0]);
      RunKeepsStore(Apply(s, actions[0]), actions[1..]);
    }
  }

  predicate TouchedByOthers(action: Action, name: string) {
    match action
    case Remove(n) => n == name
    case Outside(n, _) => n == name
    case Intrude(n, _) => n == name
    case Garble(n, _) => n == name
    case Restore(n, _) => n == name
    case Republish(_, n, _) => n == name
    case Corrupt(n, _) => n == name
    case _ => false
  }

  /** The file is nobody's plugin file, and a request in progress, if any, is not about to take it for its own. */
  ghost predicate NobodysFile(s: State, name: string) {
    && name in s.files && FileOwner(name, s.files[name]).None?
    && (forall id | id in s.phases :: SeenAsNobodys(s.phases[id], name))
  }

  ghost predicate SeenAsNobodys(phase: Phase, name: string) {
    match phase
    case Locked => true
    case Planned(_, _) => true
    case Listed(c, _, view, snapshot) =>
      IsOwnedFile(name) ==>
        && view.files.Some? && (name in snapshot || name != CanonicalName(c))
        && (forall entry | entry in view.files.value && IsListed(entry) && TrimSpace(entry.name) == name
                           && TrimSpace(entry.authIndex) in view.physical ::
              ContentOwner(name, view.physical[TrimSpace(entry.authIndex)].document).None?)
    case Resolved(_, target) => target != name
    case Published(_, target) => target != name
  }

  /** A file that is nobody's plugin file keeps its exact content through every run of the plugin. */
  lemma {:induction false} ForeignFilesUntouched(s: State, actions: seq<Action>, name: string)
    requires Inv(s) && IsRun(s, actions)
    requires NobodysFile(s, name)
    requires forall action | action in actions :: !TouchedByOthers(action, name)
    ensures var end := After(s, actions); name in end.files && end.files[name] == s.files[name]
    decreases |actions|
  {
    hide Inv, Enabled, Apply, NobodysFile;
    if actions != [] {
      StepKeepsInv(s, actions[0]);
      ForeignSurvivesStep(s, actions[0], name);
      ForeignFilesUntouched(Apply(s, actions[0]), actions[1..], name);
    } else {
      assert name in s.files by {
        IsThere(s, name);
      }
    }
  }

  lemma IsThere(s: State, name: string)
    requires NobodysFile(s, name)
    ensures name in s.files
  {
    hide SeenAsNobodys, FileOwner;
  }

  /** While no request is in progress, every file that is nobody's is one `ForeignFilesUntouched` speaks of. */
  lemma IdleMeansUnseen(s: State, name: string)
    requires Inv(s) && s.mutex.None?
    ensures NobodysFile(s, name) <==> name in s.files && FileOwner(name, s.files[name]).None?
  {
    hide FileOwner, StoreOk, PhaseOk;
  }

  lemma ForeignSurvivesStep(s: State, action: Action, name: string)
    requires Inv(s) && Enabled(s, action) && !TouchedByOthers(action, name)
    requires NobodysFile(s, name)
    ensures var next := Apply(s, action);
            NobodysFile(next, name) && name in s.files && name in next.files && next.files[name] == s.files[name]
  {
    hide FileOwner, ContentOwner, Unreadable, StoreOk, Resolution, Marshal, ImportPlan, RevalidationPlan,
         RevalidationTarget, ListsAll, IsValid, PrincipalHash, ParseOwnedFile, TrimSpace, KeepsClear, FirstFile, PhaseOk,
         IsListed, PhysicalName, IsOwnedFile, CanonicalName;
    ContentDecides(name, s.files[name]);
    if action.Choose? {
      var seen := s.phases[action.id];
      if Resolution(seen.view, seen.c, seen.preferred).Some? {
        PhaseHolds(s, action.id);
        ChosenIsNotNobodys(seen.view, seen.snapshot, s.files, seen.c, seen.preferred, name);
      }
    }
  }

  lemma PhaseHolds(s: State, id: nat)
    requires Inv(s) && id in s.phases && s.phases[id].Listed?
    ensures var seen := s.phases[id]; IsValid(seen.c) && Observed(seen.view, seen.snapshot, s.files, seen.c)
  {
    hide IsValid, Observed, StoreOk;
  }

  lemma ChosenIsNotNobodys(view: HostView, snapshot: Files, files: Files, c: Credential, preferred: string, name: string)
    requires Observed(view, snapshot, files, c) && IsValid(c)
    requires SeenAsNobodys(Listed(c, preferred, view, snapshot), name)
    requires Resolution(view, c, preferred).Some?
    ensures Resolution(view, c, preferred).value != name
  {
    hide FileOwner, ContentOwner, ParseOwnedFile, IsValid, CanonicalName, PrincipalHash, IsSafeAuthFileName, Judge, Occupies,
         TrimSpace, Lower, StoreOk, Drifted, ListsAll, Witnessed;
    var mine := MineNames(view, view.files.value, c);
    ValidHasIdentifiers(c);
    ResolvedNameIsBound(view, c, preferred);
    if Resolution(view, c, preferred).value == name {
      if name in mine {
        var entry := MineEntry(view, snapshot, files, c, name);
        assert false;
      } else {
        NewNameIsFree(view, snapshot, files, c);
      }
    }
  }

  /** Once a request has chosen the name of such a file, the file is lost with the request's next write. */
  lemma ChosenFileIsOverwritten(s: State, id: nat, action: Action)
    requires Inv(s) && id in s.phases && (s.phases[id].Resolved? || s.phases[id].Published?)
    requires var name := s.phases[id].name; name in s.files && FileOwner(name, s.files[name]).None?
    requires Enabled(s, action) && (action == WriteStaging(id) || action == WriteFinal(id))
    ensures var name, next := s.phases[id].name, Apply(s, action);
            !NobodysFile(s, name) && name in next.files && next.files[name] != s.files[name]
  {
    hide FileOwner, Marshal, Staged, Inv, IsValid, OwnerOf, Claim;
    PhaseClaims(s, id);
    SavedFileOwner(s.phases[id].c, s.phases[id].name);
    assert !SeenAsNobodys(s.phases[id], s.phases[id].name);
  }

  /** The action writes a file for this principal. */
  ghost predicate WritesFor(s: State, action: Action, owner: Owner) {
    && (action.WriteStaging? || action.WriteFinal?)
    && Enabled(s, action) && OwnerOf(s.phases[action.id].c) == owner
  }

  /** Along the run no request writes for `owner`, and nobody else touches `name`. */
  ghost predicate LeftAlone(s: State, actions: seq<Action>, owner: Owner, name: string)
    requires IsRun(s, actions)
    decreases |actions|
  {
    hide Enabled, Apply;
    actions == []
    || (&& !WritesFor(s, actions[0], owner) && !TouchedByOthers(actions[0], name)
        && LeftAlone(Apply(s, actions[0]), actions[1..], owner, name))
  }

  /**
   A principal's file keeps its exact content over every run in which no request
   writes for that principal, whoever else imports, revalidates or is refused.
   */
  lemma {:induction false} OtherPrincipalsUntouched(s: State, actions: seq<Action>, name: string, owner: Owner)
    requires Inv(s) && IsRun(s, actions)
    requires BelongsTo(s.files, name, owner) && LeftAlone(s, actions, owner, name)
    ensures var end := After(s, actions); name in end.files && end.files[name] == s.files[name]
    decreases |actions|
  {
    hide Inv, Enabled, Apply, FileOwner, WritesFor;
    if actions != [] {
      StepKeepsInv(s, actions[0]);
      ContentSurvivesStep(s, actions[0], name, owner);
      OtherPrincipalsUntouched(Apply(s, actions[0]), actions[1..], name, owner);
    }
  }

  lemma ContentSurvivesStep(s: State, action: Action, name: string, owner: Owner)
    requires Inv(s) && Enabled(s, action) && BelongsTo(s.files, name, owner)
    requires !WritesFor(s, action, owner) && !TouchedByOthers(action, name)
    ensures var next := Apply(s, action);
            BelongsTo(next.files, name, owner) && next.files[name] == s.files[name]
  {
    hide FileOwner, StoreOk, Resolution, Marshal, ImportPlan, RevalidationPlan, RevalidationTarget, Returned,
         ListsAll, Observed, IsValid, PrincipalHash, ParseOwnedFile, TrimSpace, KeepsClear, FirstFile, OwnerOf;
  }

  /** The name a request in progress is about to write, or is writing, for a principal. */
  ghost predicate Targets(s: State, id: nat, owner: Owner, name: string) {
    && id in s.phases
    && (s.phases[id].Resolved? || s.phases[id].Published?)
    && OwnerOf(s.phases[id].c) == owner && s.phases[id].name == name
  }

  predicate Destroys(action: Action, name: string) {
    match action
    case Remove(n) => n == name
    case Corrupt(n, _) => n == name
    case _ => false
  }

  /**
   Once a principal has a file, and as long as nobody removes or corrupts it, the
   file stays that principal's and every import or revalidation for the principal
   writes that same name, whatever email or plan it now carries.
   */
  lemma {:induction false} NameIsStable(s: State, actions: seq<Action>, name: string, owner: Owner)
    requires Inv(s) && IsRun(s, actions)
    requires BelongsTo(s.files, name, owner)
    requires forall action | action in actions :: !Destroys(action, name)
    ensures var end := After(s, actions);
            && BelongsTo(end.files, name, owner)
            && forall id, target | Targets(end, id, owner, target) :: target == name
    decreases |actions|
  {
    hide Inv, Enabled, Apply, FileOwner;
    if actions != [] {
      StepKeepsInv(s, actions[0]);
      OwnerSurvivesStep(s, actions[0], name, owner);
      NameIsStable(Apply(s, actions[0]), actions[1..], name, owner);
    } else {
      TargetIsTheName(s, name, owner);
    }
  }

  lemma TargetIsTheName(s: State, name: string, owner: Owner)
    requires Inv(s) && BelongsTo(s.files, name, owner)
    ensures forall id, target | Targets(s, id, owner, target) :: target == name
  {
    hide FileOwner, StoreOk, IsValid, Observed, PrincipalHash, ParseOwnedFile, Lower;
  }

  lemma OwnerSurvivesStep(s: State, action: Action, name: string, owner: Owner)
    requires Inv(s) && Enabled(s, action) && BelongsTo(s.files, name, owner) && !Destroys(action, name)
    ensures BelongsTo(Apply(s, action).files, name, owner)
  {
    hide FileOwner, StoreOk, Resolution, Marshal, ImportPlan, RevalidationPlan, RevalidationTarget, PrincipalHash,
         ParseOwnedFile, Returned, ListsAll, Observed, IsValid, KeepsClear, FirstFile, TrimSpace, Lower, OwnerOf;
    OnlyPluginNamesAreOwned();
    if action.Garble? || action.Restore? {
      WatcherGivesNothing(s.files, action);
    }
    if action.Republish? {
      PhaseClaims(s, action.id);
      ContentDecides(action.name, Whole(action.document));
    }
    if action.WriteStaging? || action.WriteFinal? {
      PhaseClaims(s, action.id);
      SavedFileOwner(s.phases[action.id].c, s.phases[action.id].name);
    }
  }

  lemma PhaseClaims(s: State, id: nat)
    requires Inv(s) && id in s.phases && (s.phases[id].Resolved? || s.phases[id].Published?)
    ensures var c, name := s.phases[id].c, s.phases[id].name; IsValid(c) && Claim(s.files, c, name) && IsOwnedFile(name)
  {
    hide IsValid, Observed, StoreOk, FileOwner, PrincipalHash, ParseOwnedFile, TrimSpace, Lower;
    ClaimedNameIsOwned(s.files, s.phases[id].c, s.phases[id].name);
  }

  // ---------- an unreadable file ----------

  ghost predicate IsUnreadable(files: Files, name: string, owner: Owner) {
    BelongsTo(files, name, owner) && Unreadable(files[name].document)
  }

  /** The principal's file cannot be read, and no request for the principal has got past it. */
  ghost predicate Blocked(s: State, name: string, owner: Owner) {
    IsUnreadable(s.files, name, owner) && forall id | id in s.phases :: HeldUp(s.phases[id], name, owner)
  }

  ghost predicate HeldUp(phase: Phase, name: string, owner: Owner) {
    match phase
    case Locked => true
    case Planned(_, _) => true
    case Listed(c, _, view, _) =>
      OwnerOf(c) == owner ==>
        && view.files.Some? && Lists(view.files.value, name)
        && (forall entry | entry in view.files.value && IsListed(entry) && TrimSpace(entry.name) == name
                           && TrimSpace(entry.authIndex) in view.physical ::
              Unreadable(view.physical[TrimSpace(entry.authIndex)].document))
    case Resolved(c, _) => OwnerOf(c) != owner
    case Published(c, _) => OwnerOf(c) != owner
  }

  /** The file is given content again, or is gone. */
  predicate Unblocks(action: Action, name: string) {
    match action
    case Remove(n) => n == name
    case Restore(n, _) => n == name
    case Corrupt(n, _) => n == name
    case _ => false
  }

  /**
   While a principal's file cannot be read, every request for the principal is
   refused before it writes, under whatever name: over every run in which nobody
   repairs, replaces or removes the file it stays unreadable and the principal's,
   and no request gets as far as a name for that principal.
   */
  lemma {:induction false} UnreadableFileBlocksSaves(s: State, actions: seq<Action>, name: string, owner: Owner)
    requires Inv(s) && IsRun(s, actions) && Blocked(s, name, owner)
    requires forall action | action in actions :: !Unblocks(action, name)
    ensures var end := After(s, actions);
            IsUnreadable(end.files, name, owner) && forall id, target :: !Targets(end, id, owner, target)
    decreases |actions|
  {
    hide Inv, Enabled, Apply, Blocked;
    if actions != [] {
      StepKeepsInv(s, actions[0]);
      BlockedStep(s, actions[0], name, owner);
      UnreadableFileBlocksSaves(Apply(s, actions[0]), actions[1..], name, owner);
    } else {
      BlockedMeansNoTarget(s, name, owner);
    }
  }

  lemma BlockedMeansNoTarget(s: State, name: string, owner: Owner)
    requires Blocked(s, name, owner)
    ensures IsUnreadable(s.files, name, owner) && forall id, target :: !Targets(s, id, owner, target)
  {
    hide FileOwner, Unreadable, OwnerOf;
  }

  /** While no request is in progress, every unreadable file of a principal blocks its saves. */
  lemma IdleMeansBlocked(s: State, name: string, owner: Owner)
    requires Inv(s) && s.mutex.None?
    ensures Blocked(s, name, owner) <==> IsUnreadable(s.files, name, owner)
  {
    hide FileOwner, Unreadable, StoreOk, PhaseOk;
  }

  lemma BlockedStep(s: State, action: Action, name: string, owner: Owner)
    requires Inv(s) && Enabled(s, action) && Blocked(s, name, owner) && !Unblocks(action, name)
    ensures Blocked(Apply(s, action), name, owner)
  {
    hide FileOwner, ContentOwner, Unreadable, StoreOk, Resolution, Marshal, ImportPlan, RevalidationPlan,
         RevalidationTarget, IsValid, PrincipalHash, ParseOwnedFile, TrimSpace, KeepsClear, FirstFile, PhaseOk,
         IsListed, PhysicalName, IsOwnedFile, OwnerOf, Lower;
    if action.Choose? {
      var seen := s.phases[action.id];
      PhaseHolds(s, action.id);
      if OwnerOf(seen.c) == owner {
        UnreadableFileRefuses(seen.view, seen.snapshot, s.files, seen.c, seen.preferred, name);
      }
    }
    if action.Garble? {
      WatcherGivesNothing(s.files, action);
    }
    if action.WriteStaging? || action.WriteFinal? || action.Republish? {
      PhaseClaims(s, action.id);
    }
    OnlyPluginNamesAreOwned();
  }

  /** A request that found its principal's file unreadable, or did not get it, is refused. */
  lemma UnreadableFileRefuses(view: HostView, snapshot: Files, files: Files, c: Credential, preferred: string, name: string)
    requires Observed(view, snapshot, files, c) && IsValid(c) && BelongsTo(files, name, OwnerOf(c))
    requires HeldUp(Listed(c, preferred, view, snapshot), name, OwnerOf(c))
    ensures Resolution(view, c, preferred).None?
  {
    hide FileOwner, ContentOwner, Unreadable, IsValid, ParseOwnedFile, CanonicalName, PrincipalHash, IsSafeAuthFileName,
         OneFileEach, NamesDistinct, ListsAll, TrimSpace, JudgeFile, OwnerOf, Newcomer;
    var entry := EntryOf(view, snapshot, files, c, name, OwnerOf(c));
    BoundToTrimmed(name, c);
    if TrimSpace(entry.authIndex) in view.physical {
      var physical := view.physical[TrimSpace(entry.authIndex)];
      assert Witnessed(entry, physical, snapshot, files);
      UnreadableIsRefused(name, physical.document, c);
    }
    assert Judge(view, entry, c).Refused?;
    assert AnyRefused(view, view.files.value, c);
  }

  // ---------- a save among the steps ----------

  ghost predicate OnlyOthers(actions: seq<Action>) {
    forall action | action in actions :: IsOther(action)
  }

  predicate IsOther(action: Action) {
    action.Remove? || action.Garble? || action.Restore? || action.Republish? || action.Corrupt? || action.Outside? || action.Intrude?
  }

  /** What request `id` writes along a run. */
  ghost function WrittenBy(s: State, actions: seq<Action>, id: nat): seq<Document>
    requires IsRun(s, actions)
    decreases |actions|
  {
    hide Apply;
    if actions == [] then []
    else
      (if actions[0] == WriteStaging(id) then [Marshal(Staged(s.phases[id].c))]
       else if actions[0] == WriteFinal(id) then [Marshal(s.phases[id].c)]
       else [])
      + WrittenBy(Apply(s, actions[0]), actions[1..], id)
  }

  lemma {:induction false} OthersKeepRequests(s: State, actions: seq<Action>, id: nat)
    requires IsRun(s, actions) && OnlyOthers(actions)
    ensures After(s, actions).phases == s.phases && WrittenBy(s, actions, id) == []
    decreases |actions|
  {
    hide Enabled, Marshal, Staged;
    if actions != [] {
      assert IsOther(actions[0]);
      OthersKeepRequests(Apply(s, actions[0]), actions[1..], id);
    }
  }

  lemma {:induction false} RunsJoin(s: State, first: seq<Action>, second: seq<Action>, id: nat)
    requires IsRun(s, first) && IsRun(After(s, first), second)
    ensures IsRun(s, first + second) && After(s, first + second) == After(After(s, first), second)
    ensures WrittenBy(s, first + second, id) == WrittenBy(s, first, id) + WrittenBy(After(s, first), second, id)
    decreases |first|
  {
    hide Enabled, Apply, Marshal, Staged;
    if first == [] {
      assert first + second == second;
    } else {
      assert (first + second)[1..] == first[1..] + second;
      RunsJoin(Apply(s, first[0]), first[1..], second, id);
    }
  }

  lemma EmptyRun(s: State, id: nat)
    ensures IsRun(s, []) && After(s, []) == s && WrittenBy(s, [], id) == []
  {
  }

  /** The next write of a publication is possible, and the rest is a publication from there. */
  lemma PublicationStep(s: State, id: nat, writes: seq<Document>) returns (write: Action)
    requires Inv(s) && id in s.phases && (s.phases[id].Resolved? || s.phases[id].Published?) && writes != []
    requires IsPublication(writes, Marshal(Staged(s.phases[id].c)), Marshal(s.phases[id].c))
    requires s.phases[id].Published? ==> writes[0] == Marshal(s.phases[id].c)
    ensures write == if writes[0] == Marshal(s.phases[id].c) then WriteFinal(id) else WriteStaging(id)
    ensures IsRun(s, [write]) && WrittenBy(s, [write], id) == [writes[0]] && After(s, [write]) == AfterWrite(s, id, writes[0])
    ensures var phase, next := s.phases[id], After(s, [write]);
            && Inv(next) && next.phases == s.phases[id := Published(phase.c, phase.name)]
            && phase.name in next.files && next.files[phase.name] == Whole(writes[0])
            && IsPublication(writes[1..], Marshal(Staged(phase.c)), Marshal(phase.c))
            && (|writes| > 1 ==> writes[1] == Marshal(phase.c))
  {
    hide Inv, Marshal, Staged;
    write := if writes[0] == Marshal(s.phases[id].c) then WriteFinal(id) else WriteStaging(id);
    StepKeepsInv(s, write);
    var next := Apply(s, write);
    assert [write][1..] == [];
    assert IsRun(next, []) && After(next, []) == next;
  }

  /** The state after a write of request `id`. */
  ghost function AfterWrite(s: State, id: nat, document: Document): State {
    if id in s.phases && (s.phases[id].Resolved? || s.phases[id].Published?) then
      var c, name := s.phases[id].c, s.phases[id].name;
      s.(files := s.files[name := Whole(document)], phases := s.phases[id := Published(c, name)])
    else s
  }

  /** One run of the watcher and other software before each of the writes. */
  ghost predicate Interferes(s: State, id: nat, writes: seq<Document>, others: seq<seq<Action>>)
    decreases |writes|
  {
    && |others| == |writes|
    && (writes != [] ==>
          && IsRun(s, others[0]) && OnlyOthers(others[0])
          && Interferes(AfterWrite(After(s, others[0]), id, writes[0]), id, writes[1..], others[1..]))
  }

  ghost function Woven(id: nat, final: Document, writes: seq<Document>, others: seq<seq<Action>>): seq<Action>
    requires |others| == |writes|
  {
    if writes == [] then []
    else others[0] + ([if writes[0] == final then WriteFinal(id) else WriteStaging(id)] + Woven(id, final, writes[1..], others[1..]))
  }

  /**
   The writes of any one save, staged publication as `SaveProtocol` proves them,
   are steps of this protocol whatever the watcher and other software do before
   each of them, and leave the last one in the file.
   */
  lemma {:induction false} PublicationIsRun(s: State, id: nat, writes: seq<Document>, others: seq<seq<Action>>)
    requires Inv(s) && id in s.phases && (s.phases[id].Resolved? || s.phases[id].Published?)
    requires IsPublication(writes, Marshal(Staged(s.phases[id].c)), Marshal(s.phases[id].c))
    requires s.phases[id].Published? && writes != [] ==> writes[0] == Marshal(s.phases[id].c)
    requires Interferes(s, id, writes, others)
    ensures var actions, name := Woven(id, Marshal(s.phases[id].c), writes, others), s.phases[id].name;
            && IsRun(s, actions) && WrittenBy(s, actions, id) == writes
            && (writes != [] ==> name in After(s, actions).files && After(s, actions).files[name] == Whole(writes[|writes| - 1]))
    decreases |writes|
  {
    hide Inv, Marshal, Staged, IsRun, After, WrittenBy, IsPublication, OnlyOthers;
    if writes == [] {
      EmptyRun(s, id);
    } else {
      var before := others[0];
      var mid := After(s, before);
      RunKeepsStore(s, before);
      OthersKeepRequests(s, before, id);
      var write := PublicationStep(mid, id, writes);
      var next := After(mid, [write]);
      PublicationIsRun(next, id, writes[1..], others[1..]);
      var rest := Woven(id, Marshal(s.phases[id].c), writes[1..], others[1..]);
      EmptyRun(next, id);
      assert writes == [writes[0]] + writes[1..];
      RunsJoin(mid, [write], rest, id);
      RunsJoin(s, before, [write] + rest, id);
    }
  }

  /**
   Why other software must keep out while a request is in progress: a file that
   is nobody's, created under a new name after a request has resolved to it, is
   overwritten unseen by the request's next step.
   */
  lemma LateFileIsOverwritten(s: State, id: nat, file: Stored)
    requires Inv(s) && id in s.phases && s.phases[id].Resolved?
    requires s.phases[id].name !in s.files && FileOwner(s.phases[id].name, file).None?
    ensures var name := s.phases[id].name;
            var actions := [Intrude(name, file), WriteStaging(id)];
            && IsRun(s, actions[..1]) && After(s, actions[..1]).files == s.files[name := file]
            && IsRun(s, actions)
            && After(s, actions).files == s.files[name := Whole(Marshal(Staged(s.phases[id].c)))]
            && Whole(Marshal(Staged(s.phases[id].c))) != file
  {
    hide Marshal, Staged, FileOwner, StoreOk, IsValid, ParseOwnedFile, PrincipalHash, OwnerOf, TrimSpace, Lower;
    var c, name := s.phases[id].c, s.phases[id].name;
    var actions := [Intrude(name, file), WriteStaging(id)];
    PhaseClaims(s, id);
    SavedFileOwner(c, name);
    forall other | other in s.files
      ensures !EqualFold(other, name)
    {
    }
    var intruded := s.(files := s.files[name := file]);
    assert Enabled(s, actions[0]) && Apply(s, actions[0]) == intruded;
    assert Enabled(intruded, actions[1]);
    var end := Apply(intruded, actions[1]);
    assert intruded.files[name := Whole(Marshal(Staged(c)))] == s.files[name := Whole(Marshal(Staged(c)))];
    assert actions[1..] == [actions[1]] && [actions[1]][1..] == [] && actions[..1] == [actions[0]] && [actions[0]][1..] == [];
    EmptyRun(intruded, id);
    EmptyRun(end, id);
    assert IsRun(intruded, [actions[1]]) && After(intruded, [actions[1]]) == end;
  }
}
