/**
 The two views of a save are one: the file history of a run against an
 environment is a run of the auth directory, state by state.
 */
module SaveInStore {
  import opened Text
  import opened Platform
  import opened OwnedNames
  import opened Credentials
  import opened Lifecycle
  import opened Watcher
  import opened SaveProtocol
  import opened StoreProtocol
  import opened StoreRuns

  // ---------- a file history, told apart by who wrote ----------

  datatype Event = ByHost(file: FileState) | ByPlugin(document: Document, stamp: Time)

  function StateOf(event: Event): FileState {
    match event
    case ByHost(file) => file
    case ByPlugin(document, stamp) => Regular(document, stamp)
  }

  function States(events: seq<Event>): seq<FileState> {
    seq(|events|, i requires 0 <= i < |events| => StateOf(events[i]))
  }

  /** The documents the plugin wrote. */
  function Docs(events: seq<Event>): seq<Document> {
    if events == [] then []
    else (if events[0].ByPlugin? then [events[0].document] else []) + Docs(events[1..])
  }

  lemma FirstDoc(events: seq<Event>)
    requires events != []
    ensures Docs(events) == if events[0].ByPlugin? then [events[0].document] + Docs(events[1..]) else Docs(events[1..])
  {
  }

  lemma {:induction false} DocsJoin(first: seq<Event>, second: seq<Event>)
    ensures Docs(first + second) == Docs(first) + Docs(second)
  {
    hide Docs;
    var both := first + second;
    NoDocs();
    if first == [] {
      assert both == second;
    } else {
      assert both[0] == first[0] && both[1..] == first[1..] + second;
      FirstDoc(first);
      FirstDoc(both);
      DocsJoin(first[1..], second);
      if first[0].ByPlugin? {
        var document := [first[0].document];
        assert (document + Docs(first[1..])) + Docs(second) == document + (Docs(first[1..]) + Docs(second));
      }
    }
  }

  lemma NoDocs()
    ensures Docs([]) == []
  {
  }

  /** What happened to the file from `w` to `w'`, the host installing files of `hosts` only. */
  ghost predicate History(w: World, w': World, hosts: iset<FileState>, events: seq<Event>) {
    && w'.log == w.log + States(events) && w'.writes == w.writes + Docs(events)
    && forall event | event in events && event.ByHost? :: event.file in hosts
  }

  ghost predicate Unfolds(w: World, w': World, hosts: iset<FileState>) {
    exists events :: History(w, w', hosts, events)
  }

  ghost predicate InstallsWithin(env: Environment, hosts: iset<FileState>) {
    forall tick: nat, file | file in env(tick).installs :: file in hosts
  }

  lemma SelfUnfolds(w: World, hosts: iset<FileState>)
    ensures Unfolds(w, w, hosts)
  {
    assert History(w, w, hosts, []);
  }

  lemma {:induction false} HostDocs(files: seq<FileState>) returns (events: seq<Event>)
    ensures States(events) == files && Docs(events) == [] && forall event | event in events :: event.ByHost? && event.file in files
    decreases |files|
  {
    events := [];
    if files != [] {
      var rest := HostDocs(files[1..]);
      events := [ByHost(files[0])] + rest;
      assert events[1..] == rest;
    }
  }

  lemma EventsOn(start: World, w: World, w': World, hosts: iset<FileState>, more: seq<Event>)
    requires Unfolds(start, w, hosts) && History(w, w', hosts, more)
    ensures Unfolds(start, w', hosts)
  {
    hide Docs;
    var events :| History(start, w, hosts, events);
    DocsJoin(events, more);
    assert States(events + more) == States(events) + States(more);
    assert History(start, w', hosts, events + more);
  }

  lemma StepOn(env: Environment, hosts: iset<FileState>, start: World, w: World)
    requires InstallsWithin(env, hosts) && Unfolds(start, w, hosts)
    ensures Unfolds(start, Step(env, w), hosts)
  {
    hide Unfolds, Docs;
    var events := HostDocs(env(w.tick).installs);
    assert History(w, Step(env, w), hosts, events);
    EventsOn(start, w, Step(env, w), hosts, events);
  }

  lemma WriteOn(hosts: iset<FileState>, start: World, w: World, document: Document, stamp: Time)
    requires Unfolds(start, w, hosts)
    ensures Unfolds(start, Write(w, document, stamp), hosts)
  {
    hide Unfolds;
    var events := [ByPlugin(document, stamp)];
    assert events[1..] == [] && Docs(events) == [document] + Docs([]);
    assert States(events) == [Regular(document, stamp)];
    assert History(w, Write(w, document, stamp), hosts, events);
    EventsOn(start, w, Write(w, document, stamp), hosts, events);
  }

  lemma LaterOn(hosts: iset<FileState>, start: World, w: World, duration: nat)
    requires Unfolds(start, w, hosts)
    ensures Unfolds(start, Later(w, duration), hosts)
  {
    var events :| History(start, w, hosts, events);
    assert History(start, Later(w, duration), hosts, events);
  }

  lemma RewriteOn(env: Environment, hosts: iset<FileState>, start: World, job: Job, document: Document, w: World)
    requires InstallsWithin(env, hosts) && Unfolds(start, w, hosts)
    ensures Unfolds(start, Rewrite(env, job, document, w).0, hosts)
  {
    hide InstallsWithin, Unfolds, PathOk, Step, Current, Write;
    var inspected := Step(env, w);
    var replacing := Step(env, inspected);
    StepOn(env, hosts, start, w);
    StepOn(env, hosts, start, inspected);
    WriteOn(hosts, start, replacing, document, env(inspected.tick).stamp);
  }

  lemma ConfirmOn(env: Environment, hosts: iset<FileState>, start: World, job: Job, w: World, window: Window, index: string)
    requires window.Window? && InstallsWithin(env, hosts) && Unfolds(start, w, hosts)
    ensures Unfolds(start, Confirm(env, job, w, window, index).w, hosts)
  {
    hide InstallsWithin, Unfolds, Step, Current, ContentOk, Ready, Lookup;
    var statted := Step(env, w);
    var read := Step(env, statted);
    StepOn(env, hosts, start, w);
    StepOn(env, hosts, start, statted);
    StepOn(env, hosts, start, read);
  }

  lemma ObserveOn(env: Environment, hosts: iset<FileState>, start: World, job: Job, stableWindow: nat, w: World, window: Window, modTime: Time)
    requires InstallsWithin(env, hosts) && Unfolds(start, w, hosts)
    ensures Unfolds(start, Observe(env, job, stableWindow, w, window, modTime).w, hosts)
  {
    hide InstallsWithin, Unfolds, Step, Confirm, IndexFor, Ready, Lookup;
    var listed := Step(env, w);
    var asked := Step(env, listed);
    var timed := Step(env, asked);
    StepOn(env, hosts, start, w);
    StepOn(env, hosts, start, listed);
    StepOn(env, hosts, start, asked);
    var index := IndexFor(env(w.tick).list, job.fileName);
    if index.Some? {
      ConfirmOn(env, hosts, start, job, timed, Opened(window, timed.clock, modTime), index.value);
    }
  }

  lemma PollOn(env: Environment, hosts: iset<FileState>, start: World, job: Job, stableWindow: nat, w: World, window: Window)
    requires InstallsWithin(env, hosts) && Unfolds(start, w, hosts)
    ensures Unfolds(start, Poll(env, job, stableWindow, w, window).w, hosts)
  {
    hide InstallsWithin, Unfolds, Step, Current, PathOk, CredentialPayloadEqual, Observe, Rewrite;
    var statted := Step(env, w);
    var read := Step(env, statted);
    StepOn(env, hosts, start, w);
    StepOn(env, hosts, start, statted);
    if Current(statted).Regular? {
      ObserveOn(env, hosts, start, job, stableWindow, read, window, Current(statted).modTime);
    }
    if job.desired.Some? {
      RewriteOn(env, hosts, start, job, job.desired.value, read);
    }
  }

  lemma {:induction false} AwaitOn(
    env: Environment, hosts: iset<FileState>, start: World, job: Job, settings: Settings, deadline: nat, w: World, window: Window)
    requires InstallsWithin(env, hosts) && Unfolds(start, w, hosts)
    ensures Unfolds(start, AwaitFrom(env, job, settings, deadline, w, window).w, hosts)
    decreases if w.clock > deadline then 0 else deadline - w.clock + 1
  {
    hide InstallsWithin, Unfolds, Poll, StableWindow, PollInterval;
    PollExtends(env, job, StableWindow(settings), w, window);
    PollOn(env, hosts, start, job, StableWindow(settings), w, window);
    match Poll(env, job, StableWindow(settings), w, window) {
      case PollAgain(w', window') =>
        var checked := Step(env, w');
        var woken := Step(env, checked);
        StepOn(env, hosts, start, w');
        StepOn(env, hosts, start, checked);
        LaterOn(hosts, start, woken, PollInterval(settings));
        if checked.clock <= deadline && !env(checked.tick).cancelled {
          AwaitOn(env, hosts, start, job, settings, deadline, Later(woken, PollInterval(settings)), window');
        }
      case _ =>
    }
  }

  lemma BarrierOn(env: Environment, hosts: iset<FileState>, start: World, runtimeCapable: bool, job: Job, settings: Settings, w: World)
    requires InstallsWithin(env, hosts) && Unfolds(start, w, hosts)
    ensures Unfolds(start, Barrier(env, runtimeCapable, job, settings, w).0, hosts)
  {
    hide InstallsWithin, Unfolds, AwaitFrom, Timeout;
    var started := Step(env, w);
    StepOn(env, hosts, start, w);
    AwaitOn(env, hosts, start, job, settings, started.clock + Timeout(settings), started, NoWindow);
  }

  /** A save changes the file by host installs and by its own writes, in some order, and in no other way. */
  lemma SaveUnfolds(env: Environment, hosts: iset<FileState>, runtimeCapable: bool, settings: Settings, c: Credential, resolution: Option<string>, w: World)
    requires InstallsWithin(env, hosts)
    ensures Unfolds(w, SaveRun(env, runtimeCapable, settings, c, resolution, w).w, hosts)
  {
    hide InstallsWithin, Unfolds, IsValid, Marshal, TrimSpace, Barrier, FinishSave, Step, Write;
    SelfUnfolds(w, hosts);
    if resolution.Some? {
      var name, move := resolution.value, env(w.tick);
      var (saved, reply) := AuthSave(env, Marshal(Staged(c)), w);
      StepOn(env, hosts, w, w);
      WriteOn(hosts, w, Step(env, w), Marshal(Staged(c)), move.stamp);
      if reply.Some? {
        var (staged, _) := Barrier(env, runtimeCapable, StageJob(name, reply.value.path), settings, saved);
        BarrierOn(env, hosts, w, runtimeCapable, StageJob(name, reply.value.path), settings, saved);
        FinishOn(env, hosts, w, runtimeCapable, settings, c, name, reply.value.path, staged);
      }
    }
  }

  lemma FinishOn(
    env: Environment, hosts: iset<FileState>, start: World, runtimeCapable: bool, settings: Settings, c: Credential, name: string, path: string, w: World)
    requires InstallsWithin(env, hosts) && Unfolds(start, w, hosts)
    ensures Unfolds(start, FinishSave(env, runtimeCapable, settings, c, name, path, w).w, hosts)
  {
    hide InstallsWithin, Unfolds, Marshal, Rewrite, Barrier;
    var job := FinalJob(c, name, path);
    RewriteOn(env, hosts, start, job, Marshal(c), w);
    BarrierOn(env, hosts, start, runtimeCapable, job, settings, Rewrite(env, job, Marshal(c), w).0);
  }

  // ---------- the same history as steps of the store ----------

  /** What a reader finds in the file; what lies behind an irregular one, if anything, is taken for its content. */
  function DocumentIn(file: FileState): Option<Document> {
    match file
    case Absent => None
    case Irregular(target) => Some(if target.Some? then target.value else Malformed)
    case Regular(document, _) => Some(document)
  }

  ghost predicate Agrees(files: Files, name: string, file: FileState) {
    match DocumentIn(file)
    case None => name !in files
    case Some(document) => name in files && files[name].document == document
  }

  /** The host writes the principal's own content, or what nobody can read or owns, but nobody else's credential. */
  ghost function HostFiles(c: Credential, name: string): iset<FileState> {
    iset file | IsHostFile(c, name, file)
  }

  predicate IsHostFile(c: Credential, name: string, file: FileState) {
    DocumentIn(file).Some? ==>
      var owner := ContentOwner(name, DocumentIn(file).value);
      owner.None? || owner == Some(OwnerOf(c))
  }

  ghost predicate Publishing(s: State, id: nat, c: Credential, name: string) {
    id in s.phases && (s.phases[id] == Resolved(c, name) || s.phases[id] == Published(c, name))
  }

  /** The step of the store, if any is needed, for one event of the history. */
  ghost function StepFor(s: State, id: nat, c: Credential, name: string, event: Event): seq<Action> {
    match event
    case ByPlugin(document, _) => [if document == Marshal(c) then WriteFinal(id) else WriteStaging(id)]
    case ByHost(file) =>
      match DocumentIn(file)
      case None => if name in s.files then [Remove(name)] else []
      case Some(document) =>
        if ContentOwner(name, document).Some? then [Republish(id, name, document)]
        else if name !in s.files then [Intrude(name, Whole(document))]
        else if Unreadable(document) then [Garble(name, document)]
        else [Corrupt(name, document)]
  }

  /** The store goes through the states of the file one after the other; a removal of a missing file is no step. */
  ghost predicate Visits(s: State, actions: seq<Action>, name: string, states: seq<FileState>)
    decreases |states|
  {
    if states == [] then actions == []
    else
      exists n: nat | n <= 1 && n <= |actions| ::
        && IsRun(s, actions[..n]) && Agrees(After(s, actions[..n]).files, name, states[0])
        && Visits(After(s, actions[..n]), actions[n..], name, states[1..])
  }

  ghost predicate SameElsewhere(files: Files, files': Files, name: string) {
    files - {name} == files' - {name}
  }

  /** What the request's claim on its name lets others do with it. */
  lemma ClaimedNameIsClear(s: State, id: nat, c: Credential, name: string)
    requires Inv(s) && Publishing(s, id, c, name)
    ensures IsValid(c) && IsOwnedFile(name)
    ensures name !in s.files ==> forall other | other in s.files :: !EqualFold(other, name)
    ensures forall other | other in s.phases :: KeepsClear(s.phases[other], name)
  {
    hide ContentOwner, FileOwner, IsValid, StoreOk, OwnerOf, Observed, TrimSpace, Lower, ParseOwnedFile;
    PhaseClaims(s, id);
  }

  lemma HostStepEnabled(s: State, id: nat, c: Credential, name: string, file: FileState)
    requires Inv(s) && Publishing(s, id, c, name) && IsHostFile(c, name, file)
    ensures var step := StepFor(s, id, c, name, ByHost(file));
            step != [] ==> |step| == 1 && IsOther(step[0]) && Enabled(s, step[0])
  {
    hide Inv, ContentOwner, Unreadable, IsValid, OwnerOf, KeepsClear, FirstFile, Returned, ListsAll, IsOwnedFile, Lower;
    ClaimedNameIsClear(s, id, c, name);
  }

  lemma HostStepAgrees(s: State, id: nat, c: Credential, name: string, file: FileState)
    requires var step := StepFor(s, id, c, name, ByHost(file)); step != [] ==> |step| == 1 && Enabled(s, step[0])
    ensures var step := StepFor(s, id, c, name, ByHost(file));
            if step == [] then Agrees(s.files, name, file)
            else
              var next := Apply(s, step[0]);
              Agrees(next.files, name, file) && SameElsewhere(s.files, next.files, name) && next.phases == s.phases
  {
    hide Enabled, ContentOwner, FileOwner, Unreadable;
  }

  lemma OneAction(s: State, action: Action, id: nat)
    requires Enabled(s, action)
    ensures IsRun(s, [action]) && After(s, [action]) == Apply(s, action)
    ensures IsOther(action) ==> WrittenBy(s, [action], id) == []
    ensures action == WriteStaging(id) ==> WrittenBy(s, [action], id) == [Marshal(Staged(s.phases[id].c))]
    ensures action == WriteFinal(id) ==> WrittenBy(s, [action], id) == [Marshal(s.phases[id].c)]
  {
    hide Enabled, Apply, Marshal, Staged;
    var actions := [action];
    assert actions[1..] == [];
    EmptyRun(Apply(s, action), id);
    assert WrittenBy(Apply(s, action), [], id) == [];
  }

  /** The documents still to be written may follow in this state. */
  ghost predicate MayFollow(s: State, id: nat, c: Credential, docs: seq<Document>) {
    && IsPublication(docs, Marshal(Staged(c)), Marshal(c))
    && (id in s.phases && s.phases[id].Published? && docs != [] ==> docs[0] == Marshal(c))
  }

  lemma HostEvent(s: State, id: nat, c: Credential, name: string, file: FileState)
    requires Inv(s) && Publishing(s, id, c, name) && IsHostFile(c, name, file)
    ensures var step := StepFor(s, id, c, name, ByHost(file));
            && |step| <= 1 && IsRun(s, step) && WrittenBy(s, step, id) == []
            && var next := After(s, step);
               && Inv(next) && next.phases == s.phases
               && Agrees(next.files, name, file) && SameElsewhere(s.files, next.files, name)
  {
    hide Inv, Enabled, Apply, Agrees, IsHostFile, SameElsewhere, Marshal, Staged, IsRun, After, WrittenBy, ContentOwner, Unreadable;
    HostStepEnabled(s, id, c, name, file);
    HostStepAgrees(s, id, c, name, file);
    var step := StepFor(s, id, c, name, ByHost(file));
    if step == [] {
      EmptyRun(s, id);
      SameIsSame(s.files, name);
    } else {
      assert step == [step[0]];
      OneAction(s, step[0], id);
      StepKeepsInv(s, step[0]);
    }
  }

  lemma SameIsSame(files: Files, name: string)
    ensures SameElsewhere(files, files, name)
  {
  }

  lemma PluginEvent(s: State, id: nat, c: Credential, name: string, document: Document, stamp: Time)
    requires Inv(s) && Publishing(s, id, c, name)
    requires document == Marshal(c) || (s.phases[id].Resolved? && document == Marshal(Staged(c)))
    ensures var step := StepFor(s, id, c, name, ByPlugin(document, stamp));
            && |step| == 1 && IsRun(s, step) && WrittenBy(s, step, id) == [document]
            && var next := After(s, step);
               && Inv(next) && Publishing(next, id, c, name) && next.phases[id].Published?
               && Agrees(next.files, name, Regular(document, stamp)) && SameElsewhere(s.files, next.files, name)
  {
    hide Inv, Marshal, Staged, IsRun, After, WrittenBy;
    var step := StepFor(s, id, c, name, ByPlugin(document, stamp));
    assert step == [step[0]];
    OneAction(s, step[0], id);
    StepKeepsInv(s, step[0]);
  }

  lemma VisitsStep(s: State, step: seq<Action>, rest: seq<Action>, name: string, states: seq<FileState>)
    requires |step| <= 1 && states != [] && IsRun(s, step) && Agrees(After(s, step).files, name, states[0])
    requires Visits(After(s, step), rest, name, states[1..])
    ensures Visits(s, step + rest, name, states)
  {
    hide IsRun, After, Agrees;
    var actions, n := step + rest, |step|;
    assert actions[..n] == step && actions[n..] == rest;
  }

  /** A history of a file whose name a request has resolved to is a run of the store. */
  lemma {:induction false} EventsAreRun(s: State, id: nat, c: Credential, name: string, events: seq<Event>) returns (actions: seq<Action>)
    requires Inv(s) && Publishing(s, id, c, name) && MayFollow(s, id, c, Docs(events))
    requires forall event | event in events && event.ByHost? :: IsHostFile(c, name, event.file)
    ensures IsRun(s, actions) && WrittenBy(s, actions, id) == Docs(events)
    ensures Visits(s, actions, name, States(events))
    ensures var files := After(s, actions).files;
            SameElsewhere(s.files, files, name) && (events != [] ==> Agrees(files, name, StateOf(events[|events| - 1])))
    ensures events == [] ==> actions == []
    decreases |events|
  {
    hide Inv, Marshal, Staged, IsRun, After, WrittenBy, Agrees, SameElsewhere, StepFor, IsHostFile, IsPublication;
    if events == [] {
      actions := [];
      EmptyRun(s, id);
      SameIsSame(s.files, name);
    } else {
      var event := events[0];
      var step := StepFor(s, id, c, name, event);
      FollowsOn(s, id, c, events);
      match event {
        case ByHost(file) => HostEvent(s, id, c, name, file);
        case ByPlugin(document, stamp) => PluginEvent(s, id, c, name, document, stamp);
      }
      var next := After(s, step);
      var rest := EventsAreRun(next, id, c, name, events[1..]);
      actions := step + rest;
      RunsJoin(s, step, rest, id);
      assert States(events)[1..] == States(events[1..]) && States(events)[0] == StateOf(event);
      VisitsStep(s, step, rest, name, States(events));
      EmptyRun(next, id);
      ElsewhereJoin(s.files, next.files, After(next, rest).files, name);
    }
  }

  lemma ElsewhereJoin(a: Files, b: Files, c: Files, name: string)
    requires SameElsewhere(a, b, name) && SameElsewhere(b, c, name)
    ensures SameElsewhere(a, c, name)
  {
  }

  /** The first event may happen, and what remains to be written may follow it. */
  lemma FollowsOn(s: State, id: nat, c: Credential, events: seq<Event>)
    requires events != [] && id in s.phases && MayFollow(s, id, c, Docs(events))
    requires s.phases[id].Resolved? || s.phases[id].Published?
    ensures events[0].ByPlugin? ==>
              events[0].document == Marshal(c) || (s.phases[id].Resolved? && events[0].document == Marshal(Staged(c)))
    ensures IsPublication(Docs(events[1..]), Marshal(Staged(c)), Marshal(c))
    ensures events[0].ByPlugin? && Docs(events[1..]) != [] ==> Docs(events[1..])[0] == Marshal(c)
    ensures events[0].ByHost? ==> Docs(events[1..]) == Docs(events)
    ensures events[0].ByPlugin? ==> Docs(events) == [events[0].document] + Docs(events[1..])
  {
    hide Marshal, Staged, Docs, IsPublication;
    FirstDoc(events);
    if events[0].ByPlugin? {
      PublicationTail(events[0].document, Docs(events[1..]), Marshal(Staged(c)), Marshal(c));
    }
  }

  lemma PublicationTail(first: Document, rest: seq<Document>, staging: Document, final: Document)
    requires IsPublication([first] + rest, staging, final)
    ensures first == final || first == staging
    ensures IsPublication(rest, staging, final) && (rest != [] ==> rest[0] == final)
  {
    var docs := [first] + rest;
    assert docs[0] == first;
    forall i | 0 <= i < |rest|
      ensures rest[i] == final
    {
      assert docs[i + 1] == rest[i];
    }
  }

  /**
   The save as a run of the store: for every environment that does not put
   another principal's credential under the resolved name, the directory goes
   through exactly the states of the file's history, in their order, by steps of
   the protocol; the request's own writes among them are the save's writes, and
   no other file changes.
   */
  lemma SaveIsRun(
    env: Environment, runtimeCapable: bool, settings: Settings, c: Credential, name: string, w: World, s: State, id: nat)
    returns (actions: seq<Action>)
    requires Inv(s) && id in s.phases && s.phases[id] == Resolved(c, name)
    requires Agrees(s.files, name, Current(w)) && InstallsWithin(env, HostFiles(c, name))
    ensures var end := SaveRun(env, runtimeCapable, settings, c, Some(name), w).w;
            && w.log <= end.log && w.writes <= end.writes
            && IsRun(s, actions) && WrittenBy(s, actions, id) == WritesSince(w, end)
            && Visits(s, actions, name, end.log[|w.log|..])
            && Agrees(After(s, actions).files, name, Current(end)) && SameElsewhere(s.files, After(s, actions).files, name)
            && Inv(After(s, actions))
  {
    hide Inv, Marshal, Staged, IsRun, After, WrittenBy, Agrees, SameElsewhere, SaveRun, InstallsWithin, IsHostFile, IsPublication, Docs, Visits;
    var end := SaveRun(env, runtimeCapable, settings, c, Some(name), w).w;
    SaveUnfolds(env, HostFiles(c, name), runtimeCapable, settings, c, Some(name), w);
    StagedPublication(env, runtimeCapable, settings, c, Some(name), w);
    var events :| History(w, end, HostFiles(c, name), events);
    assert end.writes[|w.writes|..] == Docs(events);
    assert end.log[|w.log|..] == States(events);
    actions := EventsAreRun(s, id, c, name, events);
    RunKeepsStore(s, actions);
    if events == [] {
      EmptyRun(s, id);
      assert Current(end) == Current(w);
    } else {
      assert Current(end) == StateOf(events[|events| - 1]);
    }
  }
}
