/**
 The save protocol against a host that may act between any two of the plugin's
 actions. An `Environment` fixes everything the host and other software do, so a
 statement for every environment covers every adversary. These functions say
 what one run does; the class in `Service` is the imperative form.
 */
module Watcher {
  import opened Text
  import opened Platform
  import opened Lifecycle
  import opened Resolver

  /** The directory entry of the credential. Reading an irregular one may yield what it points to. */
  datatype FileState = Absent | Irregular(target: Option<Document>) | Regular(document: Document, modTime: Time)

  datatype RuntimeRecord = RuntimeRecord(disabled: bool, updatedAt: Time)

  datatype SaveReply = SaveReply(name: string, path: string)

  /**
   What happens before one plugin action, and how the host answers it: time
   passes, the file takes new states, and the action meets these replies.
   `stamp` is the modification time a write made now receives.
   */
  datatype Move = Move(
    elapsed: nat, installs: seq<FileState>,
    list: Option<seq<HostEntry>>, runtime: map<string, RuntimeRecord>, saved: Option<SaveReply>,
    stamp: Time, writeWorks: bool, cancelled: bool)

  type Environment = nat -> Move

  /** `log` is every state the file has been in, the current one last; `writes` is what the plugin wrote. */
  datatype World = World(tick: nat, clock: nat, log: seq<FileState>, writes: seq<Document>)

  function Step(env: Environment, w: World): World {
    var move := env(w.tick);
    World(w.tick + 1, w.clock + move.elapsed, w.log + move.installs, w.writes)
  }

  function Current(w: World): FileState {
    if w.log == [] then Absent else w.log[|w.log| - 1]
  }

  /** What `os.ReadFile` returns. */
  function Readable(file: FileState): Option<Document> {
    match file
    case Absent => None
    case Irregular(target) => target
    case Regular(document, _) => Some(document)
  }

  function Write(w: World, document: Document, stamp: Time): World {
    w.(log := w.log + [Regular(document, stamp)], writes := w.writes + [document])
  }

  // ---------- settings and jobs ----------

  const DEFAULT_TIMEOUT: nat := 5_000_000_000
  const DEFAULT_POLL_INTERVAL: nat := 25_000_000

  /** Durations in nanoseconds, as configured. */
  datatype Settings = Settings(timeout: int, pollInterval: int, stableWindow: int)

  function Timeout(settings: Settings): nat {
    if settings.timeout <= 0 then DEFAULT_TIMEOUT else settings.timeout
  }

  function PollInterval(settings: Settings): (interval: nat)
    ensures interval > 0
  {
    if settings.pollInterval <= 0 then DEFAULT_POLL_INTERVAL else settings.pollInterval
  }

  function StableWindow(settings: Settings): nat {
    if settings.stableWindow < 0 then 0 else settings.stableWindow
  }

  /** One wait: the staging wait has no desired payload and wants a disabled record. */
  datatype Job = Job(path: string, fileName: string, desired: Option<Document>, disabled: bool)

  predicate PathOk(job: Job) {
    TrimSpace(job.path) != "" && Base(TrimSpace(job.path)) == job.fileName
  }

  predicate Ready(job: Job, modTime: Time, record: RuntimeRecord) {
    record.disabled == job.disabled && record.updatedAt >= modTime
  }

  predicate ContentOk(job: Job, document: Document) {
    job.desired.Some? ==> CredentialPayloadEqual(document, job.desired.value)
  }

  predicate IsRecordOf(entry: HostEntry, fileName: string) {
    !entry.runtimeOnly && TrimSpace(entry.name) == fileName && TrimSpace(entry.authIndex) != ""
  }

  ghost function Indexes(entries: seq<HostEntry>, fileName: string): set<string> {
    set entry | entry in entries && IsRecordOf(entry, fileName) :: TrimSpace(entry.authIndex)
  }

  /** The one index the listing gives the file, if there is exactly one. */
  ghost function IndexFor(list: Option<seq<HostEntry>>, fileName: string): Option<string> {
    if list.None? then None
    else
      var indexes := Indexes(list.value, fileName);
      if |indexes| == 1 then var index :| index in indexes; Some(index) else None
  }

  function Lookup(runtime: map<string, RuntimeRecord>, index: string): Option<RuntimeRecord> {
    if index in runtime then Some(runtime[index]) else None
  }

  // ---------- one iteration ----------

  /** The stability window: `NoWindow` is Go's pair of zero times. */
  datatype Window = NoWindow | Window(since: nat, modTime: Time)

  datatype PollResult = PollError(w: World) | PollDone(w: World) | PollAgain(w: World, window: Window)

  /** `rewriteSecuredCredential`: inspect, then replace; `None` when it reports an error. */
  function Rewrite(env: Environment, job: Job, document: Document, w: World): (World, bool) {
    if !PathOk(job) || document.Malformed? then (w, false)
    else
      var inspected := Step(env, w);
      if !Current(inspected).Regular? then (inspected, false)
      else
        var replacing := Step(env, inspected);
        var move := env(inspected.tick);
        if move.writeWorks then (Write(replacing, document, move.stamp), true) else (replacing, false)
  }

  ghost function Poll(env: Environment, job: Job, stableWindow: nat, w: World, window: Window): PollResult {
    if !PathOk(job) then PollError(w)
    else
      var statted := Step(env, w);
      if !Current(statted).Regular? then PollError(statted)
      else
        var read := Step(env, statted);
        if Readable(Current(read)).None? then PollError(read)
        else if !ContentOk(job, Readable(Current(read)).value) then
          var (rewritten, ok) := Rewrite(env, job, job.desired.value, read);
          if ok then PollAgain(rewritten, NoWindow) else PollError(rewritten)
        else Observe(env, job, stableWindow, read, window, Current(statted).modTime)
  }

  /** The iteration once the content is as wanted: look the record up, advance the window, confirm. */
  ghost function Observe(env: Environment, job: Job, stableWindow: nat, w: World, window: Window, modTime: Time): PollResult {
    var listed := Step(env, w);
    var index := IndexFor(env(w.tick).list, job.fileName);
    if index.None? then PollAgain(listed, window)
    else
      var asked := Step(env, listed);
      var record := Lookup(env(listed.tick).runtime, index.value);
      var timed := Step(env, asked);
      if record.None? || !Ready(job, modTime, record.value) then PollAgain(timed, NoWindow)
      else
        var open := Opened(window, timed.clock, modTime);
        if timed.clock - open.since >= stableWindow then Confirm(env, job, timed, open, index.value)
        else PollAgain(timed, open)
  }

  function Opened(window: Window, now: nat, modTime: Time): (open: Window)
    ensures open.Window? && open.modTime == modTime
  {
    if window.NoWindow? || window.modTime != modTime then Window(now, modTime) else window
  }

  function Confirm(env: Environment, job: Job, w: World, window: Window, index: string): PollResult
    requires window.Window?
  {
    var statted := Step(env, w);
    if !Current(statted).Regular? then PollError(statted)
    else
      var read := Step(env, statted);
      if Readable(Current(read)).None? then PollError(read)
      else
        var asked := Step(env, read);
        var record := Lookup(env(read.tick).runtime, index);
        if record.Some? && window.modTime == Current(statted).modTime
           && ContentOk(job, Readable(Current(read)).value) && Ready(job, Current(statted).modTime, record.value)
        then PollDone(asked)
        else PollAgain(asked, NoWindow)
  }

  // ---------- the wait ----------

  datatype Ending = Stable | TimedOut | Cancelled | Broken

  datatype AwaitResult = AwaitResult(ending: Ending, w: World, polls: nat)

  ghost function AwaitFrom(env: Environment, job: Job, settings: Settings, deadline: nat, w: World, window: Window): AwaitResult
    decreases if w.clock > deadline then 0 else deadline - w.clock + 1
  {
    PollExtends(env, job, StableWindow(settings), w, window);
    match Poll(env, job, StableWindow(settings), w, window)
    case PollError(w') => AwaitResult(Broken, w', 1)
    case PollDone(w') => AwaitResult(Stable, w', 1)
    case PollAgain(w', window') =>
      var checked := Step(env, w');
      if checked.clock > deadline then AwaitResult(TimedOut, checked, 1)
      else
        var woken := Step(env, checked);
        if env(checked.tick).cancelled then AwaitResult(Cancelled, woken, 1)
        else
          var rest := AwaitFrom(env, job, settings, deadline, Later(woken, PollInterval(settings)), window');
          rest.(polls := rest.polls + 1)
  }

  function Later(w: World, duration: nat): World {
    w.(clock := w.clock + duration)
  }

  ghost function Await(env: Environment, job: Job, settings: Settings, w: World): AwaitResult {
    var started := Step(env, w);
    AwaitFrom(env, job, settings, started.clock + Timeout(settings), started, NoWindow)
  }

  // ---------- nothing runs backwards ----------

  ghost predicate Extends(w: World, w': World) {
    w.tick <= w'.tick && w.clock <= w'.clock && w.log <= w'.log && w.writes <= w'.writes
  }

  /** Every document written between two worlds is `document`. */
  ghost predicate OnlyWrites(w: World, w': World, document: Option<Document>) {
    && w.writes <= w'.writes
    && forall i | |w.writes| <= i < |w'.writes| :: document == Some(w'.writes[i])
  }

  lemma RewriteExtends(env: Environment, job: Job, document: Document, w: World)
    ensures Extends(w, Rewrite(env, job, document, w).0)
    ensures OnlyWrites(w, Rewrite(env, job, document, w).0, Some(document))
  {
  }

  lemma ConfirmExtends(env: Environment, job: Job, w: World, window: Window, index: string)
    requires window.Window?
    ensures Extends(w, Confirm(env, job, w, window, index).w)
    ensures Confirm(env, job, w, window, index).w.writes == w.writes
  {
    hide ContentOk, Ready, Lookup;
  }

  lemma ObserveExtends(env: Environment, job: Job, stableWindow: nat, w: World, window: Window, modTime: Time)
    ensures Extends(w, Observe(env, job, stableWindow, w, window, modTime).w)
    ensures Observe(env, job, stableWindow, w, window, modTime).w.writes == w.writes
    ensures Observe(env, job, stableWindow, w, window, modTime).w.tick > w.tick
  {
    hide Confirm, IndexFor, Ready, Lookup;
    var timed := Step(env, Step(env, Step(env, w)));
    var index := IndexFor(env(w.tick).list, job.fileName);
    if index.Some? {
      ConfirmExtends(env, job, timed, Opened(window, timed.clock, modTime), index.value);
    }
  }

  lemma PollExtends(env: Environment, job: Job, stableWindow: nat, w: World, window: Window)
    ensures Extends(w, Poll(env, job, stableWindow, w, window).w)
    ensures OnlyWrites(w, Poll(env, job, stableWindow, w, window).w, job.desired)
  {
    hide PathOk, CredentialPayloadEqual, Observe, Rewrite;
    var statted := Step(env, w);
    var read := Step(env, statted);
    if Current(statted).Regular? {
      ObserveExtends(env, job, stableWindow, read, window, Current(statted).modTime);
    }
    if job.desired.Some? {
      RewriteExtends(env, job, job.desired.value, read);
    }
  }

  /** A wait only moves forward, and writes nothing but its desired payload. */
  lemma {:induction false} AwaitExtends(env: Environment, job: Job, settings: Settings, deadline: nat, w: World, window: Window)
    ensures Extends(w, AwaitFrom(env, job, settings, deadline, w, window).w)
    ensures OnlyWrites(w, AwaitFrom(env, job, settings, deadline, w, window).w, job.desired)
    decreases if w.clock > deadline then 0 else deadline - w.clock + 1
  {
    hide Poll;
    PollExtends(env, job, StableWindow(settings), w, window);
    match Poll(env, job, StableWindow(settings), w, window) {
      case PollAgain(w', window') =>
        var checked := Step(env, w');
        if checked.clock <= deadline && !env(checked.tick).cancelled {
          AwaitExtends(env, job, settings, deadline, Later(Step(env, checked), PollInterval(settings)), window');
        }
      case _ =>
    }
  }

  // ---------- termination bound ----------

  /** Whatever the environment does, a wait polls at most floor(timeout / interval) + 2 times. */
  lemma AwaitIsBounded(env: Environment, job: Job, settings: Settings, w: World)
    ensures Await(env, job, settings, w).polls <= Timeout(settings) / PollInterval(settings) + 2
  {
    hide AwaitFrom, Timeout, PollInterval;
    var started := Step(env, w);
    PollsFitTime(env, job, settings, started.clock + Timeout(settings), started, NoWindow);
    var polls := Await(env, job, settings, w).polls;
    if polls >= 2 {
      FitsQuotient(polls - 2, PollInterval(settings), Timeout(settings));
    }
  }

  lemma FitsQuotient(count: nat, interval: nat, total: nat)
    requires interval > 0 && count * interval <= total
    ensures count <= total / interval
  {
    var q := total / interval;
    assert total < (q + 1) * interval;
    assert (q + 1 - count) * interval == (q + 1) * interval - count * interval;
    PositiveFactor(q + 1 - count, interval);
  }

  lemma PositiveFactor(x: int, interval: nat)
    requires interval > 0 && x * interval > 0
    ensures x > 0
  {
  }

  lemma {:induction false} PollsFitTime(env: Environment, job: Job, settings: Settings, deadline: nat, w: World, window: Window)
    ensures var polls := AwaitFrom(env, job, settings, deadline, w, window).polls;
            && polls >= 1
            && (w.clock > deadline ==> polls == 1)
            && (w.clock <= deadline && polls >= 2 ==> (polls - 2) * PollInterval(settings) <= deadline - w.clock)
    decreases if w.clock > deadline then 0 else deadline - w.clock + 1
  {
    hide Poll;
    PollExtends(env, job, StableWindow(settings), w, window);
    match Poll(env, job, StableWindow(settings), w, window) {
      case PollAgain(w', window') =>
        var checked := Step(env, w');
        if checked.clock <= deadline && !env(checked.tick).cancelled {
          var next := Later(Step(env, checked), PollInterval(settings));
          PollsFitTime(env, job, settings, deadline, next, window');
          var rest := AwaitFrom(env, job, settings, deadline, next, window').polls;
          assert (rest - 1) * PollInterval(settings) == (rest - 2) * PollInterval(settings) + PollInterval(settings);
        }
      case _ =>
    }
  }
}
