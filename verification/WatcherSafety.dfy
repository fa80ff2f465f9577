/** Sampling proves continuity: what a successful wait says about the file between its samples. */
module WatcherSafety {
  import opened Text
  import opened Platform
  import opened Lifecycle
  import opened Resolver
  import opened Watcher

  /** One stat and the read after it: the file history's length at each, and the clock at the stat. */
  datatype Sample = Sample(statLength: nat, readLength: nat, clock: nat)

  /** The sample an iteration takes that begins in `head`. */
  function SampleAt(env: Environment, head: World): Sample {
    var statted := Step(env, head);
    Sample(|statted.log|, |Step(env, statted).log|, statted.clock)
  }

  ghost predicate Sampled(job: Job, w: World, sample: Sample, modTime: Time) {
    && 1 <= sample.statLength <= sample.readLength <= |w.log|
    && sample.clock <= w.clock
    && w.log[sample.statLength - 1].Regular? && w.log[sample.statLength - 1].modTime == modTime
    && Readable(w.log[sample.readLength - 1]).Some?
    && ContentOk(job, Readable(w.log[sample.readLength - 1]).value)
  }

  /** An open window rests on a sample of wanted content with the window's modification time. */
  ghost predicate Justified(job: Job, start: World, w: World, window: Window, sample: Sample) {
    window.Window? ==>
      && Sampled(job, w, sample, window.modTime)
      && |start.log| <= sample.statLength && start.clock <= sample.clock <= window.since <= w.clock
  }

  /**
   The last two answers of the host before `end`, for a wait that succeeded
   there: the record under the one index the listing gives the file, asked for
   after the confirming read.
   */
  ghost function LastRecord(env: Environment, fileName: string, end: World): Option<RuntimeRecord> {
    if end.tick < 6 then None
    else
      var index, runtime := IndexFor(env(end.tick - 6).list, fileName), env(end.tick - 1).runtime;
      if index.Some? && index.value in runtime then Some(runtime[index.value]) else None
  }

  /** That record has the wanted flag and is not older than the file. */
  ghost predicate RecordAgrees(env: Environment, job: Job, modTime: Time, end: World) {
    var record := LastRecord(env, job.fileName, end);
    record.Some? && record.value.disabled == job.disabled && record.value.updatedAt >= modTime
  }

  /** What a successful wait has seen: two samples a stable window apart, and the file's own record ready after them. */
  ghost predicate Evidence(env: Environment, job: Job, stableWindow: nat, start: World, w: World, first: Sample, last: Sample, modTime: Time) {
    && Sampled(job, w, first, modTime) && Sampled(job, w, last, modTime)
    && |start.log| <= first.statLength && start.clock <= first.clock
    && first.readLength <= last.statLength
    && first.clock + stableWindow <= last.clock
    && RecordAgrees(env, job, modTime, w)
  }

  lemma JustifiedExtends(job: Job, start: World, w: World, w': World, window: Window, sample: Sample)
    requires Justified(job, start, w, window, sample) && Extends(w, w')
    ensures Justified(job, start, w', window, sample)
  {
    hide ContentOk;
  }

  lemma ConfirmEvidence(env: Environment, job: Job, stableWindow: nat, start: World, w: World, window: Window, sample: Sample, index: string)
    returns (last: Sample)
    requires window.Window? && Justified(job, start, w, window, sample)
    requires window.since + stableWindow <= w.clock
    requires w.tick >= 3 && IndexFor(env(w.tick - 3).list, job.fileName) == Some(index)
    ensures var result := Confirm(env, job, w, window, index);
            && (result.PollDone? ==> Evidence(env, job, stableWindow, start, result.w, sample, last, window.modTime))
            && (result.PollAgain? ==> result.window.NoWindow?)
  {
    hide ContentOk, IndexFor;
    var statted := Step(env, w);
    var read := Step(env, statted);
    last := Sample(|statted.log|, |read.log|, statted.clock);
    ConfirmExtends(env, job, w, window, index);
    JustifiedExtends(job, start, w, Confirm(env, job, w, window, index).w, window, sample);
  }

  /**
   An iteration that reads content other than the wanted one writes the wanted
   one back, if the write works, and starts the window afresh.
   */
  lemma ForeignContentIsRepaired(env: Environment, job: Job, stableWindow: nat, w: World, window: Window)
    requires PathOk(job) && job.desired.Some? && job.desired.value.Parsed?
    requires var statted := Step(env, w); var read := Step(env, statted); var inspected := Step(env, read);
             && Current(statted).Regular? && Readable(Current(read)).Some?
             && !ContentOk(job, Readable(Current(read)).value)
             && Current(inspected).Regular? && env(inspected.tick).writeWorks
    ensures var result := Poll(env, job, stableWindow, w, window);
            && result.PollAgain? && result.window.NoWindow?
            && Current(result.w).Regular? && Current(result.w).document == job.desired.value
            && result.w.writes == w.writes + [job.desired.value]
  {
    hide PathOk, ContentOk;
  }

  /** The sample an open window rests on after an iteration: that iteration's own, if it opened the window. */
  ghost function NextSample(env: Environment, job: Job, head: World, window: Window, sample: Sample): Sample {
    if Opens(env, job, head, window) then SampleAt(env, head) else sample
  }

  /** The iteration finds the file's one index and no window open for the file as it is. */
  ghost predicate Opens(env: Environment, job: Job, head: World, window: Window) {
    && IndexFor(env(head.tick + 2).list, job.fileName).Some?
    && (window.NoWindow? || window.modTime != StatTime(env, head))
  }

  /** The modification time the iteration's stat finds. */
  function StatTime(env: Environment, head: World): Time {
    var file := Current(Step(env, head));
    if file.Regular? then file.modTime else 0
  }

  /** Each outcome of an observation keeps the open window justified; a failed index lookup changes nothing. */
  lemma ObserveEvidence(env: Environment, job: Job, stableWindow: nat, start: World, w: World, window: Window, sample: Sample, modTime: Time, recent: Sample)
    returns (sample': Sample, last: Sample)
    requires Justified(job, start, w, window, sample)
    requires Sampled(job, w, recent, modTime) && |start.log| <= recent.statLength && start.clock <= recent.clock
    ensures var result := Observe(env, job, stableWindow, w, window, modTime);
            && (result.PollDone? ==> Evidence(env, job, stableWindow, start, result.w, sample', last, modTime))
            && (result.PollAgain? ==> Justified(job, start, result.w, result.window, sample'))
    ensures IndexFor(env(w.tick).list, job.fileName).None? ==>
              Observe(env, job, stableWindow, w, window, modTime) == PollAgain(Step(env, w), window) && sample' == sample
    ensures IndexFor(env(w.tick).list, job.fileName).Some? ==>
              sample' == if window.NoWindow? || window.modTime != modTime then recent else sample
  {
    hide ContentOk, Ready, IndexFor, Confirm;
    var listed := Step(env, w);
    var asked := Step(env, listed);
    var timed := Step(env, asked);
    var index := IndexFor(env(w.tick).list, job.fileName);
    last := recent;
    if index.None? || window.NoWindow? || window.modTime != modTime {
      sample' := if index.None? then sample else recent;
    } else {
      sample' := sample;
    }
    JustifiedExtends(job, start, w, listed, window, sample);
    JustifiedExtends(job, start, w, timed, window, sample);
    if index.Some? {
      var open := Opened(window, timed.clock, modTime);
      assert Justified(job, start, timed, open, sample');
      if timed.clock - open.since >= stableWindow {
        last := ConfirmEvidence(env, job, stableWindow, start, timed, open, sample', index.value);
      }
    }
  }

  lemma PollEvidence(env: Environment, job: Job, stableWindow: nat, start: World, w: World, window: Window, sample: Sample)
    returns (last: Sample)
    requires Extends(start, w) && Justified(job, start, w, window, sample)
    ensures var result, sample' := Poll(env, job, stableWindow, w, window), NextSample(env, job, w, window, sample);
            && (result.PollDone? ==> Evidence(env, job, stableWindow, start, result.w, sample', last, StatTime(env, w)))
            && (result.PollAgain? ==> Justified(job, start, result.w, result.window, sample'))
  {
    hide ContentOk, Ready, Observe, PathOk, Rewrite, IndexFor;
    var statted := Step(env, w);
    var read := Step(env, statted);
    last := sample;
    if Current(statted).Regular? && Readable(Current(read)).Some? && ContentOk(job, Readable(Current(read)).value) {
      JustifiedExtends(job, start, w, read, window, sample);
      var _, confirming := ObserveEvidence(env, job, stableWindow, start, read, window, sample, StatTime(env, w), SampleAt(env, w));
      last := confirming;
    }
  }

  // ---------- every iteration of the window ----------

  /** The worlds in which the iterations of a wait begin. */
  ghost function LoopHeads(env: Environment, job: Job, settings: Settings, deadline: nat, w: World, window: Window): seq<World>
    decreases if w.clock > deadline then 0 else deadline - w.clock + 1
  {
    hide Poll;
    PollExtends(env, job, StableWindow(settings), w, window);
    [w] + match Poll(env, job, StableWindow(settings), w, window)
          case PollAgain(w', window') =>
            var checked := Step(env, w');
            if checked.clock > deadline || env(checked.tick).cancelled then []
            else LoopHeads(env, job, settings, deadline, Later(Step(env, checked), PollInterval(settings)), window')
          case _ => []
  }

  /**
   The iteration read wanted content, and unless its index lookup failed it found
   the file with this modification time and a record for it that has the wanted
   flag and is not older.
   */
  ghost predicate Upholds(env: Environment, job: Job, modTime: Time, head: World) {
    var statted := Step(env, head);
    var read := Step(env, statted);
    var index := IndexFor(env(read.tick).list, job.fileName);
    && Current(statted).Regular?
    && Readable(Current(read)).Some? && ContentOk(job, Readable(Current(read)).value)
    && (index.Some? ==>
          var runtime := env(read.tick + 1).runtime;
          && Current(statted).modTime == modTime && index.value in runtime
          && runtime[index.value].disabled == job.disabled && runtime[index.value].updatedAt >= modTime)
  }

  /** Iteration `opening` took the sample, and it and all later ones uphold the window. */
  ghost predicate Upheld(env: Environment, job: Job, modTime: Time, sample: Sample, heads: seq<World>, opening: nat) {
    && opening < |heads| && sample == SampleAt(env, heads[opening])
    && forall i | opening <= i < |heads| :: Upholds(env, job, modTime, heads[i])
  }

  /** What one iteration adds to an open window. */
  lemma PollUpholds(env: Environment, job: Job, stableWindow: nat, w: World, window: Window, sample: Sample, before: seq<World>, opening: nat)
    requires window.Window? ==> Upheld(env, job, window.modTime, sample, before, opening)
    ensures var result, sample' := Poll(env, job, stableWindow, w, window), NextSample(env, job, w, window, sample);
            var opening' := if Opens(env, job, w, window) then |before| else opening;
            && (result.PollAgain? && result.window.Window? ==>
                  Upheld(env, job, result.window.modTime, sample', before + [w], opening'))
            && (result.PollDone? ==> Upheld(env, job, StatTime(env, w), sample', before + [w], opening'))
  {
    hide Poll, StatTime, IndexFor, Upholds;
    var result := Poll(env, job, stableWindow, w, window);
    if result.PollDone? || (result.PollAgain? && result.window.Window?) {
      UpholdsWindow(env, job, stableWindow, w, window);
    }
  }

  /** An iteration that ends the wait or leaves a window open has upheld it. */
  lemma UpholdsWindow(env: Environment, job: Job, stableWindow: nat, w: World, window: Window)
    requires var result := Poll(env, job, stableWindow, w, window); result.PollDone? || (result.PollAgain? && result.window.Window?)
    ensures var result, index := Poll(env, job, stableWindow, w, window), IndexFor(env(w.tick + 2).list, job.fileName);
            if index.None? then result.PollAgain? && result.window == window && Upholds(env, job, window.modTime, w)
            else Upholds(env, job, StatTime(env, w), w) && (result.PollAgain? ==> result.window.modTime == StatTime(env, w))
  {
    hide ContentOk, PathOk, Rewrite, IndexFor, Confirm;
    var read := Step(env, Step(env, w));
    var timed := Step(env, Step(env, Step(env, read)));
    var index := IndexFor(env(read.tick).list, job.fileName);
    if index.Some? {
      var open := Opened(window, timed.clock, StatTime(env, w));
      ConfirmClosesWindow(env, job, timed, open, index.value);
    }
  }

  lemma ConfirmClosesWindow(env: Environment, job: Job, w: World, window: Window, index: string)
    requires window.Window?
    ensures var result := Confirm(env, job, w, window, index); result.PollAgain? ==> result.window.NoWindow?
  {
    hide ContentOk, Ready, Lookup;
  }

  /** The clock the iteration reads once it has asked for the record. */
  function ReadingAt(env: Environment, head: World): nat {
    Step(env, Step(env, Step(env, Step(env, Step(env, head))))).clock
  }

  ghost predicate FoundIndex(env: Environment, fileName: string, head: World) {
    IndexFor(env(head.tick + 2).list, fileName).Some?
  }

  /** The window counts from the reading of iteration `opening`, and no later reading has filled it. */
  ghost predicate Filling(env: Environment, fileName: string, stableWindow: int, since: nat, heads: seq<World>, opening: nat) {
    && opening < |heads| && ReadingAt(env, heads[opening]) == since
    && forall i | opening <= i < |heads| && FoundIndex(env, fileName, heads[i]) :: ReadingAt(env, heads[i]) < since + stableWindow
  }

  /** The last iteration is the first whose reading is a window past that of iteration `opening`. */
  ghost predicate FilledLast(env: Environment, fileName: string, stableWindow: int, heads: seq<World>, opening: nat) {
    && opening < |heads|
    && var since := ReadingAt(env, heads[opening]);
       && ReadingAt(env, heads[|heads| - 1]) >= since + stableWindow
       && forall i | opening <= i < |heads| - 1 && FoundIndex(env, fileName, heads[i]) :: ReadingAt(env, heads[i]) < since + stableWindow
  }

  lemma PollFills(env: Environment, job: Job, stableWindow: nat, w: World, window: Window, before: seq<World>, opening: nat)
    requires window.Window? ==> Filling(env, job.fileName, stableWindow, window.since, before, opening)
    ensures var result, opening' := Poll(env, job, stableWindow, w, window), if Opens(env, job, w, window) then |before| else opening;
            && (result.PollAgain? && result.window.Window? ==>
                  Filling(env, job.fileName, stableWindow, result.window.since, before + [w], opening'))
            && (result.PollDone? ==> FilledLast(env, job.fileName, stableWindow, before + [w], opening'))
  {
    hide Poll, StatTime, IndexFor, ReadingAt;
    var result := Poll(env, job, stableWindow, w, window);
    if result.PollDone? || (result.PollAgain? && result.window.Window?) {
      WindowFills(env, job, stableWindow, w, window);
    }
  }

  lemma WindowFills(env: Environment, job: Job, stableWindow: nat, w: World, window: Window)
    requires var result := Poll(env, job, stableWindow, w, window); result.PollDone? || (result.PollAgain? && result.window.Window?)
    ensures var result, reading := Poll(env, job, stableWindow, w, window), ReadingAt(env, w);
            var since := if Opens(env, job, w, window) then reading else if window.Window? then window.since else 0;
            && (result.PollDone? ==> FoundIndex(env, job.fileName, w) && reading >= since + stableWindow)
            && (result.PollAgain? ==> result.window.since == since && (FoundIndex(env, job.fileName, w) ==> reading < since + stableWindow))
    ensures !Opens(env, job, w, window) ==> window.Window?
  {
    hide ContentOk, PathOk, Rewrite, IndexFor, Confirm;
    var read := Step(env, Step(env, w));
    var timed := Step(env, Step(env, Step(env, read)));
    var index := IndexFor(env(read.tick).list, job.fileName);
    if index.Some? {
      var open := Opened(window, timed.clock, StatTime(env, w));
      ConfirmClosesWindow(env, job, timed, open, index.value);
    }
  }

  lemma {:induction false} AwaitEvidence(
    env: Environment, job: Job, settings: Settings, deadline: nat, start: World, w: World, window: Window, sample: Sample,
    before: seq<World>, openedAt: nat)
    returns (first: Sample, last: Sample, modTime: Time, opening: nat)
    requires Extends(start, w) && Justified(job, start, w, window, sample)
    requires window.Window? ==> Upheld(env, job, window.modTime, sample, before, openedAt)
    requires window.Window? ==> Filling(env, job.fileName, StableWindow(settings), window.since, before, openedAt)
    ensures var result := AwaitFrom(env, job, settings, deadline, w, window);
            result.ending.Stable? ==>
              && Evidence(env, job, StableWindow(settings), start, result.w, first, last, modTime)
              && Upheld(env, job, modTime, first, before + LoopHeads(env, job, settings, deadline, w, window), opening)
              && FilledLast(env, job.fileName, StableWindow(settings), before + LoopHeads(env, job, settings, deadline, w, window), opening)
    decreases if w.clock > deadline then 0 else deadline - w.clock + 1
  {
    hide Poll, Evidence, Upheld, Filling, FilledLast, Justified, StableWindow, NextSample, Opens, StatTime;
    PollExtends(env, job, StableWindow(settings), w, window);
    last := PollEvidence(env, job, StableWindow(settings), start, w, window, sample);
    PollUpholds(env, job, StableWindow(settings), w, window, sample, before, openedAt);
    PollFills(env, job, StableWindow(settings), w, window, before, openedAt);
    first, modTime := NextSample(env, job, w, window, sample), StatTime(env, w);
    opening := if Opens(env, job, w, window) then |before| else openedAt;
    match Poll(env, job, StableWindow(settings), w, window) {
      case PollAgain(w', window') =>
        var checked := Step(env, w');
        if checked.clock <= deadline && !env(checked.tick).cancelled {
          var next := Later(Step(env, checked), PollInterval(settings));
          JustifiedExtends(job, start, w', next, window', first);
          first, last, modTime, opening := AwaitEvidence(env, job, settings, deadline, start, next, window', first, before + [w], opening);
          var heads := LoopHeads(env, job, settings, deadline, next, window');
          assert (before + [w]) + heads == before + ([w] + heads);
        }
      case PollDone(_) =>
        assert LoopHeads(env, job, settings, deadline, w, window) == [w];
      case _ =>
    }
  }

  // ---------- what success means ----------

  /** The iterations of a whole wait. */
  ghost function WaitHeads(env: Environment, job: Job, settings: Settings, w: World): seq<World> {
    var started := Step(env, w);
    LoopHeads(env, job, settings, started.clock + Timeout(settings), started, NoWindow)
  }

  /** From entry `from` of the history on, every state a regular file takes has a modification time of its own. */
  ghost predicate FreshModTimes(log: seq<FileState>, from: int) {
    forall i, j | 0 <= i < j < |log| && from <= i && log[i].Regular? && log[j].Regular? :: log[i].modTime != log[j].modTime
  }

  /** From history length `first` through `last` the file was regular with wanted content throughout. */
  ghost predicate HeldThroughout(job: Job, log: seq<FileState>, first: nat, last: nat) {
    && 1 <= first <= last <= |log|
    && forall k | first - 1 <= k < last :: log[k].Regular? && ContentOk(job, log[k].document)
  }

  /** The file takes this modification time in one of the history's entries `from` to `until - 1`. */
  ghost predicate Recurs(log: seq<FileState>, from: nat, until: nat, modTime: Time) {
    exists k | from <= k < until && k < |log| && log[k].Regular? :: log[k].modTime == modTime
  }

  ghost predicate WantedIn(job: Job, file: FileState) {
    Readable(file).Some? && ContentOk(job, Readable(file).value)
  }

  /** Two samples of the history that found wanted content under this modification time, a stable window apart. */
  ghost predicate Brackets(job: Job, log: seq<FileState>, first: Sample, last: Sample, stableWindow: int, modTime: Time) {
    && first.clock + stableWindow <= last.clock
    && 1 <= first.statLength <= first.readLength <= last.statLength <= last.readLength <= |log|
    && WantedIn(job, log[first.readLength - 1]) && WantedIn(job, log[last.readLength - 1])
    && log[first.statLength - 1].Regular? && log[first.statLength - 1].modTime == modTime
    && log[last.statLength - 1].Regular? && log[last.statLength - 1].modTime == modTime
  }

  /**
   What every successful wait has established, against any environment: two
   samples of wanted content under one modification time, a stable window apart;
   from the iteration of the first on, every iteration read wanted content and,
   unless its index lookup failed, found that modification time and a ready
   record; it ended at the first iteration whose clock reading was a window past
   that of the first; and the last record the plugin asked for is ready too. Nobody
   wrote the file between the samples exactly when that modification time does not come
   back between them, and then the file held wanted content throughout.
   */
  lemma StableMeansSampled(env: Environment, job: Job, settings: Settings, w: World)
    returns (first: Sample, last: Sample, modTime: Time, opening: nat)
    requires Await(env, job, settings, w).ending.Stable?
    ensures var end := Await(env, job, settings, w).w;
            && w.clock <= first.clock && last.clock <= end.clock && |w.log| <= first.statLength
            && Brackets(job, end.log, first, last, settings.stableWindow, modTime)
            && Upheld(env, job, modTime, first, WaitHeads(env, job, settings, w), opening)
            && FilledLast(env, job.fileName, if settings.stableWindow < 0 then 0 else settings.stableWindow,
                          WaitHeads(env, job, settings, w), opening)
            && RecordAgrees(env, job, modTime, end)
            && (first.statLength == last.statLength <==> !Recurs(end.log, first.statLength, last.statLength, modTime))
            && (first.statLength == last.statLength ==> HeldThroughout(job, end.log, first.statLength, last.statLength))
  {
    hide AwaitFrom, Evidence, RecordAgrees, StableWindow, Upheld, FilledLast, LoopHeads, Timeout, Recurs, HeldThroughout, Brackets;
    var started := Step(env, w);
    var deadline := started.clock + Timeout(settings);
    var end := Await(env, job, settings, w).w;
    first, last, modTime, opening := AwaitEvidence(env, job, settings, deadline, started, started, NoWindow, Sample(0, 0, 0), [], 0);
    assert [] + LoopHeads(env, job, settings, deadline, started, NoWindow) == WaitHeads(env, job, settings, w);
    SamplesBracket(env, job, StableWindow(settings), started, end, first, last, modTime);
    WindowIsConfigured(settings);
    NarrowerBracket(job, end.log, first, last, StableWindow(settings), settings.stableWindow, modTime);
  }

  lemma WindowIsConfigured(settings: Settings)
    ensures StableWindow(settings) == if settings.stableWindow < 0 then 0 else settings.stableWindow
  {
  }

  lemma NarrowerBracket(job: Job, log: seq<FileState>, first: Sample, last: Sample, wide: int, narrow: int, modTime: Time)
    requires Brackets(job, log, first, last, wide, modTime) && narrow <= wide
    ensures Brackets(job, log, first, last, narrow, modTime)
  {
    hide WantedIn;
  }

  lemma SamplesBracket(env: Environment, job: Job, stableWindow: nat, start: World, end: World, first: Sample, last: Sample, modTime: Time)
    requires Evidence(env, job, stableWindow, start, end, first, last, modTime)
    ensures start.clock <= first.clock && last.clock <= end.clock && |start.log| <= first.statLength
    ensures Brackets(job, end.log, first, last, stableWindow, modTime) && RecordAgrees(env, job, modTime, end)
    ensures first.statLength == last.statLength <==> !Recurs(end.log, first.statLength, last.statLength, modTime)
    ensures first.statLength == last.statLength ==> HeldThroughout(job, end.log, first.statLength, last.statLength)
  {
    hide ContentOk, RecordAgrees;
    assert end.log[last.statLength - 1].modTime == modTime;
  }

  /**
   If every write from the wait's start on gives the file a modification time
   that the file has not had since, a wait that succeeds, against any
   environment, saw the file hold wanted content without any write from the
   window's first stat to the confirming stat, at least the stable window later;
   every index lookup in that time that succeeded led to a ready record; and so
   did the last request for a record, under the one index the listing gave this
   file.
   */
  lemma StableMeansUninterrupted(env: Environment, job: Job, settings: Settings, w: World)
    returns (first: Sample, last: Sample, opening: nat)
    requires Await(env, job, settings, w).ending.Stable?
    requires FreshModTimes(Await(env, job, settings, w).w.log, |w.log| - 1)
    ensures var end := Await(env, job, settings, w).w;
            && w.clock <= first.clock && first.clock + settings.stableWindow <= last.clock <= end.clock
            && |w.log| <= first.statLength && first.statLength == last.statLength <= |end.log|
            && HeldThroughout(job, end.log, first.statLength, last.statLength)
            && Upheld(env, job, end.log[last.statLength - 1].modTime, first, WaitHeads(env, job, settings, w), opening)
            && RecordAgrees(env, job, end.log[last.statLength - 1].modTime, end)
  {
    hide Await, HeldThroughout, RecordAgrees, WantedIn, Upheld, FilledLast, WaitHeads;
    var modTime: Time;
    first, last, modTime, opening := StableMeansSampled(env, job, settings, w);
  }

  /**
   Freshness is needed, whatever the timings: for every job, settings and foreign
   content there is an environment that reuses a modification time and gets the
   wait to succeed although the file held the foreign content between its two
   samples. With a stability window the foreign content stays from one poll to
   the next; without one it must fit into a single poll.
   */
  lemma ReusedModTimeDefeatsSampling(job: Job, settings: Settings, desired: Document, foreign: Document, list: seq<HostEntry>, index: string)
    returns (env: Environment, w: World, first: nat, last: nat)
    requires PathOk(job) && job.desired == Some(desired) && desired.Parsed?
    requires IndexFor(Some(list), job.fileName) == Some(index)
    requires !CredentialPayloadEqual(foreign, desired)
    ensures var result := Await(env, job, settings, w);
            && result.ending.Stable?
            && 1 <= first < last <= |result.w.log|
            && result.w.log[first - 1] == result.w.log[last - 1] == Regular(desired, 5)
            && !HeldThroughout(job, result.w.log, first, last)
  {
    hide IndexFor, CredentialPayloadEqual, AwaitFrom, HeldThroughout, Timeout, PollInterval, StableWindow, PathOk;
    w := World(0, 0, [Regular(desired, 5)], []);
    first, last := 1, 3;
    var log := [Regular(desired, 5), Regular(foreign, 5), Regular(desired, 5)];
    if StableWindow(settings) == 0 {
      env := OnePollIntruder(job, list, index, desired, foreign);
      IntruderInsideOnePoll(job, settings, desired, foreign, list, index);
    } else {
      env := TwoPollIntruder(job, list, index, desired, foreign, StableWindow(settings));
      IntruderBetweenPolls(job, settings, desired, foreign, list, index);
    }
    assert log[1] == Regular(foreign, 5);
    ForeignIsNotHeld(job, log, desired, foreign);
  }

  lemma ForeignIsNotHeld(job: Job, log: seq<FileState>, desired: Document, foreign: Document)
    requires job.desired == Some(desired) && !CredentialPayloadEqual(foreign, desired)
    requires |log| == 3 && log[1] == Regular(foreign, 5)
    ensures !HeldThroughout(job, log, 1, 3)
  {
    hide CredentialPayloadEqual;
    assert !ContentOk(job, log[1].document);
  }

  /** The host keeps answering that the file's record is ready. */
  function Agreeing(job: Job, list: seq<HostEntry>, index: string): Move {
    Move(0, [], Some(list), map[index := RuntimeRecord(job.disabled, 9)], None, 0, true, false)
  }

  /** The foreign content comes and goes between the clock reading and the confirming stat of the first poll. */
  function OnePollIntruder(job: Job, list: seq<HostEntry>, index: string, desired: Document, foreign: Document): Environment {
    var quiet := Agreeing(job, list, index);
    (tick: nat) => if tick == 6 then quiet.(installs := [Regular(foreign, 5), Regular(desired, 5)]) else quiet
  }

  /** The foreign content comes after the first poll and goes before the second, which takes as long as the window. */
  function TwoPollIntruder(job: Job, list: seq<HostEntry>, index: string, desired: Document, foreign: Document, stableWindow: nat): Environment {
    var quiet := Agreeing(job, list, index);
    (tick: nat) =>
      if tick == 6 then quiet.(installs := [Regular(foreign, 5)])
      else if tick == 8 then quiet.(installs := [Regular(desired, 5)])
      else if tick == 12 then quiet.(elapsed := stableWindow)
      else quiet
  }

  /** A poll whose stat finds the wanted content, on a host that agrees up to the clock reading. */
  lemma AgreeingPoll(env: Environment, job: Job, stableWindow: nat, w: World, window: Window, desired: Document, list: seq<HostEntry>, index: string)
    requires PathOk(job) && job.desired == Some(desired) && desired.Parsed?
    requires IndexFor(Some(list), job.fileName) == Some(index)
    requires Current(Step(env, w)) == Regular(desired, 5)
    requires env(w.tick + 1) == env(w.tick + 2) == env(w.tick + 3) == Agreeing(job, list, index)
    requires env(w.tick).elapsed == 0 && env(w.tick + 4).installs == []
    ensures var timed := World(w.tick + 5, w.clock + env(w.tick + 4).elapsed, w.log + env(w.tick).installs, w.writes);
            var open := Opened(window, timed.clock, 5);
            Poll(env, job, stableWindow, w, window)
            == if timed.clock - open.since >= stableWindow then Confirm(env, job, timed, open, index) else PollAgain(timed, open)
  {
    hide PathOk, IndexFor, Confirm;
    var log := w.log + env(w.tick).installs;
    assert log + [] == log;
    var read := World(w.tick + 2, w.clock, log, w.writes);
    assert Step(env, Step(env, w)) == read;
    var timed := World(w.tick + 5, w.clock + env(w.tick + 4).elapsed, log, w.writes);
    assert Step(env, Step(env, Step(env, read))) == timed;
    assert ContentOk(job, desired);
    assert Poll(env, job, stableWindow, w, window) == Observe(env, job, stableWindow, read, window, 5);
  }

  lemma IntruderInsideOnePoll(job: Job, settings: Settings, desired: Document, foreign: Document, list: seq<HostEntry>, index: string)
    requires PathOk(job) && job.desired == Some(desired) && desired.Parsed?
    requires IndexFor(Some(list), job.fileName) == Some(index) && StableWindow(settings) == 0
    ensures var result := Await(OnePollIntruder(job, list, index, desired, foreign), job, settings, World(0, 0, [Regular(desired, 5)], []));
            result.ending.Stable? && result.w.log == [Regular(desired, 5), Regular(foreign, 5), Regular(desired, 5)]
  {
    hide PathOk, IndexFor, Timeout, PollInterval, StableWindow, Poll;
    var env := OnePollIntruder(job, list, index, desired, foreign);
    var was := [Regular(desired, 5)];
    var log := [Regular(desired, 5), Regular(foreign, 5), Regular(desired, 5)];
    var started := World(1, 0, was, []);
    assert Step(env, World(0, 0, was, [])) == started;
    assert was + [] == was;
    AgreeingPoll(env, job, 0, started, NoWindow, desired, list, index);
    assert was + env(6).installs == log;
    assert Confirm(env, job, World(6, 0, was, []), Window(0, 5), index) == PollDone(World(9, 0, log, []));
  }

  lemma IntruderBetweenPolls(job: Job, settings: Settings, desired: Document, foreign: Document, list: seq<HostEntry>, index: string)
    requires PathOk(job) && job.desired == Some(desired) && desired.Parsed?
    requires IndexFor(Some(list), job.fileName) == Some(index) && StableWindow(settings) > 0
    ensures var env := TwoPollIntruder(job, list, index, desired, foreign, StableWindow(settings));
            var result := Await(env, job, settings, World(0, 0, [Regular(desired, 5)], []));
            result.ending.Stable? && result.w.log == [Regular(desired, 5), Regular(foreign, 5), Regular(desired, 5)]
  {
    hide PathOk, IndexFor, Timeout, PollInterval, StableWindow, Poll, Confirm;
    var stableWindow, interval := StableWindow(settings), PollInterval(settings);
    var env := TwoPollIntruder(job, list, index, desired, foreign, stableWindow);
    var was := [Regular(desired, 5)];
    var started := World(1, 0, was, []);
    assert Step(env, World(0, 0, was, [])) == started;
    assert was + [] == was;
    AgreeingPoll(env, job, stableWindow, started, NoWindow, desired, list, index);
    assert Poll(env, job, stableWindow, started, NoWindow) == PollAgain(World(6, 0, was, []), Window(0, 5));
    var second := World(8, interval, [Regular(desired, 5), Regular(foreign, 5)], []);
    assert Later(Step(env, Step(env, World(6, 0, was, []))), interval) == second;
    PollAfterIntruder(job, stableWindow, interval, desired, foreign, list, index);
    var deadline := started.clock + Timeout(settings);
    var checked := Step(env, World(6, 0, was, []));
    assert checked.clock <= deadline && !env(checked.tick).cancelled;
    assert AwaitFrom(env, job, settings, deadline, second, Window(0, 5)).ending.Stable?;
  }

  lemma PollAfterIntruder(job: Job, stableWindow: nat, interval: nat, desired: Document, foreign: Document, list: seq<HostEntry>, index: string)
    requires PathOk(job) && job.desired == Some(desired) && desired.Parsed?
    requires IndexFor(Some(list), job.fileName) == Some(index)
    ensures var env := TwoPollIntruder(job, list, index, desired, foreign, stableWindow);
            var spoilt := World(8, interval, [Regular(desired, 5), Regular(foreign, 5)], []);
            Poll(env, job, stableWindow, spoilt, Window(0, 5))
            == PollDone(World(16, interval + stableWindow, [Regular(desired, 5), Regular(foreign, 5), Regular(desired, 5)], []))
  {
    hide PathOk, IndexFor, Poll;
    var env := TwoPollIntruder(job, list, index, desired, foreign, stableWindow);
    var spoilt := World(8, interval, [Regular(desired, 5), Regular(foreign, 5)], []);
    var log := [Regular(desired, 5), Regular(foreign, 5), Regular(desired, 5)];
    assert spoilt.log + env(8).installs == log && log + [] == log;
    AgreeingPoll(env, job, stableWindow, spoilt, Window(0, 5), desired, list, index);
    var timed := World(13, interval + stableWindow, log, []);
    assert Confirm(env, job, timed, Window(0, 5), index) == PollDone(World(16, interval + stableWindow, log, []));
  }
}
