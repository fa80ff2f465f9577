/**
 What the parts of a wait must do, in the terms of the host's answers: when a
 record counts, when a write is made, and how a wait ends.
 */
module WatcherLaws {
  import opened Text
  import opened Lifecycle
  import opened Resolver
  import opened Watcher
  import opened WatcherSafety

  // ---------- settings and the index of a file ----------

  /** Unset durations are five seconds and 25 milliseconds; a negative window is none. */
  lemma DefaultSettings(settings: Settings)
    ensures Timeout(settings) == if settings.timeout > 0 then settings.timeout else 5_000_000_000
    ensures PollInterval(settings) == if settings.pollInterval > 0 then settings.pollInterval else 25_000_000
    ensures StableWindow(settings) == if settings.stableWindow >= 0 then settings.stableWindow else 0
  {
  }

  /**
   The listing gives a file an index exactly when some entry that is not
   runtime-only has the file's name and that index, and no such entry has another.
   */
  lemma IndexForExactly(entries: seq<HostEntry>, fileName: string, index: string)
    ensures IndexFor(None, fileName).None?
    ensures IndexFor(Some(entries), fileName) == Some(index)
            <==> && index != ""
                 && (exists entry | entry in entries ::
                       !entry.runtimeOnly && TrimSpace(entry.name) == fileName && TrimSpace(entry.authIndex) == index)
                 && (forall entry | entry in entries && !entry.runtimeOnly && TrimSpace(entry.name) == fileName ::
                       TrimSpace(entry.authIndex) == "" || TrimSpace(entry.authIndex) == index)
  {
    hide TrimSpace;
    SingleIndex(entries, fileName, index);
    var indexes := Indexes(entries, fileName);
    if indexes == {index} {
      assert index in indexes;
      forall entry | entry in entries && !entry.runtimeOnly && TrimSpace(entry.name) == fileName && TrimSpace(entry.authIndex) != ""
        ensures TrimSpace(entry.authIndex) == index
      {
        assert TrimSpace(entry.authIndex) in indexes;
      }
    } else if index in indexes {
      var other :| other in indexes && other != index;
    }
  }

  lemma SingleIndex(entries: seq<HostEntry>, fileName: string, index: string)
    ensures IndexFor(Some(entries), fileName) == Some(index) <==> Indexes(entries, fileName) == {index}
  {
    hide Indexes;
    var indexes := Indexes(entries, fileName);
    if |indexes| == 1 {
      var only :| only in indexes;
      assert |indexes - {only}| == 0;
      assert indexes == {only};
    }
  }

  // ---------- records that never let a wait succeed ----------

  /** A host whose records always carry the other flag never lets a wait succeed. */
  lemma OtherFlagNeverStable(env: Environment, job: Job, settings: Settings, w: World)
    requires forall tick: nat, index | index in env(tick).runtime :: env(tick).runtime[index].disabled != job.disabled
    ensures !Await(env, job, settings, w).ending.Stable?
  {
    hide Await, Upheld, FilledLast, WaitHeads, Recurs, HeldThroughout, Brackets;
    if Await(env, job, settings, w).ending.Stable? {
      var first, last, modTime, opening := StableMeansSampled(env, job, settings, w);
      assert false;
    }
  }

  /** A host whose records are always older than the file never lets a wait succeed. */
  lemma OlderRecordNeverStable(env: Environment, job: Job, settings: Settings, w: World)
    requires forall tick: nat, index, file | index in env(tick).runtime && file in Await(env, job, settings, w).w.log && file.Regular? ::
               env(tick).runtime[index].updatedAt < file.modTime
    ensures !Await(env, job, settings, w).ending.Stable?
  {
    hide Await, Upheld, FilledLast, WaitHeads, Recurs, HeldThroughout;
    if Await(env, job, settings, w).ending.Stable? {
      var first, last, modTime, opening := StableMeansSampled(env, job, settings, w);
      assert false;
    }
  }

  /** A host that never lists the file under one index never lets a wait succeed. */
  lemma UnlistedNeverStable(env: Environment, job: Job, settings: Settings, w: World)
    requires forall tick: nat :: IndexFor(env(tick).list, job.fileName).None?
    ensures !Await(env, job, settings, w).ending.Stable?
  {
    hide Await, Upheld, FilledLast, WaitHeads, Recurs, HeldThroughout, Brackets, IndexFor;
    if Await(env, job, settings, w).ending.Stable? {
      var first, last, modTime, opening := StableMeansSampled(env, job, settings, w);
      assert false;
    }
  }

  // ---------- what a wait writes ----------

  /**
   Between two loop heads the plugin writes nothing, or the desired payload once:
   after it read other content, right after it found the file regular again.
   */
  ghost predicate WritesAfterInspection(env: Environment, job: Job, head: World, next: World) {
    var statted := Step(env, head);
    var read := Step(env, statted);
    var inspected := Step(env, read);
    next.writes == head.writes
    || (&& job.desired.Some? && next.writes == head.writes + [job.desired.value]
        && Current(statted).Regular? && Readable(Current(read)).Some? && !WantedIn(job, Current(read))
        && Current(inspected).Regular? && env(inspected.tick).writeWorks
        && Step(env, inspected).log + [Regular(job.desired.value, env(inspected.tick).stamp)] <= next.log)
  }

  lemma PollWrites(env: Environment, job: Job, stableWindow: nat, w: World, window: Window)
    ensures WritesAfterInspection(env, job, w, Poll(env, job, stableWindow, w, window).w)
  {
    hide PathOk, CredentialPayloadEqual, Observe, Step;
    var statted := Step(env, w);
    var read := Step(env, statted);
    if Current(statted).Regular? {
      ObserveExtends(env, job, stableWindow, read, window, Current(statted).modTime);
    }
    StepWritesNothing(env, w);
    StepWritesNothing(env, statted);
    StepWritesNothing(env, read);
    StepWritesNothing(env, Step(env, read));
  }

  lemma StepWritesNothing(env: Environment, w: World)
    ensures Step(env, w).writes == w.writes && w.log <= Step(env, w).log && Step(env, w).tick == w.tick + 1
  {
  }

  lemma WrittenStays(env: Environment, job: Job, head: World, w: World, next: World)
    requires WritesAfterInspection(env, job, head, w) && next.writes == w.writes && w.log <= next.log
    ensures WritesAfterInspection(env, job, head, next)
  {
    hide Step, WantedIn;
  }

  /** Where the iteration that begins in `heads[i]` leaves off. */
  function HeadAfter(heads: seq<World>, i: nat, end: World): World {
    if i + 1 < |heads| then heads[i + 1] else end
  }

  /** Every write of a wait is such a write. */
  lemma {:induction false} WaitWritesAfterInspection(
    env: Environment, job: Job, settings: Settings, deadline: nat, w: World, window: Window)
    ensures var heads, end := LoopHeads(env, job, settings, deadline, w, window), AwaitFrom(env, job, settings, deadline, w, window).w;
            forall i: nat | i < |heads| :: WritesAfterInspection(env, job, heads[i], HeadAfter(heads, i, end))
    decreases if w.clock > deadline then 0 else deadline - w.clock + 1
  {
    hide Poll, WritesAfterInspection, PollInterval, StableWindow, HeadAfter;
    PollExtends(env, job, StableWindow(settings), w, window);
    PollWrites(env, job, StableWindow(settings), w, window);
    var end := AwaitFrom(env, job, settings, deadline, w, window).w;
    match Poll(env, job, StableWindow(settings), w, window) {
      case PollAgain(w', window') =>
        var checked := Step(env, w');
        var next := Later(Step(env, checked), PollInterval(settings));
        StepWritesNothing(env, w');
        StepWritesNothing(env, checked);
        WrittenStays(env, job, w, w', checked);
        WrittenStays(env, job, w, w', Step(env, checked));
        WrittenStays(env, job, w, w', next);
        if checked.clock <= deadline && !env(checked.tick).cancelled {
          WaitWritesAfterInspection(env, job, settings, deadline, next, window');
          FirstHead(env, job, settings, deadline, next, window');
          OneMoreHead(env, job, w, next, LoopHeads(env, job, settings, deadline, next, window'), end);
        } else {
          assert LoopHeads(env, job, settings, deadline, w, window) == [w];
          OnlyHead(env, job, w, end);
        }
      case PollDone(w') =>
        assert end == w' && LoopHeads(env, job, settings, deadline, w, window) == [w];
        OnlyHead(env, job, w, w');
      case PollError(w') =>
        assert end == w' && LoopHeads(env, job, settings, deadline, w, window) == [w];
        OnlyHead(env, job, w, w');
    }
  }

  lemma OneMoreHead(env: Environment, job: Job, w: World, next: World, heads: seq<World>, end: World)
    requires heads != [] && heads[0] == next && WritesAfterInspection(env, job, w, next)
    requires forall i: nat | i < |heads| :: WritesAfterInspection(env, job, heads[i], HeadAfter(heads, i, end))
    ensures var all := [w] + heads; forall i: nat | i < |all| :: WritesAfterInspection(env, job, all[i], HeadAfter(all, i, end))
  {
    hide WritesAfterInspection;
    var all := [w] + heads;
    forall i: nat | i < |all|
      ensures WritesAfterInspection(env, job, all[i], HeadAfter(all, i, end))
    {
      if i > 0 {
        var k: nat := i - 1;
        assert all[i] == heads[k] && HeadAfter(all, i, end) == HeadAfter(heads, k, end);
      }
    }
  }

  lemma OnlyHead(env: Environment, job: Job, w: World, end: World)
    requires WritesAfterInspection(env, job, w, end)
    ensures forall i: nat | i < |[w]| :: WritesAfterInspection(env, job, [w][i], HeadAfter([w], i, end))
  {
    hide WritesAfterInspection;
  }

  lemma FirstHead(env: Environment, job: Job, settings: Settings, deadline: nat, w: World, window: Window)
    ensures var heads := LoopHeads(env, job, settings, deadline, w, window); heads != [] && heads[0] == w
  {
    hide Poll;
  }

  /** A repair is refused, and ends the wait, when the file has gone or is no regular file, or the write fails. */
  lemma RefusedRepairBreaksWait(env: Environment, job: Job, settings: Settings, deadline: nat, w: World, window: Window)
    requires var read := Step(env, Step(env, w)); var inspected := Step(env, read);
             && Current(Step(env, w)).Regular? && Readable(Current(read)).Some? && !WantedIn(job, Current(read))
             && (!Current(inspected).Regular? || !env(inspected.tick).writeWorks)
    ensures var result := AwaitFrom(env, job, settings, deadline, w, window);
            result.ending.Broken? && result.polls == 1 && result.w.writes == w.writes
  {
    hide PathOk, CredentialPayloadEqual, StableWindow, Observe;
  }

  // ---------- how a wait ends ----------

  /** The wait goes on from one loop head to the next in time, uncancelled, and an interval later at the earliest. */
  ghost predicate WentOn(env: Environment, interval: nat, deadline: nat, head: World, next: World) {
    && next.tick >= head.tick + 2 && next.clock >= head.clock + interval
    && !env(next.tick - 1).cancelled
    && next.clock - interval - env(next.tick - 1).elapsed <= deadline
  }

  /**
   A wait goes on while the deadline has not passed and the caller waits, ends
   timed out only after the deadline, and cancelled only before it and when the
   caller has cancelled.
   */
  lemma {:induction false} EndingsExplained(env: Environment, job: Job, settings: Settings, deadline: nat, w: World, window: Window)
    ensures var heads, result := LoopHeads(env, job, settings, deadline, w, window), AwaitFrom(env, job, settings, deadline, w, window);
            && |heads| == result.polls
            && (forall i | 0 <= i < |heads| - 1 :: WentOn(env, PollInterval(settings), deadline, heads[i], heads[i + 1]))
            && (result.ending.TimedOut? ==> result.w.clock > deadline)
            && (result.ending.Cancelled? ==>
                  && result.w.tick > 0 && env(result.w.tick - 1).cancelled
                  && result.w.clock - env(result.w.tick - 1).elapsed <= deadline)
    decreases if w.clock > deadline then 0 else deadline - w.clock + 1
  {
    hide Poll, PollInterval, StableWindow;
    PollExtends(env, job, StableWindow(settings), w, window);
    match Poll(env, job, StableWindow(settings), w, window) {
      case PollAgain(w', window') =>
        var checked := Step(env, w');
        if checked.clock <= deadline && !env(checked.tick).cancelled {
          var next := Later(Step(env, checked), PollInterval(settings));
          EndingsExplained(env, job, settings, deadline, next, window');
          var heads := LoopHeads(env, job, settings, deadline, next, window');
          FirstHead(env, job, settings, deadline, next, window');
          var all := [w] + heads;
          assert LoopHeads(env, job, settings, deadline, w, window) == all;
          forall i | 0 <= i < |all| - 1
            ensures WentOn(env, PollInterval(settings), deadline, all[i], all[i + 1])
          {
            if i > 0 {
              assert all[i] == heads[i - 1] && all[i + 1] == heads[i];
            }
          }
        } else {
          assert LoopHeads(env, job, settings, deadline, w, window) == [w];
        }
      case _ =>
        assert LoopHeads(env, job, settings, deadline, w, window) == [w];
    }
  }

  /** An iteration breaks the wait exactly when one of its file operations fails. */
  lemma PollBreaksExactly(env: Environment, job: Job, stableWindow: nat, w: World, window: Window)
    ensures Poll(env, job, stableWindow, w, window).PollError?
            <==> || TrimSpace(job.path) == "" || Base(TrimSpace(job.path)) != job.fileName
                 || !Current(Step(env, w)).Regular?
                 || Readable(Current(Step(env, Step(env, w)))).None?
                 || RepairFails(env, job, w)
                 || ConfirmationFails(env, job, stableWindow, w, window)
  {
    hide TrimSpace, Base, CredentialPayloadEqual, IndexFor;
  }

  ghost predicate RepairFails(env: Environment, job: Job, w: World) {
    var read := Step(env, Step(env, w));
    var inspected := Step(env, read);
    && Readable(Current(read)).Some? && !WantedIn(job, Current(read))
    && (job.desired.value.Malformed? || !Current(inspected).Regular? || !env(inspected.tick).writeWorks)
  }

  /** The window is full, and the file has gone, is no regular file, or cannot be read. */
  ghost predicate ConfirmationFails(env: Environment, job: Job, stableWindow: nat, w: World, window: Window) {
    var read := Step(env, Step(env, w));
    var timed := Step(env, Step(env, Step(env, read)));
    var index, runtime := IndexFor(env(read.tick).list, job.fileName), env(read.tick + 1).runtime;
    && WantedIn(job, Current(read)) && index.Some? && index.value in runtime
    && Current(Step(env, w)).Regular?
    && runtime[index.value].disabled == job.disabled && runtime[index.value].updatedAt >= Current(Step(env, w)).modTime
    && (if window.Window? && window.modTime == Current(Step(env, w)).modTime then timed.clock - window.since >= stableWindow
        else stableWindow == 0)
    && (!Current(Step(env, timed)).Regular? || Readable(Current(Step(env, Step(env, timed)))).None?)
  }
}
