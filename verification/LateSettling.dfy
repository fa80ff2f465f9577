/**
 Whole waits against a host that acts freely at first: whatever it answers and
 writes before it settles, the wait repairs the file and then succeeds.
 */
module LateSettling {
  import opened Text
  import opened Platform
  import opened Lifecycle
  import opened Resolver
  import opened Watcher
  import opened WatcherSafety
  import opened WatcherProgress

  /** The file stays a regular one, whatever its content; writes go through, and the caller waits on. */
  ghost predicate BenignMove(move: Move) {
    !move.cancelled && move.writeWorks && forall file | file in move.installs :: file.Regular?
  }

  ghost predicate BenignMoves(env: Environment, from: nat, until: nat) {
    forall tick: nat | from <= tick < until :: BenignMove(env(tick))
  }

  /** Nobody else writes the file, and the plugin's writes go through. */
  ghost predicate CalmMoves(env: Environment, from: nat, until: nat) {
    forall tick: nat | from <= tick < until :: QuietMove(env(tick)) && env(tick).writeWorks
  }

  /** The world and the window after one iteration, or where the wait ends if that iteration ends it. */
  ghost function NextHead(env: Environment, job: Job, settings: Settings, w: World, window: Window): (World, Window) {
    match Poll(env, job, StableWindow(settings), w, window)
    case PollAgain(w', window') => (Later(Step(env, Step(env, w')), PollInterval(settings)), window')
    case PollDone(w') => (w', window)
    case PollError(w') => (w', window)
  }

  /** The first loop head at or after clock time `time`, without regard to the deadline. */
  ghost function HeadAt(env: Environment, job: Job, settings: Settings, w: World, window: Window, time: nat): (World, Window)
    decreases if w.clock >= time then 0 else time - w.clock
  {
    hide Poll;
    PollExtends(env, job, StableWindow(settings), w, window);
    var next := NextHead(env, job, settings, w, window);
    if w.clock >= time then (w, window)
    else if Poll(env, job, StableWindow(settings), w, window).PollAgain? then HeadAt(env, job, settings, next.0, next.1, time)
    else next
  }

  /** That loop head, or the next one when the file must first be repaired. */
  ghost function SettlingHead(env: Environment, job: Job, settings: Settings, w: World, window: Window, time: nat): (World, Window) {
    var head := HeadAt(env, job, settings, w, window, time);
    if Current(head.0).Regular? && ContentOk(job, Current(head.0).document) then head
    else NextHead(env, job, settings, head.0, head.1)
  }

  lemma NextHeadExtends(env: Environment, job: Job, settings: Settings, w: World, window: Window)
    ensures var poll, (next, _) := Poll(env, job, StableWindow(settings), w, window), NextHead(env, job, settings, w, window);
            && w.tick <= poll.w.tick <= next.tick && w.clock <= poll.w.clock <= next.clock
            && (poll.PollAgain? ==> poll.w.tick + 2 == next.tick && Step(env, poll.w).clock <= next.clock)
  {
    hide Poll, PollInterval, StableWindow;
    PollExtends(env, job, StableWindow(settings), w, window);
  }

  lemma {:induction false} HeadIsLater(env: Environment, job: Job, settings: Settings, w: World, window: Window, time: nat)
    ensures var (head, _) := HeadAt(env, job, settings, w, window, time); w.tick <= head.tick && w.clock <= head.clock
    ensures var (head, _), (settled, _) := HeadAt(env, job, settings, w, window, time), SettlingHead(env, job, settings, w, window, time);
            head.tick <= settled.tick && head.clock <= settled.clock
    decreases if w.clock >= time then 0 else time - w.clock
  {
    hide Poll, NextHead, ContentOk, PollInterval, StableWindow;
    var head := HeadAt(env, job, settings, w, window, time);
    NextHeadExtends(env, job, settings, w, window);
    NextHeadExtends(env, job, settings, head.0, head.1);
    PollExtends(env, job, StableWindow(settings), w, window);
    if w.clock < time && Poll(env, job, StableWindow(settings), w, window).PollAgain? {
      var next := NextHead(env, job, settings, w, window);
      LaterHead(env, job, settings, w, window);
      HeadIsLater(env, job, settings, next.0, next.1, time);
    }
  }

  lemma LaterHead(env: Environment, job: Job, settings: Settings, w: World, window: Window)
    ensures Poll(env, job, StableWindow(settings), w, window).PollAgain? ==> NextHead(env, job, settings, w, window).0.clock > w.clock
  {
    hide Poll, PollInterval, StableWindow;
    PollExtends(env, job, StableWindow(settings), w, window);
  }

  // ---------- before the host has settled ----------

  lemma BenignStep(env: Environment, w: World, until: nat)
    requires BenignMoves(env, w.tick, until) && w.tick < until && Current(w).Regular?
    ensures Current(Step(env, w)).Regular? && BenignMoves(env, w.tick + 1, until)
    ensures !env(w.tick).cancelled && env(w.tick).writeWorks
  {
    var installs := env(w.tick).installs;
    assert BenignMove(env(w.tick));
    if installs != [] {
      assert installs[|installs| - 1] in installs;
    }
  }

  lemma BenignConfirm(env: Environment, job: Job, w: World, window: Window, index: string, until: nat)
    requires window.Window? && Current(w).Regular?
    requires BenignMoves(env, w.tick, until) && Confirm(env, job, w, window, index).w.tick <= until
    ensures var result := Confirm(env, job, w, window, index);
            && !result.PollError? && Current(result.w).Regular?
            && (result.PollAgain? ==> result.window.NoWindow?)
  {
    hide BenignMoves, ContentOk, Ready, Lookup, Current, Step;
    var statted := Step(env, w);
    var read := Step(env, statted);
    StepTick(env, w);
    StepTick(env, statted);
    StepTick(env, read);
    BenignStep(env, w, until);
    BenignStep(env, statted, until);
    BenignStep(env, read, until);
  }

  lemma StepTick(env: Environment, w: World)
    ensures Step(env, w).tick == w.tick + 1 && w.clock <= Step(env, w).clock
  {
  }

  lemma BenignObserve(env: Environment, job: Job, stableWindow: nat, w: World, window: Window, modTime: Time, until: nat)
    requires Current(w).Regular? && (window.Window? ==> window.since <= w.clock)
    requires BenignMoves(env, w.tick, until) && Observe(env, job, stableWindow, w, window, modTime).w.tick <= until
    ensures var result := Observe(env, job, stableWindow, w, window, modTime);
            && !result.PollError? && Current(result.w).Regular?
            && (result.PollAgain? && result.window.Window? ==> result.window.since <= result.w.clock)
  {
    hide BenignMoves, IndexFor, Ready, Lookup, Current, Step, Confirm;
    var listed := Step(env, w);
    var asked := Step(env, listed);
    var timed := Step(env, asked);
    StepTick(env, w);
    StepTick(env, listed);
    StepTick(env, asked);
    ObserveExtends(env, job, stableWindow, w, window, modTime);
    BenignStep(env, w, until);
    var index := IndexFor(env(w.tick).list, job.fileName);
    if index.Some? {
      var open := Opened(window, timed.clock, modTime);
      ConfirmExtends(env, job, timed, open, index.value);
      BenignStep(env, listed, until);
      BenignStep(env, asked, until);
      if timed.clock - open.since >= stableWindow
         && Observe(env, job, stableWindow, w, window, modTime) == Confirm(env, job, timed, open, index.value) {
        BenignConfirm(env, job, timed, open, index.value, until);
      }
    }
  }

  lemma PollTicks(env: Environment, job: Job, stableWindow: nat, w: World, window: Window)
    requires PathOk(job)
    ensures var poll, statted := Poll(env, job, stableWindow, w, window), Step(env, w);
            && poll.w.tick > w.tick
            && (Current(statted).Regular? ==> poll.w.tick > w.tick + 1)
  {
    hide PathOk, CredentialPayloadEqual, Current, Step, Observe, Rewrite;
    var statted := Step(env, w);
    var read := Step(env, statted);
    StepTick(env, w);
    StepTick(env, statted);
    if Current(statted).Regular? {
      ObserveExtends(env, job, stableWindow, read, window, Current(statted).modTime);
    }
    if job.desired.Some? {
      RewriteExtends(env, job, job.desired.value, read);
    }
  }

  /** A poll of a regular file that is only ever replaced by regular files does not break the wait. */
  lemma BenignPoll(env: Environment, job: Job, stableWindow: nat, w: World, window: Window, until: nat)
    requires PathOk(job) && (job.desired.Some? ==> job.desired.value.Parsed?)
    requires Current(w).Regular? && (window.Window? ==> window.since <= w.clock)
    requires BenignMoves(env, w.tick, until) && Poll(env, job, stableWindow, w, window).w.tick <= until
    ensures var result := Poll(env, job, stableWindow, w, window);
            && !result.PollError? && Current(result.w).Regular?
            && (result.PollAgain? && result.window.Window? ==> result.window.since <= result.w.clock)
  {
    hide BenignMoves, PathOk, CredentialPayloadEqual, Current, Step, Observe, Rewrite;
    var statted := Step(env, w);
    var read := Step(env, statted);
    StepTick(env, w);
    StepTick(env, statted);
    PollTicks(env, job, stableWindow, w, window);
    BenignStep(env, w, until);
    BenignStep(env, statted, until);
    if ContentOk(job, Readable(Current(read)).value) {
      BenignObserve(env, job, stableWindow, read, window, Current(statted).modTime, until);
    } else {
      BenignRewrite(env, job, job.desired.value, read, until);
    }
  }

  lemma BenignRewrite(env: Environment, job: Job, document: Document, w: World, until: nat)
    requires PathOk(job) && document.Parsed? && Current(w).Regular?
    requires BenignMoves(env, w.tick, until) && Rewrite(env, job, document, w).0.tick <= until
    ensures var (rewritten, ok) := Rewrite(env, job, document, w);
            && ok && rewritten.tick == w.tick + 2 && w.tick + 2 <= until
            && Current(rewritten) == Regular(document, env(w.tick + 1).stamp)
  {
    hide BenignMoves, PathOk, Step;
    var inspected := Step(env, w);
    StepTick(env, w);
    StepTick(env, inspected);
    BenignStep(env, w, until);
    BenignStep(env, inspected, until);
  }

  // ---------- the repair ----------

  lemma CalmStep(env: Environment, w: World, until: nat)
    requires CalmMoves(env, w.tick, until) && w.tick < until
    ensures Current(Step(env, w)) == Current(w) && CalmMoves(env, w.tick + 1, until)
    ensures Step(env, w).tick == w.tick + 1
    ensures !env(w.tick).cancelled && env(w.tick).writeWorks
  {
    assert QuietMove(env(w.tick));
    assert Step(env, w).log == w.log;
  }

  lemma CalmIsBenign(env: Environment, from: nat, until: nat)
    requires CalmMoves(env, from, until)
    ensures BenignMoves(env, from, until)
  {
    forall tick: nat | from <= tick < until
      ensures BenignMove(env(tick))
    {
      assert QuietMove(env(tick));
    }
  }

  /** An iteration on a calm host that finds other content puts the wanted one in its place. */
  lemma CalmRepair(env: Environment, job: Job, settings: Settings, w: World, window: Window)
    requires PathOk(job) && (job.desired.Some? ==> job.desired.value.Parsed?)
    requires Current(w).Regular? && !ContentOk(job, Current(w).document)
    requires CalmMoves(env, w.tick, NextHead(env, job, settings, w, window).0.tick)
    ensures var poll := Poll(env, job, StableWindow(settings), w, window);
            && poll.PollAgain? && poll.window.NoWindow? && !env(poll.w.tick + 1).cancelled
    ensures var next := NextHead(env, job, settings, w, window);
            next.1.NoWindow? && Current(next.0).Regular? && ContentOk(job, Current(next.0).document)
  {
    hide PathOk, Step, Current, CalmMoves, BenignMoves, StableWindow, PollInterval, Rewrite, Observe, NextHead;
    var until := NextHead(env, job, settings, w, window).0.tick;
    var poll := Poll(env, job, StableWindow(settings), w, window);
    NextHeadExtends(env, job, settings, w, window);
    PollTicks(env, job, StableWindow(settings), w, window);
    CalmStep(env, w, until);
    var statted := Step(env, w);
    CalmStep(env, statted, until);
    var read := Step(env, statted);
    CalmIsBenign(env, read.tick, until);
    BenignRewrite(env, job, job.desired.value, read, until);
    CalmWithin(env, w.tick, until, poll.w.tick);
    RepairedHead(env, job, settings, w, window);
  }

  lemma CalmWithin(env: Environment, from: nat, until: nat, later: nat)
    requires CalmMoves(env, from, until) && from <= later
    ensures CalmMoves(env, later, until)
  {
  }

  /** The two actions after a repair leave the repaired file alone. */
  lemma RepairedHead(env: Environment, job: Job, settings: Settings, w: World, window: Window)
    requires var poll := Poll(env, job, StableWindow(settings), w, window);
             poll.PollAgain? && CalmMoves(env, poll.w.tick, poll.w.tick + 2)
    ensures var poll, next := Poll(env, job, StableWindow(settings), w, window), NextHead(env, job, settings, w, window);
            Current(next.0) == Current(poll.w) && next.1 == poll.window && !env(poll.w.tick + 1).cancelled
  {
    hide Poll, StableWindow, PollInterval, CalmMoves, Step, Current;
    var w' := Poll(env, job, StableWindow(settings), w, window).w;
    CalmStep(env, w', w'.tick + 2);
    CalmStep(env, Step(env, w'), w'.tick + 2);
    SameFileLater(Step(env, Step(env, w')), PollInterval(settings));
  }

  lemma SameFileLater(w: World, duration: nat)
    ensures Current(Later(w, duration)) == Current(w)
  {
  }

  // ---------- reaching the settled host ----------

  function Earlier(a: nat, b: nat): nat {
    if a <= b then a else b
  }

  /**
   A wait on a benign host, whatever the host answers, either succeeds or goes
   on from the settling head, where the file is the wanted one.
   */
  lemma {:induction false} WaitReachesSettling(env: Environment, job: Job, settings: Settings, deadline: nat, w: World, window: Window, time: nat)
    requires PathOk(job) && (job.desired.Some? ==> job.desired.value.Parsed?)
    requires Current(w).Regular? && (window.Window? ==> window.since <= w.clock)
    requires var (head, _) := HeadAt(env, job, settings, w, window, time);
             var (settled, _) := SettlingHead(env, job, settings, w, window, time);
             var end := AwaitFrom(env, job, settings, deadline, w, window).w.tick;
             && BenignMoves(env, w.tick, Earlier(head.tick, end)) && CalmMoves(env, head.tick, Earlier(settled.tick, end))
             && settled.clock <= deadline
    ensures var result := AwaitFrom(env, job, settings, deadline, w, window);
            var (settled, open) := SettlingHead(env, job, settings, w, window, time);
            || (result.ending.Stable? && result.w.tick <= settled.tick && result.w.clock <= settled.clock && Current(result.w).Regular?)
            || (&& SameEnd(result, AwaitFrom(env, job, settings, deadline, settled, open))
                && Current(settled).Regular? && ContentOk(job, Current(settled).document)
                && (open.Window? ==> open.since <= settled.clock))
    decreases if w.clock >= time then 0 else time - w.clock
  {
    hide PathOk, Poll, Step, Current, ContentOk, CalmMoves, BenignMoves, StableWindow, PollInterval, NextHead;
    HeadIsLater(env, job, settings, w, window, time);
    PollExtends(env, job, StableWindow(settings), w, window);
    NextHeadExtends(env, job, settings, w, window);
    WaitCoversHead(env, job, settings, deadline, w, window);
    var end := AwaitFrom(env, job, settings, deadline, w, window).w.tick;
    if w.clock >= time {
      if !ContentOk(job, Current(w).document) {
        CalmRepair(env, job, settings, w, window);
        WaitGoesOn(env, job, settings, deadline, w, window);
      }
    } else {
      var (head, _) := HeadAt(env, job, settings, w, window, time);
      var poll := Poll(env, job, StableWindow(settings), w, window);
      var (next, open) := NextHead(env, job, settings, w, window);
      LaterHead(env, job, settings, w, window);
      if poll.PollAgain? {
        HeadIsLater(env, job, settings, next, open, time);
      }
      var until := Earlier(head.tick, end);
      BenignPoll(env, job, StableWindow(settings), w, window, until);
      if poll.PollAgain? {
        BenignWithin(env, w.tick, until, poll.w.tick);
        BenignHead(env, job, settings, w, window, until);
        WaitGoesOn(env, job, settings, deadline, w, window);
        WaitReachesSettling(env, job, settings, deadline, next, open, time);
      }
    }
  }

  /** A loop head before the deadline is reached within the wait, unless the wait ends there. */
  lemma WaitCoversHead(env: Environment, job: Job, settings: Settings, deadline: nat, w: World, window: Window)
    ensures var (next, _) := NextHead(env, job, settings, w, window);
            next.clock <= deadline ==> next.tick <= AwaitFrom(env, job, settings, deadline, w, window).w.tick
  {
    hide Poll, PollInterval, StableWindow, AwaitFrom;
    WaitCoversPoll(env, job, settings, deadline, w, window);
    NextHeadExtends(env, job, settings, w, window);
  }

  ghost predicate SameEnd(result: AwaitResult, other: AwaitResult) {
    result.ending == other.ending && result.w == other.w
  }

  /** A wait that is neither over nor late nor cancelled goes on from the next loop head. */
  lemma WaitGoesOn(env: Environment, job: Job, settings: Settings, deadline: nat, w: World, window: Window)
    requires var poll := Poll(env, job, StableWindow(settings), w, window); poll.PollAgain? && !env(poll.w.tick + 1).cancelled
    requires NextHead(env, job, settings, w, window).0.clock <= deadline
    ensures var (next, open) := NextHead(env, job, settings, w, window);
            SameEnd(AwaitFrom(env, job, settings, deadline, w, window), AwaitFrom(env, job, settings, deadline, next, open))
  {
    hide Poll, PollInterval, StableWindow;
    NextHeadExtends(env, job, settings, w, window);
    PollExtends(env, job, StableWindow(settings), w, window);
  }

  lemma BenignWithin(env: Environment, from: nat, until: nat, later: nat)
    requires BenignMoves(env, from, until) && from <= later
    ensures BenignMoves(env, later, until)
  {
  }

  /** The file is still regular, and the wait not cancelled, at the loop head after a benign poll. */
  lemma BenignHead(env: Environment, job: Job, settings: Settings, w: World, window: Window, until: nat)
    requires var poll := Poll(env, job, StableWindow(settings), w, window);
             && poll.PollAgain? && Current(poll.w).Regular? && poll.w.tick + 2 <= until
             && BenignMoves(env, poll.w.tick, until)
             && (poll.window.Window? ==> poll.window.since <= poll.w.clock)
    ensures var poll, (next, open) := Poll(env, job, StableWindow(settings), w, window), NextHead(env, job, settings, w, window);
            && !env(poll.w.tick + 1).cancelled && BenignMoves(env, next.tick, until)
            && Current(next).Regular? && (open.Window? ==> open.since <= next.clock)
  {
    hide Poll, StableWindow, PollInterval, BenignMoves, Step, Current;
    var w' := Poll(env, job, StableWindow(settings), w, window).w;
    NextHeadExtends(env, job, settings, w, window);
    StepTick(env, w');
    BenignStep(env, w', until);
    BenignStep(env, Step(env, w'), until);
    SameFileLater(Step(env, Step(env, w')), PollInterval(settings));
  }

  // ---------- whole waits ----------

  /**
   What the host does while one wait lasts: benign moves up to the first loop
   head at or after clock time `time`, calm ones while the file is repaired if
   it must be, and from the settling head on the file's record is ready.
   */
  ghost predicate Settles(env: Environment, job: Job, settings: Settings, w: World, index: string, time: nat) {
    var started := Step(env, w);
    var (head, _) := HeadAt(env, job, settings, started, NoWindow, time);
    var (settled, _) := SettlingHead(env, job, settings, started, NoWindow, time);
    var end := Await(env, job, settings, w).w.tick;
    && BenignMoves(env, w.tick, Earlier(head.tick, end))
    && CalmMoves(env, head.tick, Earlier(settled.tick, end))
    && (Current(settled).Regular? ==> SettledMoves(env, job, Current(settled).modTime, index, settled.tick, end))
  }

  /** Where the host has settled, for a wait that begins in `w`. */
  ghost function SettledWorld(env: Environment, job: Job, settings: Settings, w: World, time: nat): World {
    SettlingHead(env, job, settings, Step(env, w), NoWindow, time).0
  }

  /**
   A whole wait on a host that settles at `time`, whatever it answered and wrote
   before, succeeds if the window still fits before the deadline, and soon after
   the settling.
   */
  lemma SettledWaitSucceeds(env: Environment, job: Job, settings: Settings, w: World, index: string, time: nat, delay: nat)
    requires PathOk(job) && (job.desired.Some? ==> job.desired.value.Parsed?) && Current(w).Regular?
    requires Prompt(env, delay) && Settles(env, job, settings, w, index, time)
    requires SettledWorld(env, job, settings, w, time).clock + StableWindow(settings) + 6 * delay
             <= Step(env, w).clock + Timeout(settings)
    ensures var result := Await(env, job, settings, w);
            && result.ending.Stable? && Current(result.w).Regular?
            && result.w.clock <= SettledWorld(env, job, settings, w, time).clock + StableWindow(settings) + PollInterval(settings) + 15 * delay
  {
    hide PathOk, Step, Current, ContentOk, CalmMoves, BenignMoves, StableWindow, PollInterval, Timeout, AwaitFrom,
         SettlingHead, HeadAt, SettledMoves;
    var started := Step(env, w);
    var deadline := started.clock + Timeout(settings);
    var (head, _) := HeadAt(env, job, settings, started, NoWindow, time);
    var (settled, open) := SettlingHead(env, job, settings, started, NoWindow, time);
    var end := Await(env, job, settings, w).w.tick;
    StepTick(env, w);
    HeadIsLater(env, job, settings, started, NoWindow, time);
    AwaitExtends(env, job, settings, deadline, started, NoWindow);
    BenignStep(env, w, Earlier(head.tick, end));
    WaitReachesSettling(env, job, settings, deadline, started, NoWindow, time);
    var result := Await(env, job, settings, w);
    if !(result.ending.Stable? && result.w.clock <= settled.clock && Current(result.w).Regular?) {
      assert Settled(env, job, settled, index, end);
      SettledHostIsSeen(env, job, settings, deadline, settled, open, index, delay);
      SameLogSameFile(settled, result.w);
    }
  }

  /** The settling head comes within two iterations of the settling time. */
  lemma SettlingIsSoon(env: Environment, job: Job, settings: Settings, w: World, time: nat, delay: nat)
    requires Prompt(env, delay)
    ensures var from := if time > Step(env, w).clock then time else Step(env, w).clock;
            SettledWorld(env, job, settings, w, time).clock <= from + 2 * (PollInterval(settings) + 10 * delay)
  {
    hide NextHead, HeadAt, Step, Current, ContentOk, PollInterval, Prompt;
    var started := Step(env, w);
    var (head, open) := HeadAt(env, job, settings, started, NoWindow, time);
    HeadIsSoon(env, job, settings, started, NoWindow, time, delay);
    PromptHead(env, job, settings, head, open, delay);
  }

  lemma {:induction false} HeadIsSoon(env: Environment, job: Job, settings: Settings, w: World, window: Window, time: nat, delay: nat)
    requires Prompt(env, delay)
    ensures HeadAt(env, job, settings, w, window, time).0.clock
            <= (if time > w.clock then time + PollInterval(settings) + 10 * delay else w.clock)
    decreases if w.clock >= time then 0 else time - w.clock
  {
    hide Poll, NextHead, Prompt, PollInterval, StableWindow;
    if w.clock < time {
      var (next, open) := NextHead(env, job, settings, w, window);
      PromptHead(env, job, settings, w, window, delay);
      LaterHead(env, job, settings, w, window);
      if Poll(env, job, StableWindow(settings), w, window).PollAgain? {
        HeadIsSoon(env, job, settings, next, open, time, delay);
      }
    }
  }

  lemma PromptHead(env: Environment, job: Job, settings: Settings, w: World, window: Window, delay: nat)
    requires Prompt(env, delay)
    ensures NextHead(env, job, settings, w, window).0.clock <= w.clock + PollInterval(settings) + 10 * delay
  {
    hide Poll, Prompt, PollInterval, StableWindow, Step;
    PromptPoll(env, job, StableWindow(settings), w, window, delay);
    var poll := Poll(env, job, StableWindow(settings), w, window);
    PromptStep(env, poll.w, delay);
    PromptStep(env, Step(env, poll.w), delay);
  }

  lemma PromptPoll(env: Environment, job: Job, stableWindow: nat, w: World, window: Window, delay: nat)
    requires Prompt(env, delay)
    ensures Poll(env, job, stableWindow, w, window).w.clock <= w.clock + 8 * delay
  {
    hide PathOk, CredentialPayloadEqual, Prompt, Step, Current, Observe, Rewrite;
    var statted := Step(env, w);
    var read := Step(env, statted);
    PromptStep(env, w, delay);
    PromptStep(env, statted, delay);
    if Current(statted).Regular? {
      PromptObserve(env, job, stableWindow, read, window, Current(statted).modTime, delay);
    }
    if job.desired.Some? {
      PromptRewrite(env, job, job.desired.value, read, delay);
    }
  }

  lemma PromptRewrite(env: Environment, job: Job, document: Document, w: World, delay: nat)
    requires Prompt(env, delay)
    ensures Rewrite(env, job, document, w).0.clock <= w.clock + 2 * delay
  {
    hide PathOk, Prompt, Step, Current;
    PromptStep(env, w, delay);
    PromptStep(env, Step(env, w), delay);
  }

  lemma PromptObserve(env: Environment, job: Job, stableWindow: nat, w: World, window: Window, modTime: Time, delay: nat)
    requires Prompt(env, delay)
    ensures Observe(env, job, stableWindow, w, window, modTime).w.clock <= w.clock + 6 * delay
  {
    hide Prompt, Step, Current, IndexFor, Ready, ContentOk, Lookup;
    var listed := Step(env, w);
    var asked := Step(env, listed);
    var timed := Step(env, asked);
    var statted := Step(env, timed);
    var read := Step(env, statted);
    PromptStep(env, w, delay);
    PromptStep(env, listed, delay);
    PromptStep(env, asked, delay);
    PromptStep(env, timed, delay);
    PromptStep(env, statted, delay);
    PromptStep(env, read, delay);
  }

  /** A wait on wanted content that nobody else writes leaves the file alone, however it ends. */
  lemma {:induction false} QuietWaitKeepsFile(env: Environment, job: Job, settings: Settings, deadline: nat, w: World, window: Window)
    requires Current(w).Regular? && ContentOk(job, Current(w).document)
    requires NoInstalls(env, w.tick, AwaitFrom(env, job, settings, deadline, w, window).w.tick)
    ensures var end := AwaitFrom(env, job, settings, deadline, w, window).w; end.log == w.log && end.writes == w.writes
    decreases if w.clock > deadline then 0 else deadline - w.clock + 1
  {
    hide Poll, Step, Current, ContentOk, NoInstalls, PollInterval, StableWindow;
    var end := AwaitFrom(env, job, settings, deadline, w, window).w;
    PollExtends(env, job, StableWindow(settings), w, window);
    WaitCoversPoll(env, job, settings, deadline, w, window);
    QuietPoll(env, job, StableWindow(settings), w, window, end.tick);
    match Poll(env, job, StableWindow(settings), w, window) {
      case PollAgain(w', window') =>
        var checked := Step(env, w');
        StepTick(env, w');
        StepTick(env, checked);
        QuietStep(env, w, w', end.tick);
        if checked.clock <= deadline {
          QuietStep(env, w, checked, end.tick);
        }
        if checked.clock <= deadline && !env(checked.tick).cancelled {
          var next := Later(Step(env, checked), PollInterval(settings));
          SameLogSameFile(w, next);
          QuietWithin(env, w.tick, end.tick, next.tick);
          QuietWaitKeepsFile(env, job, settings, deadline, next, window');
        }
      case _ =>
    }
  }

  ghost predicate NoInstalls(env: Environment, from: nat, until: nat) {
    forall tick: nat | from <= tick < until :: env(tick).installs == []
  }

  lemma QuietWithin(env: Environment, from: nat, until: nat, later: nat)
    requires NoInstalls(env, from, until) && from <= later
    ensures NoInstalls(env, later, until)
  {
  }

  lemma QuietStep(env: Environment, start: World, w: World, until: nat)
    requires NoInstalls(env, start.tick, until) && start.tick <= w.tick < until
    ensures Step(env, w).log == w.log && Step(env, w).writes == w.writes
  {
  }

  lemma SameLogSameFile(w: World, w': World)
    requires w.log == w'.log
    ensures Current(w) == Current(w')
  {
  }

  lemma QuietPoll(env: Environment, job: Job, stableWindow: nat, w: World, window: Window, until: nat)
    requires Current(w).Regular? && ContentOk(job, Current(w).document)
    requires NoInstalls(env, w.tick, until) && Poll(env, job, stableWindow, w, window).w.tick <= until
    ensures var end := Poll(env, job, stableWindow, w, window).w; end.log == w.log && end.writes == w.writes
  {
    hide PathOk, ContentOk, Step, Current, Observe, NoInstalls;
    if PathOk(job) {
      var statted := Step(env, w);
      var read := Step(env, statted);
      PollTicks(env, job, stableWindow, w, window);
      StepTick(env, w);
      StepTick(env, statted);
      QuietStep(env, w, w, until);
      SameLogSameFile(w, statted);
      QuietStep(env, w, statted, until);
      SameLogSameFile(w, read);
      QuietWithin(env, w.tick, until, read.tick);
      QuietObserve(env, job, stableWindow, read, window, Current(statted).modTime, until);
    }
  }

  lemma QuietObserve(env: Environment, job: Job, stableWindow: nat, w: World, window: Window, modTime: Time, until: nat)
    requires NoInstalls(env, w.tick, until) && Observe(env, job, stableWindow, w, window, modTime).w.tick <= until
    ensures var end := Observe(env, job, stableWindow, w, window, modTime).w; end.log == w.log && end.writes == w.writes
  {
    hide IndexFor, Ready, ContentOk, Lookup;
  }

  /**
   Settling alone does not count: the window counts from the first poll that sees
   the settled host. For every job and settings with a window there is a host
   that is settled from the start and for ever, and a poll that reads the clock a
   whole window later, and does not succeed.
   */
  lemma SettledIsNotYetSeen(job: Job, settings: Settings, desired: Document, list: seq<HostEntry>, index: string)
    returns (env: Environment, w: World)
    requires PathOk(job) && job.desired == Some(desired) && desired.Parsed?
    requires IndexFor(Some(list), job.fileName) == Some(index) && StableWindow(settings) > 0
    ensures forall until: nat :: Settled(env, job, w, index, until)
    ensures var poll := Poll(env, job, StableWindow(settings), w, NoWindow);
            poll.PollAgain? && poll.w.clock >= w.clock + StableWindow(settings)
  {
    hide PathOk, IndexFor, StableWindow, Poll;
    w := World(0, 0, [Regular(desired, 5)], []);
    var quiet, late := Agreeing(job, list, index), StableWindow(settings);
    env := (tick: nat) => if tick == 4 then quiet.(elapsed := late) else quiet;
    assert w.log + env(0).installs == w.log;
    AgreeingPoll(env, job, StableWindow(settings), w, NoWindow, desired, list, index);
    forall tick: nat
      ensures SettledMove(job, 5, index, env(tick))
    {
    }
  }
}
