/** A host that settles is noticed: when the waits succeed, and how soon. */
module WatcherProgress {
  import opened Text
  import opened Platform
  import opened Watcher

  /** One settled move: no write, one index for the file, and a ready record under it. */
  predicate QuietMove(move: Move) {
    move.installs == [] && !move.cancelled
  }

  ghost predicate SettledMove(job: Job, modTime: Time, index: string, move: Move) {
    && QuietMove(move)
    && IndexFor(move.list, job.fileName) == Some(index)
    && index in move.runtime
    && move.runtime[index].disabled == job.disabled && move.runtime[index].updatedAt >= modTime
  }

  /** The file has wanted content in `w`, and up to tick `until` the host neither writes nor loses its ready record. */
  ghost predicate Settled(env: Environment, job: Job, w: World, index: string, until: nat) {
    && PathOk(job)
    && Current(w).Regular? && ContentOk(job, Current(w).document)
    && SettledMoves(env, job, Current(w).modTime, index, w.tick, until)
  }

  ghost predicate SettledMoves(env: Environment, job: Job, modTime: Time, index: string, from: nat, until: nat) {
    forall tick: nat | from <= tick < until :: SettledMove(job, modTime, index, env(tick))
  }

  /** No action takes longer than `delay`. */
  ghost predicate Prompt(env: Environment, delay: nat) {
    forall tick: nat :: env(tick).elapsed <= delay
  }

  lemma SettledStep(env: Environment, job: Job, w: World, index: string, until: nat)
    requires Settled(env, job, w, index, until) && w.tick < until
    ensures Settled(env, job, Step(env, w), index, until) && Step(env, w).log == w.log && Step(env, w).writes == w.writes
    ensures !env(w.tick).cancelled
    ensures IndexFor(env(w.tick).list, job.fileName) == Some(index)
    ensures var record := Lookup(env(w.tick).runtime, index); record.Some? && Ready(job, Current(w).modTime, record.value)
  {
    hide PathOk, ContentOk, IndexFor;
    assert SettledMove(job, Current(w).modTime, index, env(w.tick));
  }

  /** The worlds at the observation's clock reading and at the end of the confirmation. */
  function Timed(env: Environment, w: World): World {
    Step(env, Step(env, Step(env, Step(env, Step(env, w)))))
  }

  function Confirmed(env: Environment, w: World): World {
    Step(env, Step(env, Step(env, w)))
  }

  /** The instant the window counts from once a settled poll has read the clock as `now`. */
  function Since(window: Window, now: nat, modTime: Time): nat {
    Opened(window, now, modTime).since
  }

  /**
   While the host is settled, a poll succeeds exactly when its clock reading is
   a stable window past the first settled one; otherwise the window stays open.
   */
  lemma SettledPoll(env: Environment, job: Job, stableWindow: nat, w: World, window: Window, index: string, until: nat)
    requires Settled(env, job, w, index, until)
    requires Poll(env, job, stableWindow, w, window).w.tick <= until
    ensures var timed, modTime := Timed(env, w), Current(w).modTime;
            && timed.log == w.log && timed.tick <= until && Settled(env, job, timed, index, until)
            && Poll(env, job, stableWindow, w, window).w.log == w.log && Poll(env, job, stableWindow, w, window).w.writes == w.writes
            && timed.writes == w.writes
            && Poll(env, job, stableWindow, w, window)
               == if timed.clock - Since(window, timed.clock, modTime) >= stableWindow
                  then PollDone(Confirmed(env, timed))
                  else PollAgain(timed, Opened(window, timed.clock, modTime))
  {
    hide PathOk, ContentOk, IndexFor, Ready, Lookup, Settled, Observe;
    SettledHere(env, job, w, index, until);
    var w1 := Step(env, w);
    var w2 := Step(env, w1);
    if Current(w1).Regular? {
      ObserveExtends(env, job, stableWindow, w2, window, Current(w1).modTime);
    }
    if job.desired.Some? {
      RewriteExtends(env, job, job.desired.value, w2);
    }
    SettledStep(env, job, w, index, until);
    SettledHere(env, job, w1, index, until);
    assert w1.tick < until;
    SettledStep(env, job, w1, index, until);
    SettledHere(env, job, w2, index, until);
    assert Poll(env, job, stableWindow, w, window) == Observe(env, job, stableWindow, w2, window, Current(w).modTime);
    SettledObserve(env, job, stableWindow, w2, window, index, until);
  }

  lemma SettledHere(env: Environment, job: Job, w: World, index: string, until: nat)
    requires Settled(env, job, w, index, until)
    ensures PathOk(job) && Current(w).Regular? && ContentOk(job, Current(w).document)
  {
  }

  lemma SettledObserve(env: Environment, job: Job, stableWindow: nat, w: World, window: Window, index: string, until: nat)
    requires Settled(env, job, w, index, until) && Current(w).Regular?
    requires Observe(env, job, stableWindow, w, window, Current(w).modTime).w.tick <= until
    ensures var timed, modTime := Step(env, Step(env, Step(env, w))), Current(w).modTime;
            && timed.log == w.log && timed.tick <= until && Settled(env, job, timed, index, until)
            && Observe(env, job, stableWindow, w, window, modTime).w.log == w.log && timed.writes == w.writes
            && Observe(env, job, stableWindow, w, window, modTime)
               == if timed.clock - Since(window, timed.clock, modTime) >= stableWindow
                  then PollDone(Confirmed(env, timed))
                  else PollAgain(timed, Opened(window, timed.clock, modTime))
  {
    hide PathOk, ContentOk, IndexFor, Ready, Lookup, Settled, Confirm;
    var modTime := Current(w).modTime;
    var listed := Step(env, w);
    var asked := Step(env, listed);
    var timed := Step(env, asked);
    var open := Opened(window, timed.clock, modTime);
    ObserveExtends(env, job, stableWindow, w, window, modTime);
    SettledStep(env, job, w, index, until);
    ConfirmExtends(env, job, timed, open, index);
    SettledStep(env, job, listed, index, until);
    SettledStep(env, job, asked, index, until);
    if timed.clock - open.since >= stableWindow {
      SettledConfirm(env, job, timed, open, index, until);
    }
  }

  lemma SettledConfirm(env: Environment, job: Job, w: World, window: Window, index: string, until: nat)
    requires Settled(env, job, w, index, until) && Current(w).Regular?
    requires window.Window? && window.modTime == Current(w).modTime
    requires Confirm(env, job, w, window, index).w.tick <= until
    ensures Confirm(env, job, w, window, index) == PollDone(Confirmed(env, w)) && Confirmed(env, w).log == w.log
  {
    hide PathOk, ContentOk, IndexFor, Ready, Lookup, Settled;
    SettledHere(env, job, w, index, until);
    var statted := Step(env, w);
    SettledStep(env, job, w, index, until);
    var read := Step(env, statted);
    SettledStep(env, job, statted, index, until);
    SettledStep(env, job, read, index, until);
  }

  /** The instant the stability window counts from, at the latest. */
  function WindowBase(window: Window, modTime: Time, w: World, delay: nat): nat {
    if window.Window? && window.modTime == modTime then window.since else w.clock + 5 * delay
  }

  /**
   From any point of a wait: if the host stays settled while the wait lasts, and
   the window can fill before the deadline, the wait succeeds, at the latest one
   polling interval and ten actions after the window is full.
   */
  lemma {:induction false} SettledHostIsSeen(env: Environment, job: Job, settings: Settings, deadline: nat, w: World, window: Window, index: string, delay: nat)
    requires Settled(env, job, w, index, AwaitFrom(env, job, settings, deadline, w, window).w.tick)
    requires Prompt(env, delay) && (window.Window? ==> window.since <= w.clock)
    requires WindowBase(window, Current(w).modTime, w, delay) + StableWindow(settings) + delay <= deadline
    ensures var result := AwaitFrom(env, job, settings, deadline, w, window);
            var full := WindowBase(window, Current(w).modTime, w, delay) + StableWindow(settings);
            && result.ending.Stable? && result.w.log == w.log && result.w.writes == w.writes
            && (result.w.clock <= w.clock + 8 * delay || result.w.clock <= full + PollInterval(settings) + 10 * delay)
    decreases if w.clock > deadline then 0 else deadline - w.clock + 1
  {
    hide Poll, Step, ContentOk, PathOk, Timed, Confirmed, StableWindow, PollInterval, SettledMove, Settled;
    var until := AwaitFrom(env, job, settings, deadline, w, window).w.tick;
    SettledHere(env, job, w, index, until);
    WaitCoversPoll(env, job, settings, deadline, w, window);
    SettledPoll(env, job, StableWindow(settings), w, window, index, until);
    PromptRun(env, w, delay);
    var modTime, timed := Current(w).modTime, Timed(env, w);
    var open := Opened(window, timed.clock, modTime);
    if timed.clock - open.since < StableWindow(settings) {
      var checked := Step(env, timed);
      PromptStep(env, timed, delay);
      PromptStep(env, checked, delay);
      assert timed.tick < until && checked.tick < until;
      SettledStep(env, job, timed, index, until);
      SettledStep(env, job, checked, index, until);
      var next := Later(Step(env, checked), PollInterval(settings));
      SettledLater(env, job, Step(env, checked), PollInterval(settings), index, until);
      SettledHostIsSeen(env, job, settings, deadline, next, open, index, delay);
    }
  }

  /** The ticks of the first poll, and of the two actions after an undecided one, belong to the wait. */
  lemma WaitCoversPoll(env: Environment, job: Job, settings: Settings, deadline: nat, w: World, window: Window)
    ensures var poll, end := Poll(env, job, StableWindow(settings), w, window), AwaitFrom(env, job, settings, deadline, w, window).w.tick;
            && poll.w.tick <= end
            && (poll.PollAgain? ==>
                  && poll.w.tick < end
                  && (Step(env, poll.w).clock <= deadline ==> Step(env, poll.w).tick < end))
  {
    hide Poll, PollInterval, StableWindow;
    PollExtends(env, job, StableWindow(settings), w, window);
    match Poll(env, job, StableWindow(settings), w, window) {
      case PollAgain(w', window') =>
        var checked := Step(env, w');
        if checked.clock <= deadline && !env(checked.tick).cancelled {
          AwaitExtends(env, job, settings, deadline, Later(Step(env, checked), PollInterval(settings)), window');
        }
      case _ =>
    }
  }

  lemma PromptStep(env: Environment, w: World, delay: nat)
    requires Prompt(env, delay)
    ensures w.clock <= Step(env, w).clock <= w.clock + delay && Step(env, w).tick == w.tick + 1
  {
  }

  lemma PromptRun(env: Environment, w: World, delay: nat)
    requires Prompt(env, delay)
    ensures w.clock <= Timed(env, w).clock <= w.clock + 5 * delay
    ensures Confirmed(env, Timed(env, w)).clock <= w.clock + 8 * delay
  {
  }

  lemma SettledLater(env: Environment, job: Job, w: World, duration: nat, index: string, until: nat)
    requires Settled(env, job, w, index, until)
    ensures Settled(env, job, Later(w, duration), index, until) && Current(Later(w, duration)) == Current(w)
  {
    hide PathOk, ContentOk, SettledMove;
  }
}
