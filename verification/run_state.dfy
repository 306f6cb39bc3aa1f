/** The run's shared state while tasks are downloaded, and the atomic steps
    that change it: a worker taking the next task, a worker's download
    settling, stop, and pause/resume.  Production is finished before any
    worker starts, so the download phase is an interleaving of these steps
    over a queue fixed at launch; each step runs without interruption, which
    is how single-threaded JavaScript runs the code between two `await`s. */
module RunControl {
  import opened Text
  import opened Tasks
  import Settings
  import Display
  import Hosts
  import Download
  import Discovery
  import PageInfo
  import Naming

  /** `DOWNLOAD_CONCURRENCY`: the number of workers a run starts. */
  const Concurrency: nat := 4

  /** At most two rounds over at most three mirrors. */
  const MaxAttemptsPerTask: nat := 6

  /** Where a worker's loop stands: at its top, waiting for the download of
      `task` to settle, or returned. */
  datatype Worker = AtTop | Busy(task: Task) | Exited

  /** The run's variables.  `finishArmed` says whether the finish resolver is
      still set and `finishFired` counts how often it has been called;
      `filesAtStart` is the number of files the target directory held when
      downloads began. */
  datatype RunState = RunState(
    running: bool, stop: bool, paused: bool, producerDone: bool,
    discovered: nat, downloaded: nat, failed: nat, skipped: nat, active: int,
    queue: seq<Task>, finishArmed: bool, finishFired: nat, resumedFromPause: bool,
    workers: seq<Worker>, files: set<string>, filesAtStart: nat)

  /** The tasks whose downloads have settled, whatever the result. */
  function Settled(s: RunState): nat {
    s.downloaded + s.failed + s.skipped
  }

  function BusyCount(ws: seq<Worker>): (n: nat)
    ensures n <= |ws|
    ensures n == 0 <==> forall i :: 0 <= i < |ws| ==> !ws[i].Busy?
  {
    if ws == [] then 0 else (if ws[0].Busy? then 1 else 0) + BusyCount(ws[1..])
  }

  /** Replacing one worker changes the busy count by the difference it makes. */
  lemma {:induction false} BusyCountUpdate(ws: seq<Worker>, w: nat, x: Worker)
    requires w < |ws|
    ensures BusyCount(ws[w := x]) + (if ws[w].Busy? then 1 else 0)
            == BusyCount(ws) + (if x.Busy? then 1 else 0)
    decreases w
  {
    if w > 0 {
      assert ws[w := x][1..] == ws[1..][w - 1 := x];
      BusyCountUpdate(ws[1..], w - 1, x);
    } else {
      assert ws[w := x][1..] == ws[1..];
    }
  }

  predicate AllExited(ws: seq<Worker>) {
    forall i :: 0 <= i < |ws| ==> ws[i] == Exited
  }

  predicate AnyExited(ws: seq<Worker>) {
    exists i :: 0 <= i < |ws| && ws[i] == Exited
  }

  /** The bookkeeping that holds between any two steps of the download phase:
      - every task is queued, in flight or settled until a stop empties the
        queue, after which the settled and in-flight tasks are at most those
        discovered;
      - `activeDownloads` counts the busy workers;
      - a worker returns only once the queue is empty;
      - each download that succeeded added one file, and each settled
        download added at most one (a failed write can leave an empty file
        behind). */
  predicate Accounting(s: RunState) {
    s.running && s.producerDone
    && |s.workers| == Concurrency
    && s.active == BusyCount(s.workers)
    && (!s.stop ==> Settled(s) + s.active + |s.queue| == s.discovered)
    && (s.stop ==> s.queue == [] && Settled(s) + s.active <= s.discovered)
    && (AnyExited(s.workers) ==> s.queue == [])
    && s.filesAtStart + s.downloaded <= |s.files| <= s.filesAtStart + Settled(s)
  }

  /** The finish resolver has been called at most once, it is still set
      exactly when it has not been called, and it was called only with
      nothing queued or in flight. */
  predicate FinishBooked(s: RunState) {
    s.finishFired <= 1
    && (s.finishArmed <==> s.finishFired == 0)
    && (s.finishFired == 1 ==> s.queue == [] && s.active == 0)
  }

  /** What holds between any two steps: the bookkeeping, the finish record,
      and the resolver has been called by the time every worker has returned. */
  predicate Inv(s: RunState) {
    Accounting(s) && FinishBooked(s) && (AllExited(s.workers) ==> s.finishFired == 1)
  }

  /** `maybeResolveFinish`: calls the resolver, and clears it first, when it
      is still set, production is done, nothing is queued and no download is
      active; otherwise does nothing. */
  function MaybeResolveFinish(s: RunState): (r: RunState)
    ensures var fires := s.finishArmed && s.producerDone && s.queue == [] && s.active <= 0;
            (fires ==> !r.finishArmed && r.finishFired == s.finishFired + 1)
            && (!fires ==> r == s)
    ensures r.(finishArmed := s.finishArmed, finishFired := s.finishFired) == s
  {
    if !s.finishArmed || !s.producerDone || |s.queue| > 0 || s.active > 0 then s
    else s.(finishArmed := false, finishFired := s.finishFired + 1)
  }

  /** `stop`: ignored when no run is active; otherwise raises the stop flag,
      clears the pause, marks production done, empties the queue and gives
      the finish resolver its chance. */
  function Stop(s: RunState): (r: RunState)
    ensures !s.running ==> r == s
    ensures s.running ==> r.stop && !r.paused && r.producerDone && r.queue == []
    ensures s.running ==>
              r.(finishArmed := s.finishArmed, finishFired := s.finishFired)
              == s.(stop := true, paused := false, producerDone := true, queue := [])
    ensures s.running ==>
              (r.finishFired == s.finishFired + 1 <==> s.finishArmed && s.active <= 0)
  {
    if !s.running then s
    else MaybeResolveFinish(s.(stop := true, paused := false, producerDone := true, queue := []))
  }

  /** `togglePause`: ignored when no run is active; otherwise flips the pause
      flag, and records a resume when the run is unpaused. */
  function TogglePause(s: RunState): (r: RunState)
    ensures !s.running ==> r == s
    ensures s.running ==> r.paused == !s.paused
    ensures s.running ==> (r.resumedFromPause <==> s.resumedFromPause || s.paused)
    ensures r.(paused := s.paused, resumedFromPause := s.resumedFromPause) == s
  {
    if !s.running then s
    else
      var paused := !s.paused;
      s.(paused := paused, resumedFromPause := if !paused then true else s.resumedFromPause)
  }

  /** A worker waiting in `waitIfPaused`: the run is paused and not stopped. */
  predicate HeldByPause(s: RunState) {
    s.running && s.paused && !s.stop
  }

  /** The top of `runWorker`'s loop for worker `w`.  A paused run holds the
      worker where it is.  With nothing queued the worker returns (production
      is over, or a stop was requested) and gives the finish resolver its
      chance; otherwise it takes the head of the queue and counts one more
      active download. */
  function WorkerPop(s: RunState, w: nat): (r: RunState)
    ensures w >= |s.workers| || !s.workers[w].AtTop? || HeldByPause(s) ==> r == s
    ensures w < |s.workers| && s.workers[w].AtTop? && !HeldByPause(s) && s.queue != [] ==>
              r == s.(queue := s.queue[1..], active := s.active + 1, workers := s.workers[w := Busy(s.queue[0])])
    ensures w < |s.workers| && s.workers[w].AtTop? && !HeldByPause(s) && s.queue == []
            && (s.stop || s.producerDone) ==>
              r == MaybeResolveFinish(s.(workers := s.workers[w := Exited]))
  {
    if w >= |s.workers| || !s.workers[w].AtTop? || HeldByPause(s) then s
    else if s.queue == [] then
      if s.stop || s.producerDone then MaybeResolveFinish(s.(workers := s.workers[w := Exited]))
      else s
    else s.(queue := s.queue[1..], active := s.active + 1, workers := s.workers[w := Busy(s.queue[0])])
  }

  /** A settled download recorded in the state: the count for `o`'s result
      grows by one, the active count drops, worker `w` is back at the top of
      its loop and the directory is the one the download left. */
  function Record(s: RunState, w: nat, o: Download.Outcome): (r: RunState)
    requires w < |s.workers|
    ensures Settled(r) == Settled(s) + 1 && r.active == s.active - 1
    ensures r.downloaded == s.downloaded + (if o.result == Download.Ok then 1 else 0)
    ensures r.skipped == s.skipped + (if o.result == Download.Skip then 1 else 0)
    ensures r.failed == s.failed + (if o.result == Download.Failed then 1 else 0)
    ensures r.workers == s.workers[w := AtTop] && r.files == o.files
    ensures r.(downloaded := s.downloaded, failed := s.failed, skipped := s.skipped, active := s.active,
               workers := s.workers, files := s.files) == s
  {
    s.(downloaded := s.downloaded + (if o.result == Download.Ok then 1 else 0),
       skipped := s.skipped + (if o.result == Download.Skip then 1 else 0),
       failed := s.failed + (if o.result == Download.Failed then 1 else 0),
       active := s.active - 1, workers := s.workers[w := AtTop], files := o.files)
  }

  /** The download of worker `w`'s task settles: `hostname` is the host name
      of the task's URL and `fetchOk`/`writes` the outcomes of its attempts.
      The count for the download's result grows by one, the
      active count drops, the worker returns to the top of its loop, and the
      finish check runs: the run finishes on this settle exactly when it is
      armed, the producer is done, the queue is empty and this was the last
      download in flight. Nothing else in the state changes. */
  function WorkerSettle(s: RunState, w: nat, hostname: Option<string>, fetchOk: seq<bool>,
                        writes: seq<Download.WriteFault>)
    : (r: RunState)
    requires |fetchOk| >= MaxAttemptsPerTask && |writes| >= MaxAttemptsPerTask
    ensures w >= |s.workers| || !s.workers[w].Busy? ==> r == s
    ensures w < |s.workers| && s.workers[w].Busy? ==>
              var o := SettleOutcome(s.workers[w].task, hostname, s.files, fetchOk, writes);
              Settled(r) == Settled(s) + 1 && r.active == s.active - 1
              && r.downloaded == s.downloaded + (if o.result == Download.Ok then 1 else 0)
              && r.skipped == s.skipped + (if o.result == Download.Skip then 1 else 0)
              && r.failed == s.failed + (if o.result == Download.Failed then 1 else 0)
              && r.workers == s.workers[w := AtTop] && r.files == o.files
    ensures w < |s.workers| && s.workers[w].Busy? ==>
              var fires := s.finishArmed && s.producerDone && s.queue == [] && s.active <= 1;
              (r.finishFired == s.finishFired + 1 <==> fires) && r.finishFired <= s.finishFired + 1
              && (fires ==> !r.finishArmed) && (!fires ==> r.finishArmed == s.finishArmed)
    ensures w < |s.workers| && s.workers[w].Busy? ==>
              r.(downloaded := s.downloaded, failed := s.failed, skipped := s.skipped, active := s.active,
                 workers := s.workers, files := s.files, finishArmed := s.finishArmed,
                 finishFired := s.finishFired) == s
  {
    if w >= |s.workers| || !s.workers[w].Busy? then s
    else MaybeResolveFinish(Record(s, w, SettleOutcome(s.workers[w].task, hostname, s.files, fetchOk, writes)))
  }

  /** What `downloadTask` does for `task`: the download over the task's
      candidate URLs, which adds at most the task's own file to the
      directory, and adds it when the result is `Ok`. */
  function SettleOutcome(task: Task, hostname: Option<string>, files: set<string>, fetchOk: seq<bool>,
                         writes: seq<Download.WriteFault>): (o: Download.Outcome)
    requires |fetchOk| >= MaxAttemptsPerTask && |writes| >= MaxAttemptsPerTask
    ensures o.result == Download.Ok ==> |o.files| == |files| + 1
    ensures files <= o.files && |o.files| <= |files| + 1
    ensures forall x :: x in o.files && x !in files ==> x == Naming.SanitizeFileName(task.filename)
    ensures o.attempts <= Download.MaxAttempts(Hosts.GetDownloadCandidates(task, hostname))
  {
    Download.DownloadOutcome(Hosts.GetDownloadCandidates(task, hostname), task.filename, files, fetchOk, writes)
  }

  /** A subset is no larger than its superset. */
  lemma SubsetCard<T>(a: set<T>, b: set<T>)
    requires a <= b
    ensures |a| <= |b|
  {
    assert b == a + (b - a);
  }

  /** One atomic step of the download phase. */
  datatype Step =
    | Pop(w: nat)
    | Settle(w: nat, hostname: Option<string>, fetchOk: seq<bool>, writes: seq<Download.WriteFault>)
    | StopRequest
    | PauseToggle

  predicate WellFormedStep(step: Step) {
    step.Settle? ==> |step.fetchOk| >= MaxAttemptsPerTask && |step.writes| >= MaxAttemptsPerTask
  }

  function Next(s: RunState, step: Step): RunState
    requires WellFormedStep(step)
  {
    match step
    case Pop(w) => WorkerPop(s, w)
    case Settle(w, hostname, fetchOk, writes) => WorkerSettle(s, w, hostname, fetchOk, writes)
    case StopRequest => Stop(s)
    case PauseToggle => TogglePause(s)
  }

  /** The finish resolver keeps the bookkeeping and the finish record, and
      once every worker has returned it has been called. */
  lemma MaybeResolveFinishKeepsInv(s: RunState)
    requires Accounting(s) && FinishBooked(s)
    ensures Accounting(MaybeResolveFinish(s)) && FinishBooked(MaybeResolveFinish(s))
    ensures AllExited(s.workers) ==> MaybeResolveFinish(s).finishFired == 1
  {
    if AllExited(s.workers) {
      assert s.workers[0] == Exited;
    }
  }

  lemma PopKeepsInv(s: RunState, w: nat)
    requires Inv(s)
    ensures Inv(WorkerPop(s, w))
  {
    if w < |s.workers| && s.workers[w].AtTop? && !HeldByPause(s) {
      if s.queue != [] {
        var ws := s.workers[w := Busy(s.queue[0])];
        BusyCountUpdate(s.workers, w, Busy(s.queue[0]));
        assert !AnyExited(ws) by {
          forall i | 0 <= i < |ws|
            ensures ws[i] != Exited
          {
            if i != w {
              assert ws[i] == s.workers[i];
            }
          }
        }
      } else {
        var t := s.(workers := s.workers[w := Exited]);
        BusyCountUpdate(s.workers, w, Exited);
        assert AnyExited(t.workers) by {
          assert t.workers[w] == Exited;
        }
        MaybeResolveFinishKeepsInv(t);
      }
    }
  }

  /** Recording a settled download keeps the bookkeeping; the worker it
      frees is at the top of its loop, so not every worker has returned. */
  lemma RecordKeepsAccounting(s: RunState, w: nat, o: Download.Outcome)
    requires Inv(s) && w < |s.workers| && s.workers[w].Busy?
    requires o.result == Download.Ok ==> |o.files| == |s.files| + 1
    requires |s.files| <= |o.files| <= |s.files| + 1
    ensures Accounting(Record(s, w, o)) && FinishBooked(Record(s, w, o)) && !AllExited(Record(s, w, o).workers)
  {
    var t := Record(s, w, o);
    BusyCountUpdate(s.workers, w, AtTop);
    assert !AllExited(t.workers) by {
      assert t.workers[w] == AtTop;
    }
    assert AnyExited(t.workers) ==> AnyExited(s.workers) by {
      if AnyExited(t.workers) {
        var i :| 0 <= i < |t.workers| && t.workers[i] == Exited;
        assert s.workers[i] == Exited;
      }
    }
  }

  lemma SettleKeepsInv(s: RunState, w: nat, hostname: Option<string>, fetchOk: seq<bool>,
                       writes: seq<Download.WriteFault>)
    requires Inv(s)
    requires |fetchOk| >= MaxAttemptsPerTask && |writes| >= MaxAttemptsPerTask
    ensures Inv(WorkerSettle(s, w, hostname, fetchOk, writes))
  {
    if w < |s.workers| && s.workers[w].Busy? {
      var o := SettleOutcome(s.workers[w].task, hostname, s.files, fetchOk, writes);
      assert |s.files| <= |o.files| by {
        SubsetCard(s.files, o.files);
      }
      var t := Record(s, w, o);
      RecordKeepsAccounting(s, w, o);
      MaybeResolveFinishKeepsInv(t);
    }
  }

  lemma StopKeepsInv(s: RunState)
    requires Inv(s)
    ensures Inv(Stop(s))
  {
    var t := s.(stop := true, paused := false, producerDone := true, queue := []);
    MaybeResolveFinishKeepsInv(t);
  }

  /** Every step of the download phase keeps the invariant. */
  lemma NextKeepsInv(s: RunState, step: Step)
    requires Inv(s) && WellFormedStep(step)
    ensures Inv(Next(s, step))
  {
    match step
    case Pop(w) => PopKeepsInv(s, w);
    case Settle(w, hostname, fetchOk, writes) => SettleKeepsInv(s, w, hostname, fetchOk, writes);
    case StopRequest => StopKeepsInv(s);
    case PauseToggle =>
  }

  /** The state after a sequence of steps. */
  function RunSteps(s: RunState, steps: seq<Step>): RunState
    requires forall i :: 0 <= i < |steps| ==> WellFormedStep(steps[i])
    decreases |steps|
  {
    if steps == [] then s else RunSteps(Next(s, steps[0]), steps[1..])
  }

  /** Whatever the interleaving, the invariant holds after every run of
      steps, so the finish resolver is called at most once, and once it has
      been called it stays called. */
  lemma {:induction false} RunStepsKeepInv(s: RunState, steps: seq<Step>)
    requires Inv(s)
    requires forall i :: 0 <= i < |steps| ==> WellFormedStep(steps[i])
    ensures Inv(RunSteps(s, steps))
    ensures RunSteps(s, steps).finishFired <= 1
    ensures s.finishFired == 1 ==> RunSteps(s, steps).finishFired == 1
    decreases |steps|
  {
    if steps != [] {
      NextKeepsInv(s, steps[0]);
      assert Next(s, steps[0]).finishFired >= s.finishFired;
      RunStepsKeepInv(Next(s, steps[0]), steps[1..]);
    }
  }

  /** The finish resolver fires only when production is done, the queue is
      empty and no download is active. */
  lemma FinishFiresOnlyWhenDrained(s: RunState, step: Step)
    requires Inv(s) && WellFormedStep(step)
    ensures var r := Next(s, step);
            r.finishFired > s.finishFired ==> r.producerDone && r.queue == [] && r.active == 0
  {
    NextKeepsInv(s, step);
  }

  /** While paused (and not stopped) no worker takes a task; a download
      already in flight still settles and is counted. */
  lemma PausedWorkerTakesNothing(s: RunState, w: nat)
    requires HeldByPause(s)
    ensures WorkerPop(s, w) == s
  {
  }

  /** A pause does not hold back a download already in flight. */
  lemma PauseDoesNotFreezeSettling(s: RunState, w: nat, hostname: Option<string>, fetchOk: seq<bool>,
                                   writes: seq<Download.WriteFault>)
    requires Inv(s) && HeldByPause(s) && w < |s.workers| && s.workers[w].Busy?
    requires |fetchOk| >= MaxAttemptsPerTask && |writes| >= MaxAttemptsPerTask
    ensures Settled(WorkerSettle(s, w, hostname, fetchOk, writes)) == Settled(s) + 1
  {
  }

  /** A run the finish resolver ended without a stop has settled every
      discovered task. */
  lemma NaturalFinishSettlesAll(s: RunState)
    requires Inv(s) && s.finishFired == 1 && !s.stop
    ensures Settled(s) == s.discovered
  {
  }

  /** `updateProgress` shows the settled count itself: under the invariant it
      never exceeds the discovered count, so no clamping applies. */
  lemma ProgressShowsSettled(s: RunState)
    requires Inv(s)
    ensures Display.SetProgress(Settled(s), s.discovered).done == Settled(s)
    ensures Display.SetProgress(Settled(s), s.discovered).total == s.discovered
  {
  }

  /** The array's order reversed. */
  function Reverse<T>(q: seq<T>): (r: seq<T>)
    ensures |r| == |q|
    ensures forall i :: 0 <= i < |q| ==> r[i] == q[|q| - 1 - i]
  {
    if q == [] then [] else Reverse(q[1..]) + [q[0]]
  }

  /** Reversing twice gives back the original order. */
  lemma ReverseReverse<T>(q: seq<T>)
    ensures Reverse(Reverse(q)) == q
  {
  }

  /** How `run` ends or goes on once production is over. */
  datatype LaunchResult =
    | AlreadyRunning
    | NotAlbumPage
    | NoDownloadDirectory
    | NoUserDirectory
    | StoppedBeforeDownloads
    | NothingCollected
    | Launched(state: RunState)

  /** How the target directory was set up before production: no download
      directory was chosen, a stop came in once it was, the account's
      sub-directory could not be created, or everything is in place. */
  datatype DirectorySetup = NoDirectory | StopBeforeSubdirectory | NoSubdirectory | Ready

  /** `run` up to the start of the workers: a second start is ignored, a page
      that is not an album page is refused, the directory setup can end the
      run; after production (`produced`), a stop ends the run, an empty queue
      ends it with nothing collected, and otherwise the queue is put in
      download order, the discovered count set to its length, production
      marked done, the workers started and the finish resolver given its
      chance. */
  function Launch(alreadyRunning: bool, page: Option<PageInfo.Page>, setup: DirectorySetup,
                  produced: Discovery.Producer, order: Settings.DownloadOrder, files: set<string>,
                  paused: bool, resumed: bool)
    : (r: LaunchResult)
    ensures r.Launched? <==>
              !alreadyRunning && PageInfo.IsAlbumPage(page) && setup.Ready? && !produced.stopped
              && produced.queue != []
    ensures alreadyRunning ==> r == AlreadyRunning
    ensures !alreadyRunning && !PageInfo.IsAlbumPage(page) ==> r == NotAlbumPage
    ensures r == StoppedBeforeDownloads <==>
              !alreadyRunning && PageInfo.IsAlbumPage(page)
              && (setup.StopBeforeSubdirectory? || (setup.Ready? && produced.stopped))
    ensures r.Launched? ==>
              var s := r.state;
              Inv(s) && s.running && !s.stop && s.producerDone && s.finishArmed && s.finishFired == 0
              && s.queue == (if order == Settings.Reverse then Reverse(produced.queue) else produced.queue)
              && s.discovered == |produced.queue|
              && Settled(s) == 0 && s.active == 0
              && |s.workers| == Concurrency && (forall i :: 0 <= i < |s.workers| ==> s.workers[i] == AtTop)
              && s.files == files && s.paused == paused
  {
    if alreadyRunning then AlreadyRunning
    else if !PageInfo.IsAlbumPage(page) then NotAlbumPage
    else if setup.NoDirectory? then NoDownloadDirectory
    else if setup.StopBeforeSubdirectory? then StoppedBeforeDownloads
    else if setup.NoSubdirectory? then NoUserDirectory
    else if produced.stopped then StoppedBeforeDownloads
    else if produced.queue == [] then NothingCollected
    else
      var queue := if order == Settings.Reverse then Reverse(produced.queue) else produced.queue;
      var workers := seq(Concurrency, _ => AtTop);
      BusyCountAtTop(workers);
      var s := RunState(true, false, paused, true, |queue|, 0, 0, 0, 0, queue, true, 0, resumed,
                        workers, files, |files|);
      Launched(MaybeResolveFinish(s))
  }

  lemma BusyCountAtTop(ws: seq<Worker>)
    requires forall i :: 0 <= i < |ws| ==> ws[i] == AtTop
    ensures BusyCount(ws) == 0 && !AnyExited(ws)
  {
  }

  /** What the run reports when its finish promise resolves. */
  datatype Report = Report(stoppedByUser: bool, downloaded: nat, failed: nat, skipped: nat,
                           progress: Display.Progress)

  /** The end of `run`: the run counts as stopped by the user when the stop
      flag is up, and the progress bar shows the settled count. */
  function Conclude(s: RunState): (r: Report)
    requires Inv(s) && s.finishFired == 1
    ensures r.stoppedByUser == s.stop
    ensures r.downloaded + r.failed + r.skipped <= s.discovered
    ensures !r.stoppedByUser ==> r.downloaded + r.failed + r.skipped == s.discovered
    ensures !r.stoppedByUser && s.discovered > 0 ==> r.progress.pct == 100
    ensures r.progress.done == r.downloaded + r.failed + r.skipped
  {
    ProgressShowsSettled(s);
    Report(s.stop, s.downloaded, s.failed, s.skipped, Display.SetProgress(Settled(s), s.discovered))
  }
}
