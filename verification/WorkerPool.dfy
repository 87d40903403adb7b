/**
  The pool that runs channel tests: a feeder, a fixed number of workers, a closer and the collecting
  caller, joined by two unbuffered channels and a cancellable context. Each step below is one
  communication, one test of the context or one local action of one goroutine, and testing the context is
  never in the same step as acting on the outcome; a run is any interleaving of them.
 */
module WorkerPool {
  import opened ChannelStatus
  import opened TestSummaries

  /** An entry of the channel list: a nil pointer or a channel with a status. */
  datatype Entry = NilEntry | Entry(status: int)

  datatype Config = Config(channels: seq<Entry>, concurrency: int, pauses: bool, reporting: bool) {

    predicate Eligible(i: nat) {
      i < |channels| && channels[i].Entry? && channels[i].status != MANUALLY_DISABLED
    }

    function WorkerCount(): nat {
      var c := NormalizeConcurrency(concurrency);
      if c < |channels| then c else |channels|
    }
  }

  const DEFAULT_CONCURRENCY := 1
  const MAX_CONCURRENCY := 32

  /** `NormalizeChannelTestConcurrency` */
  function NormalizeConcurrency(concurrency: int): (c: nat)
    ensures 1 <= concurrency <= 32 ==> c == concurrency
    ensures concurrency > 32 ==> c == 32
    ensures concurrency < 1 ==> c == 1
  {
    if concurrency < 1 then DEFAULT_CONCURRENCY
    else if concurrency > MAX_CONCURRENCY then MAX_CONCURRENCY
    else concurrency
  }

  datatype Worker =
    | Idle                            // selecting on the context and the jobs channel
    | Got(i: nat)                     // received a job, context not tested yet
    | Ready(i: nat)                   // found the context live, has not acted on the job yet
    | Running(i: nat)                 // inside run
    | Sending(i: nat, r: Summary)     // blocked sending the result
    | Pausing                         // waiting out the request interval
    | Exited

  /** Holding a collected result; announcing it, having found the context live. */
  datatype Collector = Waiting | Holding | Announcing | Returned

  /** A history of events, the latest one last. */
  datatype Log<T> = Empty | Snoc(before: Log<T>, last: T)

  datatype State = State(
    cancelled: bool,
    next: nat,                        // jobs handed out so far
    jobsClosed: bool,
    workers: seq<Worker>,
    resultsClosed: bool,
    collector: Collector,
    summary: Summary,
    processed: nat,
    // what happened, in order
    reports: seq<nat>,                // progress reports
    started: Log<nat>,                // calls of run, by channel index
    skipped: Log<nat>,                // jobs answered without a call
    finished: Log<(nat, Summary)>,    // results returned by run
    delivered: Log<nat>,              // jobs whose result was collected
    dropped: Log<nat>)                // jobs received and abandoned on cancellation

  function Init(cfg: Config): State {
    var empty := |cfg.channels| == 0;
    State(false, 0, empty, seq(cfg.WorkerCount(), _ => Idle), empty,
          if empty then Returned else Waiting, ZERO, 0,
          if cfg.reporting then [0] else [], Empty, Empty, Empty, Empty, Empty)
  }

  datatype Step =
    | Cancel
    | Hand(w: nat)
    | CloseJobs
    | Leave(w: nat)
    | Abandon(w: nat)
    | Pass(w: nat)
    | Start(w: nat)
    | Skip(w: nat)
    | Finish(w: nat, r: Summary)
    | Deliver(w: nat)
    | Resume(w: nat)
    | CloseResults
    | Look
    | Report
    | Return

  predicate Enabled(cfg: Config, s: State, step: Step) {
    match step
    case Cancel => !s.cancelled
    case Hand(w) => w < |s.workers| && s.workers[w].Idle? && !s.jobsClosed && s.next < |cfg.channels|
    case CloseJobs => !s.jobsClosed && (s.cancelled || s.next == |cfg.channels|)
    case Leave(w) =>
      && w < |s.workers|
      && ((s.workers[w].Idle? && (s.cancelled || s.jobsClosed)) || (s.workers[w].Pausing? && s.cancelled))
    case Abandon(w) => w < |s.workers| && s.workers[w].Got? && s.cancelled
    case Pass(w) => w < |s.workers| && s.workers[w].Got? && !s.cancelled
    case Start(w) => w < |s.workers| && s.workers[w].Ready? && cfg.Eligible(s.workers[w].i)
    case Skip(w) => w < |s.workers| && s.workers[w].Ready? && !cfg.Eligible(s.workers[w].i)
    case Finish(w, _) => w < |s.workers| && s.workers[w].Running?
    case Deliver(w) => w < |s.workers| && s.workers[w].Sending? && s.collector.Waiting? && !s.resultsClosed
    case Resume(w) => w < |s.workers| && s.workers[w].Pausing?
    case CloseResults => !s.resultsClosed && forall w :: 0 <= w < |s.workers| ==> s.workers[w].Exited?
    case Look => s.collector.Holding?
    case Report => s.collector.Announcing?
    case Return => s.collector.Waiting? && s.resultsClosed
  }

  function AfterSend(cfg: Config): Worker {
    if cfg.pauses then Pausing else Idle
  }

  function Do(cfg: Config, s: State, step: Step): State
    requires Enabled(cfg, s, step)
  {
    match step
    case Cancel => s.(cancelled := true)
    case Hand(w) => s.(workers := s.workers[w := Got(s.next)], next := s.next + 1)
    case CloseJobs => s.(jobsClosed := true)
    case Leave(w) => s.(workers := s.workers[w := Exited])
    case Abandon(w) => s.(workers := s.workers[w := Exited], dropped := Snoc(s.dropped, s.workers[w].i))
    case Pass(w) => s.(workers := s.workers[w := Ready(s.workers[w].i)])
    case Start(w) =>
      s.(workers := s.workers[w := Running(s.workers[w].i)], started := Snoc(s.started, s.workers[w].i))
    case Skip(w) =>
      s.(workers := s.workers[w := Sending(s.workers[w].i, ZERO)], skipped := Snoc(s.skipped, s.workers[w].i))
    case Finish(w, r) =>
      s.(workers := s.workers[w := Sending(s.workers[w].i, r)], finished := Snoc(s.finished, (s.workers[w].i, r)))
    case Deliver(w) =>
      s.(workers := s.workers[w := AfterSend(cfg)],
         collector := Holding,
         summary := Plus(s.summary, s.workers[w].r),
         processed := s.processed + 1,
         delivered := Snoc(s.delivered, s.workers[w].i))
    case Resume(w) => s.(workers := s.workers[w := Idle])
    case CloseResults => s.(resultsClosed := true)
    case Look => s.(collector := if cfg.reporting && !s.cancelled then Announcing else Waiting)
    case Report => s.(collector := Waiting, reports := s.reports + [s.processed])
    case Return => s.(collector := Returned)
  }

  /** `steps` is a run from `s` to `t`. */
  predicate Run(cfg: Config, s: State, steps: seq<Step>, t: State)
    decreases |steps|
  {
    if steps == [] then s == t
    else Enabled(cfg, s, steps[0]) && Run(cfg, Do(cfg, s, steps[0]), steps[1..], t)
  }

  // ---------------------------------------------------------------- what the workers hold

  /** `PastTest` is the part of `InHand` that has already found the context live. */
  datatype Phase = InHand | PastTest | InRun | InTransit

  function Holds(w: Worker, phase: Phase, i: nat): nat {
    match phase
    case InHand => if (w.Got? || w.Ready?) && w.i == i then 1 else 0
    case PastTest => if w.Ready? && w.i == i then 1 else 0
    case InRun => if w.Running? && w.i == i then 1 else 0
    case InTransit => if w.Sending? && w.i == i then 1 else 0
  }

  /** How many of the first `n` workers hold job `i` in the given phase. */
  function Holders(ws: seq<Worker>, n: nat, phase: Phase, i: nat): nat
    requires n <= |ws|
  {
    if n == 0 then 0 else Holders(ws, n - 1, phase, i) + Holds(ws[n - 1], phase, i)
  }

  function Carried(w: Worker, c: Counter): int {
    if w.Sending? then Field(w.r, c) else 0
  }

  /** One counter, over the results the first `n` workers have computed and not handed over yet. */
  function Transit(ws: seq<Worker>, n: nat, c: Counter): int
    requires n <= |ws|
  {
    if n == 0 then 0 else Transit(ws, n - 1, c) + Carried(ws[n - 1], c)
  }

  /** Steps a worker can still take on its own. */
  function Weight(w: Worker): nat {
    match w
    case Exited => 0
    case Idle => 1
    case Pausing => 2
    case Sending(_, _) => 5
    case Running(_) => 6
    case Ready(_) => 7
    case Got(_) => 8
  }

  function Weights(ws: seq<Worker>, n: nat): nat
    requires n <= |ws|
  {
    if n == 0 then 0 else Weights(ws, n - 1) + Weight(ws[n - 1])
  }

  lemma {:induction false} HoldersUpdate(ws: seq<Worker>, n: nat, w: nat, x: Worker, phase: Phase, i: nat)
    requires w < |ws| && n <= |ws|
    ensures Holders(ws[w := x], n, phase, i) + (if w < n then Holds(ws[w], phase, i) else 0)
            == Holders(ws, n, phase, i) + (if w < n then Holds(x, phase, i) else 0)
  {
    if n > 0 {
      HoldersUpdate(ws, n - 1, w, x, phase, i);
    }
  }

  lemma {:induction false} TransitUpdate(ws: seq<Worker>, n: nat, w: nat, x: Worker, c: Counter)
    requires w < |ws| && n <= |ws|
    ensures Transit(ws[w := x], n, c) + (if w < n then Carried(ws[w], c) else 0)
            == Transit(ws, n, c) + (if w < n then Carried(x, c) else 0)
  {
    if n > 0 {
      TransitUpdate(ws, n - 1, w, x, c);
    }
  }

  lemma {:induction false} WeightsUpdate(ws: seq<Worker>, n: nat, w: nat, x: Worker)
    requires w < |ws| && n <= |ws|
    ensures Weights(ws[w := x], n) + (if w < n then Weight(ws[w]) else 0)
            == Weights(ws, n) + (if w < n then Weight(x) else 0)
  {
    if n > 0 {
      WeightsUpdate(ws, n - 1, w, x);
    }
  }

  lemma {:induction false} NothingHeld(ws: seq<Worker>, n: nat, phase: Phase, i: nat)
    requires n <= |ws| && forall w :: 0 <= w < |ws| ==> ws[w].Exited? || ws[w].Idle?
    ensures Holders(ws, n, phase, i) == 0
  {
    if n > 0 {
      NothingHeld(ws, n - 1, phase, i);
    }
  }

  lemma {:induction false} NothingInTransit(ws: seq<Worker>, n: nat, c: Counter)
    requires n <= |ws| && forall w :: 0 <= w < |ws| ==> ws[w].Exited? || ws[w].Idle?
    ensures Transit(ws, n, c) == 0
  {
    if n > 0 {
      NothingInTransit(ws, n - 1, c);
    }
  }

  // ---------------------------------------------------------------- the invariant

  /** Occurrences of `i` in a log. */
  function Count(log: Log<nat>, i: nat): nat {
    match log
    case Empty => 0
    case Snoc(before, last) => Count(before, i) + Bit(last == i)
  }

  function Size<T>(log: Log<T>): nat {
    match log
    case Empty => 0
    case Snoc(before, _) => Size(before) + 1
  }

  /** How many results are logged for channel `i`. */
  function Results(log: Log<(nat, Summary)>, i: nat): nat {
    match log
    case Empty => 0
    case Snoc(before, last) => Results(before, i) + Bit(last.0 == i)
  }

  /** One counter, summed over the results in a log. */
  function Total(log: Log<(nat, Summary)>, c: Counter): int {
    match log
    case Empty => 0
    case Snoc(before, last) => Total(before, c) + Field(last.1, c)
  }

  function Bit(b: bool): nat {
    if b then 1 else 0
  }

  /** Job `i`, once handed out, is in exactly one place; the calls of run on it are accounted for. */
  predicate Tallied(cfg: Config, s: State, i: nat) {
    var n := |s.workers|;
    var hand, run := Holders(s.workers, n, InHand, i), Holders(s.workers, n, InRun, i);
    var transit := Holders(s.workers, n, InTransit, i);
    && Bit(i < s.next) == hand + run + transit + Count(s.delivered, i) + Count(s.dropped, i)
    && Count(s.started, i) + Count(s.skipped, i) == run + transit + Count(s.delivered, i)
    && Count(s.started, i) == run + Results(s.finished, i)
    && (Count(s.started, i) > 0 ==> cfg.Eligible(i))
    && (Count(s.skipped, i) > 0 ==> !cfg.Eligible(i))
  }

  ghost predicate Conserved(cfg: Config, s: State) {
    && (forall i: nat :: Tallied(cfg, s, i))
    && (forall c :: Summed(s, c))
    && s.processed == Size(s.delivered)
  }

  /** The channels: nothing is sent after a close, and both are closed only when their senders are done. */
  predicate Channels(cfg: Config, s: State) {
    && |s.workers| == cfg.WorkerCount()
    && s.next <= |cfg.channels|
    && (cfg.channels == [] ==> s.jobsClosed)
    && (s.resultsClosed ==> forall w :: 0 <= w < |s.workers| ==> s.workers[w].Exited?)
    && (s.collector.Returned? ==> s.resultsClosed)
    && (s.jobsClosed && !s.cancelled ==> s.next == |cfg.channels|)
    && (!s.cancelled ==> s.dropped == Empty)
    && (!s.cancelled && !s.jobsClosed ==> forall w :: 0 <= w < |s.workers| ==> !s.workers[w].Exited?)
    && (!s.cancelled && s.resultsClosed ==> s.jobsClosed)
  }

  /** A result has been counted and its report is not decided or not made yet. */
  predicate Undecided(s: State) {
    s.collector.Holding? || s.collector.Announcing?
  }

  /** Reports count up from 0 without gaps, and are complete while the context is live. */
  predicate Reporting(cfg: Config, s: State) {
    && (forall k :: 0 <= k < |s.reports| ==> s.reports[k] == k)
    && (Undecided(s) ==> s.processed > 0)
    && (s.collector.Announcing? ==> cfg.reporting && |s.reports| == s.processed)
    && (if cfg.reporting then
          && 1 <= |s.reports| <= s.processed + 1 - Bit(Undecided(s))
          && (!s.cancelled ==> |s.reports| == s.processed + 1 - Bit(Undecided(s)))
        else s.reports == [])
  }

  ghost predicate Inv(cfg: Config, s: State) {
    Channels(cfg, s) && Reporting(cfg, s) && Conserved(cfg, s)
  }

  lemma InitInv(cfg: Config)
    ensures Inv(cfg, Init(cfg))
  {
    forall i: nat ensures Tallied(cfg, Init(cfg), i) {
      InitTallied(cfg, i);
    }
    forall c ensures Summed(Init(cfg), c) {
      NothingInTransit(Init(cfg).workers, cfg.WorkerCount(), c);
    }
  }

  lemma InitTallied(cfg: Config, i: nat)
    ensures Tallied(cfg, Init(cfg), i)
  {
    var ws := Init(cfg).workers;
    NothingHeld(ws, |ws|, InHand, i);
    NothingHeld(ws, |ws|, InRun, i);
    NothingHeld(ws, |ws|, InTransit, i);
  }

  lemma ChannelsStep(cfg: Config, s: State, step: Step)
    requires Channels(cfg, s) && Enabled(cfg, s, step)
    ensures Channels(cfg, Do(cfg, s, step))
  {
    if step.CloseResults? && s.workers != [] {
      assert s.workers[0].Exited?;
    }
  }

  lemma ReportingStep(cfg: Config, s: State, step: Step)
    requires Channels(cfg, s) && Reporting(cfg, s) && Enabled(cfg, s, step)
    ensures Reporting(cfg, Do(cfg, s, step))
  {
  }

  lemma Moved(ws: seq<Worker>, w: nat, x: Worker, i: nat)
    requires w < |ws|
    ensures Holders(ws[w := x], |ws|, InHand, i) + Holds(ws[w], InHand, i)
            == Holders(ws, |ws|, InHand, i) + Holds(x, InHand, i)
    ensures Holders(ws[w := x], |ws|, InRun, i) + Holds(ws[w], InRun, i)
            == Holders(ws, |ws|, InRun, i) + Holds(x, InRun, i)
    ensures Holders(ws[w := x], |ws|, InTransit, i) + Holds(ws[w], InTransit, i)
            == Holders(ws, |ws|, InTransit, i) + Holds(x, InTransit, i)
  {
    HoldersUpdate(ws, |ws|, w, x, InHand, i);
    HoldersUpdate(ws, |ws|, w, x, InRun, i);
    HoldersUpdate(ws, |ws|, w, x, InTransit, i);
  }

  /** What one worker's change from `x` to `y` must do to the counts of job `i` to keep them balanced. */
  predicate Shifts(cfg: Config, s: State, t: State, x: Worker, y: Worker, i: nat) {
    && Bit(i < t.next) + Holds(x, InHand, i) + Holds(x, InRun, i) + Holds(x, InTransit, i)
       + Count(s.delivered, i) + Count(s.dropped, i)
       == Bit(i < s.next) + Holds(y, InHand, i) + Holds(y, InRun, i) + Holds(y, InTransit, i)
          + Count(t.delivered, i) + Count(t.dropped, i)
    && Count(t.started, i) + Count(t.skipped, i) + Holds(x, InRun, i) + Holds(x, InTransit, i) + Count(s.delivered, i)
       == Count(s.started, i) + Count(s.skipped, i) + Holds(y, InRun, i) + Holds(y, InTransit, i)
          + Count(t.delivered, i)
    && Count(t.started, i) + Holds(x, InRun, i) + Results(s.finished, i)
       == Count(s.started, i) + Holds(y, InRun, i) + Results(t.finished, i)
    && (Count(t.started, i) > Count(s.started, i) ==> cfg.Eligible(i))
    && (Count(t.skipped, i) > Count(s.skipped, i) ==> !cfg.Eligible(i))
  }

  lemma MovedTallied(cfg: Config, s: State, t: State, w: nat, y: Worker, i: nat)
    requires w < |s.workers| && t.workers == s.workers[w := y]
    requires Tallied(cfg, s, i) && Shifts(cfg, s, t, s.workers[w], y, i)
    ensures Tallied(cfg, t, i)
  {
    Moved(s.workers, w, y, i);
  }

  /** The worker a step changes, and what it becomes. */
  function After(cfg: Config, s: State, step: Step): (y: Worker)
    requires Enabled(cfg, s, step) && WorkerMoves(step)
    ensures Do(cfg, s, step).workers == s.workers[step.w := y]
  {
    match step
    case Hand(w) => Got(s.next)
    case Leave(w) => Exited
    case Abandon(w) => Exited
    case Pass(w) => Ready(s.workers[w].i)
    case Start(w) => Running(s.workers[w].i)
    case Skip(w) => Sending(s.workers[w].i, ZERO)
    case Finish(w, r) => Sending(s.workers[w].i, r)
    case Deliver(w) => AfterSend(cfg)
    case Resume(w) => Idle
  }

  predicate WorkerMoves(step: Step) {
    !step.Cancel? && !step.CloseJobs? && !step.CloseResults? && !step.Look? && !step.Report? && !step.Return?
  }

  lemma StepShifts(cfg: Config, s: State, step: Step, i: nat)
    requires Enabled(cfg, s, step) && WorkerMoves(step)
    ensures Shifts(cfg, s, Do(cfg, s, step), s.workers[step.w], After(cfg, s, step), i)
  {
    if step.Skip? || step.Finish? || step.Deliver? {
      ResultShifts(cfg, s, step, i);
    }
  }

  lemma ResultShifts(cfg: Config, s: State, step: Step, i: nat)
    requires Enabled(cfg, s, step) && (step.Skip? || step.Finish? || step.Deliver?)
    ensures Shifts(cfg, s, Do(cfg, s, step), s.workers[step.w], After(cfg, s, step), i)
  {
  }

  lemma TalliedStep(cfg: Config, s: State, step: Step, i: nat)
    requires Enabled(cfg, s, step) && Tallied(cfg, s, i)
    ensures Tallied(cfg, Do(cfg, s, step), i)
  {
    if WorkerMoves(step) {
      StepShifts(cfg, s, step, i);
      MovedTallied(cfg, s, Do(cfg, s, step), step.w, After(cfg, s, step), i);
    }
  }

  /** Results are neither lost nor counted twice on their way to the caller. */
  predicate Summed(s: State, c: Counter) {
    Total(s.finished, c) == Transit(s.workers, |s.workers|, c) + Field(s.summary, c)
  }

  lemma SummaryStep(cfg: Config, s: State, step: Step, c: Counter)
    requires Enabled(cfg, s, step) && Summed(s, c)
    ensures Summed(Do(cfg, s, step), c)
  {
    if WorkerMoves(step) {
      TransitUpdate(s.workers, |s.workers|, step.w, After(cfg, s, step), c);
    }
  }

  lemma InvStep(cfg: Config, s: State, step: Step)
    requires Inv(cfg, s) && Enabled(cfg, s, step)
    ensures Inv(cfg, Do(cfg, s, step))
  {
    ChannelsStep(cfg, s, step);
    ReportingStep(cfg, s, step);
    forall c ensures Summed(Do(cfg, s, step), c) {
      SummaryStep(cfg, s, step, c);
    }
    forall i: nat ensures Tallied(cfg, Do(cfg, s, step), i) {
      TalliedStep(cfg, s, step, i);
    }
  }

  lemma {:induction false} InvRun(cfg: Config, s: State, steps: seq<Step>, t: State)
    requires Inv(cfg, s) && Run(cfg, s, steps, t)
    ensures Inv(cfg, t)
    decreases |steps|
  {
    if steps != [] {
      InvStep(cfg, s, steps[0]);
      InvRun(cfg, Do(cfg, s, steps[0]), steps[1..], t);
    }
  }

  // ---------------------------------------------------------------- every run ends

  /** An upper bound on the number of steps left. */
  function Measure(cfg: Config, s: State): nat
    requires s.next <= |cfg.channels|
  {
    8 * (|cfg.channels| - s.next) + Weights(s.workers, |s.workers|)
    + Bit(!s.cancelled) + Bit(!s.jobsClosed) + Bit(!s.resultsClosed)
    + (match s.collector case Waiting => 1 case Holding => 3 case Announcing => 2 case Returned => 0)
  }

  lemma Lighter(ws: seq<Worker>, w: nat, x: Worker)
    requires w < |ws|
    ensures Weights(ws[w := x], |ws|) == Weights(ws, |ws|) + Weight(x) - Weight(ws[w])
  {
    WeightsUpdate(ws, |ws|, w, x);
  }

  lemma MeasureStep(cfg: Config, s: State, step: Step)
    requires Channels(cfg, s) && Enabled(cfg, s, step)
    ensures Do(cfg, s, step).next <= |cfg.channels|
    ensures Measure(cfg, Do(cfg, s, step)) < Measure(cfg, s)
  {
    if WorkerMoves(step) {
      Lighter(s.workers, step.w, After(cfg, s, step));
    }
  }

  /** No interleaving is longer than the measure of its first state. */
  lemma {:induction false} RunsAreBounded(cfg: Config, s: State, steps: seq<Step>, t: State)
    requires Inv(cfg, s) && Run(cfg, s, steps, t)
    ensures t.next <= |cfg.channels|
    ensures |steps| + Measure(cfg, t) <= Measure(cfg, s)
    decreases |steps|
  {
    if steps != [] {
      MeasureStep(cfg, s, steps[0]);
      InvStep(cfg, s, steps[0]);
      RunsAreBounded(cfg, Do(cfg, s, steps[0]), steps[1..], t);
    }
  }

  /** The step a worker that has not exited can take, given that the collector is waiting. */
  function WorkerStep(cfg: Config, s: State, w: nat): (step: Step)
    requires Channels(cfg, s) && s.collector.Waiting? && !s.resultsClosed
    requires w < |s.workers| && !s.workers[w].Exited?
    ensures Enabled(cfg, s, step) && !step.Cancel?
  {
    match s.workers[w]
    case Idle =>
      if s.cancelled || s.jobsClosed then Leave(w) else if s.next < |cfg.channels| then Hand(w) else CloseJobs
    case Got(_) => if s.cancelled then Abandon(w) else Pass(w)
    case Ready(i) => if cfg.Eligible(i) then Start(w) else Skip(w)
    case Running(_) => Finish(w, ZERO)
    case Sending(_, _) => Deliver(w)
    case Pausing => Resume(w)
  }

  /** Nothing is left running: the caller has returned, both channels are closed and every worker is gone. */
  predicate AtRest(s: State) {
    && s.collector.Returned? && s.jobsClosed && s.resultsClosed
    && forall w :: 0 <= w < |s.workers| ==> s.workers[w].Exited?
  }

  /** No reachable state is stuck before everything is at rest; waiting for a cancellation does not count. */
  lemma NeverStuck(cfg: Config, s: State) returns (step: Step)
    requires Inv(cfg, s) && !AtRest(s)
    ensures Enabled(cfg, s, step) && !step.Cancel?
  {
    if s.collector.Holding? {
      step := Look;
    } else if s.collector.Announcing? {
      step := Report;
    } else if s.collector.Returned? {
      step := CloseJobs;
    } else if s.resultsClosed {
      step := Return;
    } else if w :| 0 <= w < |s.workers| && !s.workers[w].Exited? {
      step := WorkerStep(cfg, s, w);
    } else {
      step := CloseResults;
    }
  }

  /** A reachable state from which nothing but a cancellation can happen has no goroutine left behind. */
  lemma StopsAtRest(cfg: Config, s: State)
    requires Inv(cfg, s)
    ensures (forall step :: Enabled(cfg, s, step) ==> step.Cancel?) <==> AtRest(s)
  {
    if !AtRest(s) {
      var step := NeverStuck(cfg, s);
    }
  }

  /** From every reachable state some continuation comes to rest. */
  lemma {:induction false} AlwaysCanReturn(cfg: Config, s: State) returns (steps: seq<Step>, t: State)
    requires Inv(cfg, s)
    ensures Run(cfg, s, steps, t) && AtRest(t)
    decreases Measure(cfg, s)
  {
    if AtRest(s) {
      steps, t := [], s;
    } else {
      var step := NeverStuck(cfg, s);
      MeasureStep(cfg, s, step);
      InvStep(cfg, s, step);
      var rest, last := AlwaysCanReturn(cfg, Do(cfg, s, step));
      steps, t := [step] + rest, last;
      assert steps[0] == step && steps[1..] == rest;
    }
  }

  // ---------------------------------------------------------------- what a run guarantees

  /** In every reachable state no channel has been run twice, nor run unless eligible and handed out. */
  lemma NoChannelRunsTwice(cfg: Config, steps: seq<Step>, t: State, i: nat)
    requires Run(cfg, Init(cfg), steps, t)
    ensures Count(t.started, i) <= 1
    ensures Count(t.started, i) == 1 ==> cfg.Eligible(i) && i < t.next
    ensures Count(t.delivered, i) + Count(t.dropped, i) <= Bit(i < t.next)
  {
    InitInv(cfg);
    InvRun(cfg, Init(cfg), steps, t);
    assert Tallied(cfg, t, i);
  }

  /** How many of the first `n` workers have passed the test and not acted on it yet. */
  function PastTests(ws: seq<Worker>, n: nat): (r: nat)
    requires n <= |ws|
    ensures r <= n
  {
    if n == 0 then 0 else PastTests(ws, n - 1) + Bit(ws[n - 1].Ready?)
  }

  lemma {:induction false} PastTestsUpdate(ws: seq<Worker>, n: nat, w: nat, x: Worker)
    requires w < |ws| && n <= |ws|
    ensures PastTests(ws[w := x], n) + (if w < n then Bit(ws[w].Ready?) else 0)
            == PastTests(ws, n) + (if w < n then Bit(x.Ready?) else 0)
  {
    if n > 0 {
      PastTestsUpdate(ws, n - 1, w, x);
    }
  }

  /** Jobs acted on, and jobs whose worker is past its test. */
  function Committed(s: State): nat {
    Size(s.started) + Size(s.skipped) + PastTests(s.workers, |s.workers|)
  }

  /** The same for one job. */
  function CommittedTo(s: State, i: nat): nat {
    Count(s.started, i) + Count(s.skipped, i) + Holders(s.workers, |s.workers|, PastTest, i)
  }

  /** Reports made, and the one the collector has decided to make. */
  function Promised(s: State): nat {
    |s.reports| + Bit(s.collector.Announcing?)
  }

  /** After cancellation no worker passes its test any more, and the collector decides on no more reports. */
  lemma CancelledStep(cfg: Config, s: State, step: Step, i: nat)
    requires s.cancelled && Enabled(cfg, s, step)
    ensures var t := Do(cfg, s, step);
            && t.cancelled && |t.workers| == |s.workers|
            && Committed(t) == Committed(s) && CommittedTo(t, i) == CommittedTo(s, i)
            && Promised(t) == Promised(s) && s.reports <= t.reports
  {
    if WorkerMoves(step) {
      PastTestsUpdate(s.workers, |s.workers|, step.w, After(cfg, s, step));
      HoldersUpdate(s.workers, |s.workers|, step.w, After(cfg, s, step), PastTest, i);
    }
  }

  /**
    Once the context is cancelled, a job is started or skipped only by a worker already past its test, so at
    most one per worker, and at most one more report is made, by a collector already past its test.
   */
  lemma {:induction false} CancellationStopsStarts(cfg: Config, s: State, steps: seq<Step>, t: State, i: nat)
    requires s.cancelled && Run(cfg, s, steps, t)
    ensures t.cancelled && Committed(t) == Committed(s) && CommittedTo(t, i) == CommittedTo(s, i)
    ensures Size(t.started) + Size(t.skipped) <= Size(s.started) + Size(s.skipped) + |s.workers|
    ensures Promised(t) == Promised(s) && s.reports <= t.reports
    ensures |t.reports| <= |s.reports| + 1
    decreases |steps|
  {
    if steps != [] {
      CancelledStep(cfg, s, steps[0], i);
      CancellationStopsStarts(cfg, Do(cfg, s, steps[0]), steps[1..], t, i);
    }
  }

  /** The bounds are met: a cancellation between test and call does not keep the channel from being run. */
  lemma RunsAfterCancellation(cfg: Config) returns (steps: seq<Step>, s: State, t: State)
    requires cfg.Eligible(0)
    ensures Run(cfg, Init(cfg), steps, s) && s.cancelled && Count(s.started, 0) == 0
    ensures Run(cfg, s, [Start(0)], t) && Count(t.started, 0) == 1
  {
    var a := Do(cfg, Init(cfg), Hand(0));
    var b := Do(cfg, a, Pass(0));
    s, steps := Do(cfg, b, Cancel), [Hand(0), Pass(0), Cancel];
    t := Do(cfg, s, Start(0));
    RunThree(cfg, Init(cfg), a, b, Hand(0), Pass(0), Cancel);
    assert [Start(0)][1..] == [] && Run(cfg, t, [], t);
  }

  lemma RunThree(cfg: Config, s: State, a: State, b: State, x: Step, y: Step, z: Step)
    requires Enabled(cfg, s, x) && a == Do(cfg, s, x) && Enabled(cfg, a, y) && b == Do(cfg, a, y) && Enabled(cfg, b, z)
    ensures Run(cfg, s, [x, y, z], Do(cfg, b, z))
  {
    var t := Do(cfg, b, z);
    assert [z][1..] == [] && Run(cfg, t, [], t);
    assert [y, z][1..] == [z] && Run(cfg, b, [z], t);
    assert [x, y, z][1..] == [y, z] && Run(cfg, a, [y, z], t);
  }

  lemma {:induction false} RunAppend(cfg: Config, s: State, a: seq<Step>, t: State, step: Step)
    requires Run(cfg, s, a, t) && Enabled(cfg, t, step)
    ensures Run(cfg, s, a + [step], Do(cfg, t, step))
    decreases |a|
  {
    var all := a + [step];
    if a == [] {
      assert all == [step] && all[1..] == [];
    } else {
      RunAppend(cfg, Do(cfg, s, a[0]), a[1..], t, step);
      assert all[0] == a[0] && all[1..] == a[1..] + [step];
    }
  }

  /** A first worker holding the result of the first job, nothing having been collected yet. */
  predicate FirstResult(cfg: Config, s: State) {
    && |s.workers| > 0 && s.workers[0].Sending? && s.collector.Waiting? && s.reports == [0] && s.processed == 0
    && !s.cancelled && !s.resultsClosed
  }

  lemma FirstResultReached(cfg: Config) returns (steps: seq<Step>, s: State)
    requires cfg.channels != [] && cfg.reporting
    ensures Run(cfg, Init(cfg), steps, s) && FirstResult(cfg, s)
  {
    var a := Do(cfg, Init(cfg), Hand(0));
    var b := Do(cfg, a, Pass(0));
    if cfg.Eligible(0) {
      RunThree(cfg, Init(cfg), a, b, Hand(0), Pass(0), Start(0));
      var c := Do(cfg, b, Start(0));
      RunAppend(cfg, Init(cfg), [Hand(0), Pass(0), Start(0)], c, Finish(0, ZERO));
      steps, s := [Hand(0), Pass(0), Start(0)] + [Finish(0, ZERO)], Do(cfg, c, Finish(0, ZERO));
    } else {
      RunThree(cfg, Init(cfg), a, b, Hand(0), Pass(0), Skip(0));
      steps, s := [Hand(0), Pass(0), Skip(0)], Do(cfg, b, Skip(0));
    }
  }

  lemma AnnouncingAfter(cfg: Config, s: State)
    requires FirstResult(cfg, s) && cfg.reporting
    ensures Enabled(cfg, s, Deliver(0)) && Enabled(cfg, Do(cfg, s, Deliver(0)), Look)
    ensures var c := Do(cfg, Do(cfg, s, Deliver(0)), Look);
            c.collector.Announcing? && c.reports == [0] && c.processed == 1 && !c.cancelled
  {
  }

  /** Likewise a run in which the first result is reported after the cancellation. */
  lemma ReportsAfterCancellation(cfg: Config) returns (steps: seq<Step>, s: State, t: State)
    requires cfg.channels != [] && cfg.reporting
    ensures Run(cfg, Init(cfg), steps, s) && s.cancelled && s.reports == [0]
    ensures Run(cfg, s, [Report], t) && t.reports == [0, 1]
  {
    var first, a := FirstResultReached(cfg);
    AnnouncingAfter(cfg, a);
    var c := Do(cfg, Do(cfg, a, Deliver(0)), Look);
    RunAppend(cfg, Init(cfg), first, a, Deliver(0));
    RunAppend(cfg, Init(cfg), first + [Deliver(0)], Do(cfg, a, Deliver(0)), Look);
    RunAppend(cfg, Init(cfg), first + [Deliver(0)] + [Look], c, Cancel);
    steps, s := first + [Deliver(0)] + [Look] + [Cancel], Do(cfg, c, Cancel);
    t := Do(cfg, s, Report);
    assert [Report][1..] == [] && Run(cfg, t, [], t);
  }

  /** When the caller has returned, cancelled or not, every started run was collected and summed. */
  lemma ReturnedSummary(cfg: Config, steps: seq<Step>, t: State)
    requires Run(cfg, Init(cfg), steps, t) && t.collector.Returned?
    ensures forall c :: Field(t.summary, c) == Total(t.finished, c)
    ensures forall i: nat :: Results(t.finished, i) == Count(t.started, i)
    ensures forall i: nat :: Count(t.started, i) <= Count(t.delivered, i) <= 1
  {
    InitInv(cfg);
    InvRun(cfg, Init(cfg), steps, t);
    forall c ensures Field(t.summary, c) == Total(t.finished, c) {
      SettledSum(cfg, t, c);
    }
    forall i: nat
      ensures Results(t.finished, i) == Count(t.started, i)
      ensures Count(t.started, i) <= Count(t.delivered, i) <= 1
    {
      SettledTally(cfg, t, i);
    }
  }

  /** With the results channel closed, no worker holds anything back. */
  lemma SettledTally(cfg: Config, t: State, i: nat)
    requires Inv(cfg, t) && t.resultsClosed
    ensures Bit(i < t.next) == Count(t.delivered, i) + Count(t.dropped, i)
    ensures Count(t.started, i) + Count(t.skipped, i) == Count(t.delivered, i)
    ensures Count(t.started, i) == Results(t.finished, i)
    ensures Count(t.started, i) > 0 ==> cfg.Eligible(i)
    ensures Count(t.skipped, i) > 0 ==> !cfg.Eligible(i)
  {
    assert Tallied(cfg, t, i);
    NothingHeld(t.workers, |t.workers|, InHand, i);
    NothingHeld(t.workers, |t.workers|, InRun, i);
    NothingHeld(t.workers, |t.workers|, InTransit, i);
  }

  lemma SettledSum(cfg: Config, t: State, c: Counter)
    requires Inv(cfg, t) && t.resultsClosed
    ensures Field(t.summary, c) == Total(t.finished, c)
  {
    assert Summed(t, c);
    NothingInTransit(t.workers, |t.workers|, c);
  }

  /** The result logged for channel `i`. */
  function ResultOf(log: Log<(nat, Summary)>, i: nat): Summary {
    match log
    case Empty => ZERO
    case Snoc(before, last) => if last.0 == i then last.1 else ResultOf(before, i)
  }

  /** One counter, as a loop over the first `n` channels in order would sum it. */
  function SequentialSum(cfg: Config, log: Log<(nat, Summary)>, n: nat, c: Counter): int {
    if n == 0 then 0
    else SequentialSum(cfg, log, n - 1, c) + (if cfg.Eligible(n - 1) then Field(ResultOf(log, n - 1), c) else 0)
  }

  /** The log without one occurrence of `i`. */
  function Without(log: Log<nat>, i: nat): Log<nat> {
    match log
    case Empty => Empty
    case Snoc(before, last) => if last == i then before else Snoc(Without(before, i), last)
  }

  function WithoutResult(log: Log<(nat, Summary)>, i: nat): Log<(nat, Summary)> {
    match log
    case Empty => Empty
    case Snoc(before, last) => if last.0 == i then before else Snoc(WithoutResult(before, i), last)
  }

  lemma {:induction false} CountWithout(log: Log<nat>, i: nat, j: nat)
    requires Count(log, i) > 0
    ensures Count(log, j) == Count(Without(log, i), j) + Bit(i == j)
    ensures Size(log) == Size(Without(log, i)) + 1
  {
    if log.last != i {
      CountWithout(log.before, i, j);
    }
  }

  lemma {:induction false} ResultsWithout(log: Log<(nat, Summary)>, i: nat, j: nat)
    requires Results(log, i) > 0
    ensures Results(log, j) == Results(WithoutResult(log, i), j) + Bit(i == j)
    ensures i != j ==> ResultOf(WithoutResult(log, i), j) == ResultOf(log, j)
  {
    if log.last.0 != i {
      ResultsWithout(log.before, i, j);
    }
  }

  lemma {:induction false} TotalWithout(log: Log<(nat, Summary)>, i: nat, c: Counter)
    requires Results(log, i) > 0
    ensures Total(log, c) == Total(WithoutResult(log, i), c) + Field(ResultOf(log, i), c)
  {
    if log.last.0 != i {
      TotalWithout(log.before, i, c);
    }
  }

  lemma {:induction false} SequentialSumWithout(cfg: Config, log: Log<(nat, Summary)>, i: nat, n: nat, c: Counter)
    requires Results(log, i) > 0 && n <= i
    ensures SequentialSum(cfg, WithoutResult(log, i), n, c) == SequentialSum(cfg, log, n, c)
  {
    if n > 0 {
      ResultsWithout(log, i, n - 1);
      SequentialSumWithout(cfg, log, i, n - 1, c);
    }
  }

  lemma LastCounted(log: Log<nat>)
    ensures log.Empty? <==> forall i: nat :: Count(log, i) == 0
  {
    if log.Snoc? {
      assert Count(log, log.last) > 0;
    }
  }

  lemma LastResulted(log: Log<(nat, Summary)>)
    ensures log.Empty? <==> forall i: nat :: Results(log, i) == 0
  {
    if log.Snoc? {
      assert Results(log, log.last.0) > 0;
    }
  }

  lemma {:induction false} PermutationSize(log: Log<nat>, n: nat)
    requires forall i: nat :: Count(log, i) == Bit(i < n)
    ensures Size(log) == n
    decreases n
  {
    if n == 0 {
      LastCounted(log);
    } else {
      assert Count(log, n - 1) == 1;
      var rest := Without(log, n - 1);
      forall i: nat ensures Count(rest, i) == Bit(i < n - 1) {
        assert Count(log, i) == Bit(i < n);
        CountWithout(log, n - 1, i);
      }
      CountWithout(log, n - 1, n - 1);
      PermutationSize(rest, n - 1);
    }
  }

  /** Results collected in any order add up to the sum in channel order. */
  lemma {:induction false} SumInOrder(cfg: Config, log: Log<(nat, Summary)>, n: nat, c: Counter)
    requires forall i: nat :: Results(log, i) == Bit(i < n && cfg.Eligible(i))
    ensures Total(log, c) == SequentialSum(cfg, log, n, c)
    decreases n
  {
    if n == 0 {
      LastResulted(log);
    } else if !cfg.Eligible(n - 1) {
      assert forall i: nat :: Results(log, i) == Bit(i < n - 1 && cfg.Eligible(i));
      SumInOrder(cfg, log, n - 1, c);
    } else {
      assert Results(log, n - 1) == 1;
      var rest := WithoutResult(log, n - 1);
      forall i: nat ensures Results(rest, i) == Bit(i < n - 1 && cfg.Eligible(i)) {
        assert Results(log, i) == Bit(i < n && cfg.Eligible(i));
        ResultsWithout(log, n - 1, i);
      }
      SumInOrder(cfg, rest, n - 1, c);
      TotalWithout(log, n - 1, c);
      SequentialSumWithout(cfg, log, n - 1, n - 1, c);
    }
  }

  /**
    Without cancellation: every channel is consumed exactly once, run is called exactly once on each eligible
    one, the summary is the sequential sum, and the reports are 0, 1, ..., total.
   */
  lemma UncancelledRun(cfg: Config, steps: seq<Step>, t: State)
    requires Run(cfg, Init(cfg), steps, t) && t.collector.Returned? && !t.cancelled
    ensures forall i: nat :: Count(t.delivered, i) == Bit(i < |cfg.channels|)
    ensures forall i: nat :: Count(t.started, i) == Bit(cfg.Eligible(i))
    ensures forall i: nat :: i < |cfg.channels| ==>
              (Count(t.started, i) == 1 <==> cfg.channels[i].Entry? && cfg.channels[i].status != 2)
    ensures forall c :: Field(t.summary, c) == SequentialSum(cfg, t.finished, |cfg.channels|, c)
    ensures t.processed == |cfg.channels|
    ensures cfg.reporting ==> t.reports == seq(|cfg.channels| + 1, k => k)
  {
    InitInv(cfg);
    InvRun(cfg, Init(cfg), steps, t);
    forall i: nat
      ensures Count(t.delivered, i) == Bit(i < |cfg.channels|)
      ensures Count(t.started, i) == Bit(cfg.Eligible(i))
      ensures Results(t.finished, i) == Bit(i < |cfg.channels| && cfg.Eligible(i))
    {
      SettledTally(cfg, t, i);
    }
    PermutationSize(t.delivered, |cfg.channels|);
    forall c ensures Field(t.summary, c) == SequentialSum(cfg, t.finished, |cfg.channels|, c) {
      SettledSum(cfg, t, c);
      SumInOrder(cfg, t.finished, |cfg.channels|, c);
    }
  }

  predicate AllConsistent(log: Log<(nat, Summary)>) {
    log.Snoc? ==> Consistent(log.last.1) && AllConsistent(log.before)
  }

  predicate ConsistentTotals(log: Log<(nat, Summary)>) {
    && Total(log, Tested) == Total(log, Succeeded) + Total(log, Failed)
    && 0 <= Total(log, Disabled) <= Total(log, Failed)
    && 0 <= Total(log, Counter.Enabled) <= Total(log, Succeeded)
  }

  lemma {:induction false} TotalConsistent(log: Log<(nat, Summary)>)
    requires AllConsistent(log)
    ensures ConsistentTotals(log)
  {
    if log.Snoc? {
      TotalConsistent(log.before);
    }
  }

  /** If every test reports a consistent summary, so does the whole cycle, cancelled or not. */
  lemma CycleConsistent(cfg: Config, steps: seq<Step>, t: State)
    requires Run(cfg, Init(cfg), steps, t) && t.collector.Returned? && AllConsistent(t.finished)
    ensures Consistent(t.summary)
  {
    ReturnedSummary(cfg, steps, t);
    TotalConsistent(t.finished);
    assert Field(t.summary, Tested) == Total(t.finished, Tested);
    assert Field(t.summary, Succeeded) == Total(t.finished, Succeeded);
    assert Field(t.summary, Failed) == Total(t.finished, Failed);
    assert Field(t.summary, Disabled) == Total(t.finished, Disabled);
    assert Field(t.summary, Counter.Enabled) == Total(t.finished, Counter.Enabled);
  }

  // ---------------------------------------------------------------- how many channels are tested at once

  function RunningWorkers(ws: seq<Worker>, n: nat): (r: nat)
    requires n <= |ws|
    ensures r <= n
  {
    if n == 0 then 0 else RunningWorkers(ws, n - 1) + Bit(ws[n - 1].Running?)
  }

  /**
    On every run there are as many workers as the concurrency setting allows or as there are channels,
    whichever is less, so no more channels than that are inside run at the same time.
   */
  lemma BoundedConcurrency(cfg: Config, steps: seq<Step>, t: State)
    requires Run(cfg, Init(cfg), steps, t)
    ensures var allowed, total := NormalizeConcurrency(cfg.concurrency), |cfg.channels|;
            && |t.workers| == (if allowed < total then allowed else total)
            && RunningWorkers(t.workers, |t.workers|) <= allowed
  {
    InitInv(cfg);
    InvRun(cfg, Init(cfg), steps, t);
  }
}
