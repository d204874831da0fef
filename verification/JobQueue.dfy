/**
 The unbounded job queue of lib-utilities/common/jobqueue.go and the read workers of
 workerpool.go, as one transition system.  `in` and `out` are channels of capacity `cap`;
 with capacity 0 a send and a receive happen together (`Handover`, `EmitTo`).  The queue
 goroutine holds the slice `buff`; it takes from `in`, gives `buff[0]` to `out`, and closes
 `out` when `in` is closed and everything has been passed on.  Every sequence of enabled
 events is one schedule.
 */
module JobQueue {

  /** What a producer may send: nil is received and dropped. */
  datatype Item<J> = Nil | Job(job: J)

  datatype Worker<J> = Waiting | Running(job: J) | Exited

  datatype State<J> = State(
    cap: nat,
    inBuf: seq<Item<J>>, inClosed: bool,
    inNil: bool,                  // the goroutine has set its `in` to nil
    buff: seq<J>,
    outBuf: seq<J>, outClosed: bool,
    workers: seq<Worker<J>>,
    sent: seq<Item<J>>,           // history: items accepted, in order
    taken: seq<(nat, J)>,         // history: worker and job, in the order of the receives
    finished: seq<(nat, J)>)      // history: calls of jobProcess that returned

  datatype Event<J> =
    | Send(x: Item<J>)      // into the buffer of `in`
    | Handover(x: Item<J>)  // straight to the goroutine, capacity 0
    | Close                 // the user closes `in`
    | Receive               // the goroutine takes from the buffer of `in`
    | SeeClosed             // the goroutine finds `in` closed and drained
    | Emit                  // buff[0] into the buffer of `out`
    | EmitTo(w: nat)        // buff[0] straight to a waiting worker, capacity 0
    | CloseOut              // the loop ends
    | Take(w: nat)          // a worker takes from the buffer of `out`
    | Finish(w: nat)        // jobProcess returns
    | Exit(w: nat)          // a worker finds `out` closed and drained

  function Init<J>(cap: nat, workerCount: nat): State<J> {
    State(cap, [], false, false, [], [], false, seq(workerCount, _ => Waiting), [], [], [])
  }

  predicate Enabled<J>(s: State<J>, e: Event<J>) {
    match e
    case Send(_) => !s.inClosed && |s.inBuf| < s.cap
    case Handover(_) => !s.inClosed && s.cap == 0 && !s.inNil && !s.outClosed
    case Close => !s.inClosed
    case Receive => !s.inNil && !s.outClosed && s.inBuf != []
    case SeeClosed => !s.inNil && !s.outClosed && s.inBuf == [] && s.inClosed
    case Emit => !s.outClosed && s.buff != [] && |s.outBuf| < s.cap
    case EmitTo(w) => !s.outClosed && s.buff != [] && s.cap == 0 && w < |s.workers| && s.workers[w].Waiting?
    case CloseOut => !s.outClosed && s.buff == [] && s.inNil
    case Take(w) => w < |s.workers| && s.workers[w].Waiting? && s.outBuf != []
    case Finish(w) => w < |s.workers| && s.workers[w].Running?
    case Exit(w) => w < |s.workers| && s.workers[w].Waiting? && s.outBuf == [] && s.outClosed
  }

  /** The append to `buff` skips nil. */
  function Append<J>(buff: seq<J>, x: Item<J>): seq<J> { if x.Nil? then buff else buff + [x.job] }

  function Step<J>(s: State<J>, e: Event<J>): State<J>
    requires Enabled(s, e)
  {
    match e
    case Send(x) => s.(inBuf := s.inBuf + [x], sent := s.sent + [x])
    case Handover(x) => s.(buff := Append(s.buff, x), sent := s.sent + [x])
    case Close => s.(inClosed := true)
    case Receive => s.(inBuf := s.inBuf[1..], buff := Append(s.buff, s.inBuf[0]))
    case SeeClosed => s.(inNil := true)
    case Emit => s.(buff := s.buff[1..], outBuf := s.outBuf + [s.buff[0]])
    case EmitTo(w) => s.(buff := s.buff[1..], workers := s.workers[w := Running(s.buff[0])], taken := s.taken + [(w, s.buff[0])])
    case CloseOut => s.(outClosed := true)
    case Take(w) => s.(outBuf := s.outBuf[1..], workers := s.workers[w := Running(s.outBuf[0])], taken := s.taken + [(w, s.outBuf[0])])
    case Finish(w) => s.(workers := s.workers[w := Waiting], finished := s.finished + [(w, s.workers[w].job)])
    case Exit(w) => s.(workers := s.workers[w := Exited])
  }

  // ---------------------------------------------------------------- conservation

  /** The items that are not nil, in order. */
  function Jobs<J>(xs: seq<Item<J>>): seq<J> {
    if xs == [] then []
    else
      var earlier := Jobs(xs[..|xs| - 1]);
      match xs[|xs| - 1]
      case Nil => earlier
      case Job(j) => earlier + [j]
  }

  /** Every job counts as often as it was sent, and nil never does. */
  lemma {:induction false} JobsCount<J>(xs: seq<Item<J>>, j: J)
    ensures multiset(Jobs(xs))[j] == multiset(xs)[Job(j)]
  {
    if xs != [] {
      var n := |xs| - 1;
      JobsCount(xs[..n], j);
      assert xs == xs[..n] + [xs[n]];
      assert multiset(xs) == multiset(xs[..n]) + multiset{xs[n]};
    }
  }

  function JobsOf<J>(log: seq<(nat, J)>): seq<J> {
    if log == [] then [] else JobsOf(log[..|log| - 1]) + [log[|log| - 1].1]
  }

  /** The jobs of one worker, in order. */
  function Share<J>(log: seq<(nat, J)>, w: nat): seq<J> {
    if log == [] then []
    else
      var last := log[|log| - 1];
      Share(log[..|log| - 1], w) + if last.0 == w then [last.1] else []
  }

  lemma {:induction false} JobsConcat<J>(xs: seq<Item<J>>, ys: seq<Item<J>>)
    ensures Jobs(xs + ys) == Jobs(xs) + Jobs(ys)
  {
    if ys == [] {
      assert xs + ys == xs;
    } else {
      var n := |ys| - 1;
      JobsConcat(xs, ys[..n]);
      assert (xs + ys)[..|xs + ys| - 1] == xs + ys[..n];
    }
  }

  lemma JobsSnoc<J>(xs: seq<Item<J>>, x: Item<J>)
    ensures Jobs(xs + [x]) == Append(Jobs(xs), x)
    ensures x.Nil? ==> Jobs(xs + [x]) == Jobs(xs)
    ensures x.Job? ==> Jobs(xs + [x]) == Jobs(xs) + [x.job]
  {
    assert (xs + [x])[..|xs|] == xs;
  }

  lemma LogSnoc<J>(log: seq<(nat, J)>, w: nat, j: J, v: nat)
    ensures JobsOf(log + [(w, j)]) == JobsOf(log) + [j]
    ensures Share(log + [(w, j)], v) == Share(log, v) + if v == w then [j] else []
  {
    assert (log + [(w, j)])[..|log|] == log;
  }

  function Pending<J>(w: Worker<J>): seq<J> { if w.Running? then [w.job] else [] }

  ghost predicate Conserved<J>(s: State<J>) {
    Jobs(s.sent) == JobsOf(s.taken) + s.outBuf + s.buff + Jobs(s.inBuf)
  }

  ghost predicate WorkersAgree<J>(s: State<J>) {
    && (forall w :: 0 <= w < |s.workers| ==> Share(s.taken, w) == Share(s.finished, w) + Pending(s.workers[w]))
    && (forall i :: 0 <= i < |s.taken| ==> s.taken[i].0 < |s.workers|)
  }

  ghost predicate Inv<J>(s: State<J>) {
    && Conserved(s)
    && WorkersAgree(s)
    && Flags(s)
  }

  ghost predicate Flags<J>(s: State<J>) {
    && (s.inNil ==> s.inClosed && s.inBuf == [])
    && (s.outClosed ==> s.inNil && s.buff == [])
    && |s.inBuf| <= s.cap && |s.outBuf| <= s.cap
    && (forall w :: 0 <= w < |s.workers| && s.workers[w].Exited? ==> s.outClosed && s.outBuf == [])
  }

  lemma InitInv<J>(cap: nat, workerCount: nat)
    ensures Inv<J>(Init(cap, workerCount))
  {
  }

  /** Moving the head of one stage to the end of the stage before it keeps the whole. */
  lemma Move<J>(t: seq<J>, a: seq<J>, b: seq<J>, rest: seq<J>)
    ensures b != [] ==> t + (a + [b[0]]) + b[1..] + rest == t + a + b + rest
    ensures a != [] ==> (t + [a[0]]) + a[1..] + b + rest == t + a + b + rest
    ensures a == [] && b != [] ==> (t + [b[0]]) + a + b[1..] + rest == t + a + b + rest
  {
  }

  lemma SendConserves<J>(s: State<J>, x: Item<J>)
    requires Conserved(s)
    ensures Enabled(s, Send(x)) ==> Conserved(Step(s, Send(x)))
    ensures Enabled(s, Handover(x)) && s.inBuf == [] ==> Conserved(Step(s, Handover(x)))
  {
    hide JobsOf, Jobs;
    JobsSnoc(s.sent, x);
    JobsSnoc(s.inBuf, x);
    assert Jobs<J>([]) == [] by { JobsNil<J>(); }
  }

  lemma JobsNil<J>()
    ensures Jobs<J>([]) == []
  {
  }

  lemma JobsHead<J>(xs: seq<Item<J>>)
    requires xs != []
    ensures Jobs(xs) == Append([], xs[0]) + Jobs(xs[1..])
  {
    assert xs == [xs[0]] + xs[1..];
    JobsConcat([xs[0]], xs[1..]);
    assert Jobs([xs[0]]) == Append([], xs[0]) by { assert [xs[0]][..0] == []; }
  }

  lemma ReceiveConserves<J>(s: State<J>)
    requires Conserved(s) && Enabled(s, Receive)
    ensures Conserved(Step(s, Receive))
  {
    hide JobsOf, Jobs;
    JobsHead(s.inBuf);
  }

  lemma StepConserves<J>(s: State<J>, e: Event<J>)
    requires Inv(s) && Enabled(s, e)
    ensures Conserved(Step(s, e))
  {
    hide WorkersAgree, Jobs, JobsOf, Share;
    if e.Send? || e.Handover? {
      SendConserves(s, e.x);
    } else if e.Receive? {
      ReceiveConserves(s);
    } else {
      Move(JobsOf(s.taken), s.outBuf, s.buff, Jobs(s.inBuf));
      if e.EmitTo? {
        LogSnoc(s.taken, e.w, s.buff[0], e.w);
      } else if e.Take? {
        LogSnoc(s.taken, e.w, s.outBuf[0], e.w);
      }
    }
  }

  lemma StepWorker<J>(s: State<J>, e: Event<J>, v: nat)
    requires WorkersAgree(s) && Enabled(s, e) && v < |s.workers|
    ensures var s' := Step(s, e); Share(s'.taken, v) == Share(s'.finished, v) + Pending(s'.workers[v])
  {
    hide Share;
    if e.EmitTo? {
      LogSnoc(s.taken, e.w, s.buff[0], v);
    } else if e.Take? {
      LogSnoc(s.taken, e.w, s.outBuf[0], v);
    } else if e.Finish? {
      LogSnoc(s.finished, e.w, s.workers[e.w].job, v);
    } else {
      var s' := Step(s, e);
      assert s'.taken == s.taken && s'.finished == s.finished;
      assert Pending(s'.workers[v]) == Pending(s.workers[v]);
    }
  }

  lemma StepWorkers<J>(s: State<J>, e: Event<J>)
    requires WorkersAgree(s) && Enabled(s, e)
    ensures WorkersAgree(Step(s, e))
  {
    hide Share, Pending;
    var s' := Step(s, e);
    forall v | 0 <= v < |s'.workers| ensures Share(s'.taken, v) == Share(s'.finished, v) + Pending(s'.workers[v]) {
      StepWorker(s, e, v);
    }
  }

  lemma StepFlags<J>(s: State<J>, e: Event<J>)
    requires Flags(s) && Enabled(s, e)
    ensures Flags(Step(s, e))
  {
  }

  lemma StepInv<J>(s: State<J>, e: Event<J>)
    requires Inv(s) && Enabled(s, e)
    ensures Inv(Step(s, e))
  {
    hide Conserved, WorkersAgree, Flags, Enabled, Step;
    StepConserves(s, e);
    StepWorkers(s, e);
    StepFlags(s, e);
  }

  // ---------------------------------------------------------------- every schedule

  ghost predicate Schedule<J>(s: State<J>, es: seq<Event<J>>)
    decreases |es|
  {
    es == [] || (Enabled(s, es[0]) && Schedule(Step(s, es[0]), es[1..]))
  }

  ghost function Run<J>(s: State<J>, es: seq<Event<J>>): State<J>
    requires Schedule(s, es)
    decreases |es|
  {
    if es == [] then s else Run(Step(s, es[0]), es[1..])
  }

  lemma {:induction false} RunInv<J>(s: State<J>, es: seq<Event<J>>)
    requires Inv(s) && Schedule(s, es)
    ensures Inv(Run(s, es))
    decreases |es|
  {
    hide Inv, Enabled, Step;
    if es != [] {
      StepInv(s, es[0]);
      RunInv(Step(s, es[0]), es[1..]);
    }
  }

  /** In every schedule, the i-th job received by any worker is the i-th job sent: each is
      handed out once, in order, and none is invented. */
  lemma HandedOutOnce<J>(cap: nat, n: nat, es: seq<Event<J>>)
    requires Schedule(Init(cap, n), es)
    ensures var s := Run(Init(cap, n), es);
            && Jobs(s.sent) == JobsOf(s.taken) + s.outBuf + s.buff + Jobs(s.inBuf)
            && (s.outClosed ==> s.inClosed && Jobs(s.sent) == JobsOf(s.taken) + s.outBuf)
            && forall w :: 0 <= w < n ==> Share(s.finished, w) <= Share(s.taken, w)
  {
    InitInv<J>(cap, n);
    RunInv(Init(cap, n), es);
    RunKeepsSize(Init(cap, n), es);
  }

  lemma {:induction false} RunKeepsSize<J>(s: State<J>, es: seq<Event<J>>)
    requires Schedule(s, es)
    ensures |Run(s, es).workers| == |s.workers| && Run(s, es).cap == s.cap
    decreases |es|
  {
    if es != [] { RunKeepsSize(Step(s, es[0]), es[1..]); }
  }

  lemma {:induction false} ShareOfOnly<J>(log: seq<(nat, J)>)
    requires forall i :: 0 <= i < |log| ==> log[i].0 == 0
    ensures Share(log, 0) == JobsOf(log)
  {
    if log != [] { ShareOfOnly(log[..|log| - 1]); }
  }

  /** With one worker the jobs are processed in the order they were sent. */
  lemma SingleWorkerOrder<J>(cap: nat, es: seq<Event<J>>)
    requires Schedule(Init(cap, 1), es)
    ensures Share(Run(Init(cap, 1), es).finished, 0) <= Jobs(Run(Init(cap, 1), es).sent)
  {
    InitInv<J>(cap, 1);
    RunInv(Init(cap, 1), es);
    RunKeepsSize(Init(cap, 1), es);
    ShareOfOnly(Run(Init(cap, 1), es).taken);
  }

  // ---------------------------------------------------------------- closing down

  function Total<X>(xs: seq<X>, f: X -> nat): nat {
    if xs == [] then 0 else f(xs[0]) + Total(xs[1..], f)
  }

  lemma {:induction false} TotalUpdate<X>(xs: seq<X>, i: nat, x: X, f: X -> nat)
    requires i < |xs|
    ensures Total(xs[i := x], f) + f(xs[i]) == Total(xs, f) + f(x)
  {
    if i == 0 {
      assert xs[i := x][1..] == xs[1..];
    } else {
      TotalUpdate(xs[1..], i - 1, x, f);
      assert xs[i := x][1..] == xs[1..][i - 1 := x];
    }
  }

  function WorkerLoad<J>(w: Worker<J>): nat {
    match w
    case Waiting => 1
    case Running(_) => 2
    case Exited => 0
  }

  /** What is left to do once no more items come in. */
  function Work<J>(s: State<J>): nat {
    4 * |s.inBuf| + 3 * |s.buff| + 2 * |s.outBuf| + Total(s.workers, WorkerLoad)
    + (if s.inClosed then 0 else 1) + (if s.inNil then 0 else 1) + (if s.outClosed then 0 else 1)
  }

  /** Every event that is not a send brings the system closer to its end. */
  lemma StepWorks<J>(s: State<J>, e: Event<J>)
    requires Enabled(s, e)
    ensures !e.Send? && !e.Handover? ==> Work(Step(s, e)) < Work(s)
    ensures e.Send? || e.Handover? ==> Work(Step(s, e)) <= Work(s) + 4
  {
    match e
    case EmitTo(w) => TotalUpdate(s.workers, w, Running(s.buff[0]), WorkerLoad);
    case Take(w) => TotalUpdate(s.workers, w, Running(s.outBuf[0]), WorkerLoad);
    case Finish(w) => TotalUpdate(s.workers, w, Waiting, WorkerLoad);
    case Exit(w) => TotalUpdate(s.workers, w, Exited, WorkerLoad);
    case _ =>
  }

  /** After the input is closed no schedule is longer than the work left. */
  lemma {:induction false} ClosedTerminates<J>(s: State<J>, es: seq<Event<J>>)
    requires s.inClosed && Schedule(s, es)
    ensures |es| <= Work(s)
    decreases |es|
  {
    if es != [] {
      StepWorks(s, es[0]);
      ClosedTerminates(Step(s, es[0]), es[1..]);
    }
  }

  ghost predicate Drained<J>(s: State<J>) {
    s.outClosed && s.outBuf == [] && forall w :: 0 <= w < |s.workers| ==> s.workers[w].Exited?
  }

  /** Nothing is ever stuck: with at least one worker, some event is possible until the queue
      is drained. */
  lemma Progress<J>(s: State<J>) returns (e: Event<J>)
    requires Inv(s) && s.inClosed && |s.workers| > 0 && !Drained(s)
    ensures Enabled(s, e)
  {
    if w :| 0 <= w < |s.workers| && s.workers[w].Running? {
      e := Finish(w);
    } else if s.inBuf != [] {
      e := Receive;
    } else if !s.inNil {
      e := SeeClosed;
    } else if s.outBuf != [] {
      e := Take(0);
    } else if s.buff != [] {
      e := if s.cap == 0 then EmitTo(0) else Emit;
    } else if !s.outClosed {
      e := CloseOut;
    } else {
      var w :| 0 <= w < |s.workers| && !s.workers[w].Exited?;
      e := Exit(w);
    }
  }

  /** A drained queue has handed out every job sent and every call has returned. */
  lemma DrainedMeansDone<J>(s: State<J>)
    requires Inv(s) && Drained(s)
    ensures Jobs(s.sent) == JobsOf(s.taken)
    ensures forall w :: 0 <= w < |s.workers| ==> Share(s.finished, w) == Share(s.taken, w)
  {
  }
}
