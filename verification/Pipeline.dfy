/**
 Write workers, job queue and read workers together.  svc-events keeps one queue open for its
 whole life: each message it consumes starts write workers of its own on the queue
 (consumer.go), any number of batches at once, and a fixed set of read workers processes what
 comes out.  The comments of jobqueue.go and workerpool.go ask the user to close the input, and
 only after every batch has been written; a user that never does so is covered as well.
 */
module Pipeline {
  import opened JobQueue
  import W = WriteWorkers

  datatype System<J> = System(
    batches: seq<seq<Item<J>>>,     // what arrived, one batch for each store
    stores: seq<W.Store<J>>,
    queue: State<J>,
    log: seq<(nat, Item<J>)>)       // history: store and item of every write the queue accepted

  datatype Move<J> =
    | Arrive(batch: seq<Item<J>>, writers: nat)  // RunWriteWorkers
    | Write(k: nat, a: W.Act)                    // a writer acts; a `Put` is also a send into the queue
    | Queue(e: Event<J>)                         // the queue, a reader or the closing user

  function Start<J>(cap: nat, readers: nat): System<J> {
    System([], [], Init(cap, readers), [])
  }

  /** The event by which the queue accepts an item. */
  function Accept<J>(q: State<J>, x: Item<J>): Event<J> { if q.cap == 0 then Handover(x) else Send(x) }

  /** Nothing will be written from this store any more. */
  predicate Settled<J>(s: W.Store<J>) { s.signals == 1 || s.phases == [] }

  predicate Possible<J>(s: System<J>, m: Move<J>) {
    match m
    case Arrive(_, _) => !s.queue.inClosed
    case Write(k, a) =>
      k < |s.stores| && W.Can(s.stores[k], a) &&
      (a.Put? ==> Enabled(s.queue, Accept(s.queue, s.stores[k].phases[a.i].x)))
    case Queue(e) =>
      Enabled(s.queue, e) && !e.Send? && !e.Handover? &&
      (e.Close? ==> forall k :: 0 <= k < |s.stores| ==> Settled(s.stores[k]))
  }

  function Next<J>(s: System<J>, m: Move<J>): System<J>
    requires Possible(s, m)
  {
    match m
    case Arrive(batch, writers) =>
      s.(batches := s.batches + [batch], stores := s.stores + [W.Start(batch, writers)])
    case Write(k, a) =>
      var t := s.(stores := s.stores[k := W.Do(s.stores[k], a)]);
      if a.Put? then
        var x := s.stores[k].phases[a.i].x;
        t.(queue := Step(s.queue, Accept(s.queue, x)), log := s.log + [(k, x)])
      else t
    case Queue(e) => s.(queue := Step(s.queue, e))
  }

  // ---------------------------------------------------------------- the joint invariant

  /** The queue has accepted exactly what the stores wrote, in the order of the log. */
  ghost predicate LogOk<J>(s: System<J>) {
    && JobsOf(s.log) == s.queue.sent
    && (forall k :: 0 <= k < |s.stores| ==> Share(s.log, k) == s.stores[k].written)
    && forall i :: 0 <= i < |s.log| ==> s.log[i].0 < |s.stores|
  }

  ghost predicate StoresOk<J>(s: System<J>) {
    && |s.batches| == |s.stores|
    && (forall k :: 0 <= k < |s.stores| ==> W.Inv(s.stores[k], s.batches[k]))
    && (s.queue.inClosed ==> forall k :: 0 <= k < |s.stores| ==> Settled(s.stores[k]))
  }

  ghost predicate Good<J>(s: System<J>) { StoresOk(s) && LogOk(s) && Inv(s.queue) }

  lemma StartGood<J>(cap: nat, readers: nat)
    ensures Good(Start<J>(cap, readers))
  {
    InitInv<J>(cap, readers);
  }

  lemma SentOnly<J>(q: State<J>, e: Event<J>)
    requires Enabled(q, e)
    ensures Step(q, e).sent == q.sent + (if e.Send? || e.Handover? then [e.x] else [])
    ensures Step(q, e).inClosed == (q.inClosed || e.Close?)
    ensures Step(q, e).cap == q.cap && |Step(q, e).workers| == |q.workers|
  {
  }

  lemma {:induction false} NoShare<J>(log: seq<(nat, J)>, k: nat)
    requires forall i :: 0 <= i < |log| ==> log[i].0 < k
    ensures Share(log, k) == []
  {
    if log != [] { NoShare(log[..|log| - 1], k); }
  }

  lemma ArriveGood<J>(s: System<J>, batch: seq<Item<J>>, writers: nat)
    requires Good(s) && Possible(s, Arrive(batch, writers))
    ensures Good(Next(s, Arrive(batch, writers)))
  {
    hide Inv, Share, JobsOf, W.Inv;
    W.StartInv(batch, writers);
    NoShare(s.log, |s.stores|);
    var t := Next(s, Arrive(batch, writers));
    assert t.stores[|s.stores|].written == [];
  }

  /** A settled store does not write. */
  lemma SettledStill<J>(s: W.Store<J>, a: W.Act, all: seq<Item<J>>)
    requires W.Inv(s, all) && W.Can(s, a)
    ensures !Settled(s)
  {
    W.WrittenInOrder(s, all);
  }

  lemma WriteLog<J>(s: System<J>, k: nat, a: W.Act)
    requires LogOk(s) && Possible(s, Write(k, a))
    ensures LogOk(Next(s, Write(k, a)))
  {
    hide Share, JobsOf, Inv, Enabled, Step;
    var t := Next(s, Write(k, a));
    if a.Put? {
      var x := s.stores[k].phases[a.i].x;
      SentOnly(s.queue, Accept(s.queue, x));
      forall j | 0 <= j < |t.stores| ensures Share(t.log, j) == t.stores[j].written {
        LogSnoc(s.log, k, x, j);
      }
      LogSnoc(s.log, k, x, k);
    }
  }

  lemma WriteGood<J>(s: System<J>, k: nat, a: W.Act)
    requires Good(s) && Possible(s, Write(k, a))
    ensures Good(Next(s, Write(k, a)))
  {
    hide LogOk, Inv, W.Inv, Enabled, Step;
    WriteLog(s, k, a);
    W.DoInv(s.stores[k], a, s.batches[k]);
    SettledStill(s.stores[k], a, s.batches[k]);
    if a.Put? {
      var e := Accept(s.queue, s.stores[k].phases[a.i].x);
      StepInv(s.queue, e);
      SentOnly(s.queue, e);
    }
  }

  lemma NextGood<J>(s: System<J>, m: Move<J>)
    requires Good(s) && Possible(s, m)
    ensures Good(Next(s, m))
  {
    hide W.Inv, Inv, Enabled, Step, Share, JobsOf, Settled;
    match m
    case Arrive(batch, writers) => ArriveGood(s, batch, writers);
    case Write(k, a) => WriteGood(s, k, a);
    case Queue(e) =>
      StepInv(s.queue, e);
      SentOnly(s.queue, e);
  }

  // ---------------------------------------------------------------- every schedule

  ghost predicate Schedule<J>(s: System<J>, ms: seq<Move<J>>)
    decreases |ms|
  {
    ms == [] || (Possible(s, ms[0]) && Schedule(Next(s, ms[0]), ms[1..]))
  }

  ghost function Run<J>(s: System<J>, ms: seq<Move<J>>): System<J>
    requires Schedule(s, ms)
    decreases |ms|
  {
    if ms == [] then s else Run(Next(s, ms[0]), ms[1..])
  }

  function Work<J>(s: System<J>): nat { Total(s.stores, W.Load) + JobQueue.Work(s.queue) }

  /** Every move but an arrival leaves less to do. */
  lemma NextWorks<J>(s: System<J>, m: Move<J>)
    requires Possible(s, m) && !m.Arrive?
    ensures Work(Next(s, m)) < Work(s)
  {
    hide Enabled, Step, JobQueue.Work, W.Load;
    match m
    case Write(k, a) =>
      W.DoWorks(s.stores[k], a);
      TotalUpdate(s.stores, k, W.Do(s.stores[k], a), W.Load);
      if a.Put? { StepWorks(s.queue, Accept(s.queue, s.stores[k].phases[a.i].x)); }
    case Queue(e) => StepWorks(s.queue, e);
  }

  /** Every schedule keeps the invariant, the batches that arrived and the number of readers. */
  lemma {:induction false} RunGood<J>(s: System<J>, ms: seq<Move<J>>)
    requires Good(s) && Schedule(s, ms)
    ensures Good(Run(s, ms)) && s.batches <= Run(s, ms).batches
    ensures |Run(s, ms).queue.workers| == |s.queue.workers|
    decreases |ms|
  {
    hide Good, Possible, Enabled, Step;
    if ms != [] {
      NextGood(s, ms[0]);
      NextKeeps(s, ms[0]);
      RunGood(Next(s, ms[0]), ms[1..]);
    }
  }

  lemma NextKeeps<J>(s: System<J>, m: Move<J>)
    requires Possible(s, m)
    ensures s.batches <= Next(s, m).batches && |Next(s, m).queue.workers| == |s.queue.workers|
  {
    hide Enabled, Step;
    match m
    case Arrive(_, _) =>
    case Write(k, a) => if a.Put? { SentOnly(s.queue, Accept(s.queue, s.stores[k].phases[a.i].x)); }
    case Queue(e) => SentOnly(s.queue, e);
  }

  /** Between two arrivals no schedule is longer than the work there is. */
  lemma {:induction false} RunWorks<J>(s: System<J>, ms: seq<Move<J>>)
    requires Schedule(s, ms) && forall i :: 0 <= i < |ms| ==> !ms[i].Arrive?
    ensures |ms| + Work(Run(s, ms)) <= Work(s)
    decreases |ms|
  {
    hide Work, Possible, Next;
    if ms != [] {
      NextWorks(s, ms[0]);
      RunWorks(Next(s, ms[0]), ms[1..]);
    }
  }

  // ---------------------------------------------------------------- quiet systems

  /** Nothing is left in the queue or in a worker's hands. */
  ghost predicate Idle<J>(q: State<J>) {
    q.inBuf == [] && q.buff == [] && q.outBuf == [] && forall w :: 0 <= w < |q.workers| ==> !q.workers[w].Running?
  }

  /** All stores are settled and the queue is idle: open and waiting, or closed and drained. */
  ghost predicate Quiet<J>(s: System<J>) {
    && (forall k :: 0 <= k < |s.stores| ==> Settled(s.stores[k]))
    && Idle(s.queue) && (s.queue.inClosed ==> Drained(s.queue))
  }

  /** A queue that holds something can go on without anyone closing it. */
  lemma QueueGoesOn<J>(q: State<J>) returns (e: Event<J>)
    requires Flags(q) && |q.workers| > 0 && !Idle(q)
    ensures Enabled(q, e) && !e.Send? && !e.Handover? && !e.Close?
  {
    if w :| 0 <= w < |q.workers| && q.workers[w].Running? {
      e := Finish(w);
    } else if q.inBuf != [] {
      e := Receive;
    } else if q.outBuf != [] {
      e := Take(0);
    } else {
      e := if q.cap == 0 then EmitTo(0) else Emit;
    }
  }

  /** A store that is not settled can go on, or the queue it writes into can. */
  lemma StoreGoesOn<J>(s: System<J>, k: nat) returns (m: Move<J>)
    requires Good(s) && k < |s.stores| && !Settled(s.stores[k])
    ensures Possible(s, m) && !m.Arrive? && m != Queue(Close)
  {
    hide LogOk, Conserved, WorkersAgree;
    var t := s.stores[k];
    assert W.Inv(t, s.batches[k]) && !s.queue.inClosed;
    var i := if t.holder.Some? then t.holder.value else 0;
    var p := t.phases[i];
    if t.holder.None? {
      m := Write(k, W.Lock(0));
    } else if p.Locked? {
      m := Write(k, W.Look(i));
    } else if p.Sent? {
      m := Write(k, W.Unlock(i));
    } else if p.Signalling? {
      m := Write(k, W.Signal(i));
    } else if s.queue.cap > 0 && |s.queue.inBuf| == s.queue.cap {
      m := Queue(Receive);
    } else {
      m := Write(k, W.Put(i));
    }
  }

  /** A system that is not quiet can go on by itself, whatever arrives or is closed later. */
  lemma Progress<J>(s: System<J>) returns (m: Move<J>)
    requires Good(s) && |s.queue.workers| > 0 && !Quiet(s)
    ensures Possible(s, m) && !m.Arrive? && m != Queue(Close)
  {
    hide W.Inv, Conserved, WorkersAgree, LogOk, Settled;
    if k :| 0 <= k < |s.stores| && !Settled(s.stores[k]) {
      m := StoreGoesOn(s, k);
    } else if !Idle(s.queue) {
      var e := QueueGoesOn(s.queue);
      m := Queue(e);
    } else {
      var e := JobQueue.Progress(s.queue);
      m := Queue(e);
    }
  }

  /** A quiet system has delivered: every batch with a writer was written completely and in its
      own order, and every job written was handed to exactly one reader, in the order written,
      whose call has returned. */
  ghost predicate Delivered<J>(s: System<J>) {
    && |s.batches| == |s.stores| && JobsOf(s.log) == s.queue.sent
    && (forall k :: 0 <= k < |s.stores| && s.stores[k].phases != [] ==> Share(s.log, k) == s.batches[k])
    && JobsOf(s.queue.taken) == Jobs(JobsOf(s.log))
    && forall r :: 0 <= r < |s.queue.workers| ==> Share(s.queue.finished, r) == Share(s.queue.taken, r)
  }

  lemma QuietDelivers<J>(s: System<J>)
    requires Good(s) && Quiet(s)
    ensures Delivered(s)
  {
    forall k | 0 <= k < |s.stores| && s.stores[k].phases != [] ensures Share(s.log, k) == s.batches[k] {
      W.WrittenInOrder(s.stores[k], s.batches[k]);
    }
  }

  /** For every number of batches, at any times, and every schedule: whenever neither a writer
      nor the queue nor a reader can move, everything that arrived has been delivered, and a
      queue that was closed is drained. */
  lemma BatchesDelivered<J(!new)>(cap: nat, readers: nat, ms: seq<Move<J>>)
    requires readers > 0 && Schedule(Start(cap, readers), ms)
    requires forall m :: Possible(Run(Start(cap, readers), ms), m) ==> m.Arrive? || m == Queue(Close)
    ensures Delivered(Run(Start(cap, readers), ms))
    ensures Run(Start(cap, readers), ms).queue.inClosed ==> Drained(Run(Start(cap, readers), ms).queue)
  {
    hide Possible, Next, Delivered, Good;
    StartGood<J>(cap, readers);
    RunGood(Start(cap, readers), ms);
    var s := Run(Start(cap, readers), ms);
    if !Quiet(s) {
      var m := Progress(s);
    }
    QuietDelivers(s);
  }
}
