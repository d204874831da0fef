/**
 The write workers of lib-utilities/common/workerpool.go: any number of goroutines share one
 batch under a lock.  The worker that finds the batch empty signals `done` and returns
 without releasing the lock, so the others wait for it forever.
 */
module WriteWorkers {
  import opened JobQueue
  import opened Options

  datatype Phase<J> =
    | Idle                   // before store.lock.Lock()
    | Locked                 // holds the lock, about to look at the batch
    | Sending(x: Item<J>)    // holds the lock, `jobChannel <- data` pending
    | Sent                   // holds the lock, about to release it
    | Signalling             // holds the lock, `done <- true` pending
    | Returned               // has returned, still holding the lock

  datatype Store<J> = Store(
    batch: seq<Item<J>>,
    holder: Option<nat>,
    phases: seq<Phase<J>>,
    written: seq<Item<J>>,   // history: items accepted by jobChannel
    signals: nat)            // history: sends on done

  datatype Act = Lock(i: nat) | Look(i: nat) | Put(i: nat) | Unlock(i: nat) | Signal(i: nat)

  function Start<J>(batch: seq<Item<J>>, workerCount: nat): Store<J> {
    Store(batch, None, seq(workerCount, _ => Idle), [], 0)
  }

  predicate Can<J>(s: Store<J>, a: Act) {
    && a.i < |s.phases|
    && match a
       case Lock(i) => s.phases[i].Idle? && s.holder.None?
       case Look(i) => s.phases[i].Locked?
       case Put(i) => s.phases[i].Sending?
       case Unlock(i) => s.phases[i].Sent?
       case Signal(i) => s.phases[i].Signalling?
  }

  function Do<J>(s: Store<J>, a: Act): Store<J>
    requires Can(s, a)
  {
    match a
    case Lock(i) => s.(holder := Some(i), phases := s.phases[i := Locked])
    case Look(i) =>
      if s.batch == [] then s.(phases := s.phases[i := Signalling])
      else s.(batch := s.batch[1..], phases := s.phases[i := Sending(s.batch[0])])
    case Put(i) => s.(written := s.written + [s.phases[i].x], phases := s.phases[i := Sent])
    case Unlock(i) => s.(holder := None, phases := s.phases[i := Idle])
    case Signal(i) => s.(signals := s.signals + 1, phases := s.phases[i := Returned])
  }

  /** The item taken from the batch and not accepted yet. */
  function InHand<J>(s: Store<J>): seq<Item<J>> {
    if s.holder.Some? && s.holder.value < |s.phases| && s.phases[s.holder.value].Sending?
    then [s.phases[s.holder.value].x] else []
  }

  ghost predicate Inv<J>(s: Store<J>, all: seq<Item<J>>) {
    && (forall i :: 0 <= i < |s.phases| ==> s.phases[i].Idle? || s.holder == Some(i))
    && (s.holder.Some? ==> s.holder.value < |s.phases| && !s.phases[s.holder.value].Idle?)
    && all == s.written + InHand(s) + s.batch
    && s.signals == (if s.holder.Some? && s.phases[s.holder.value].Returned? then 1 else 0)
    && (s.holder.Some? && (s.phases[s.holder.value].Signalling? || s.phases[s.holder.value].Returned?) ==> s.batch == [])
  }

  lemma StartInv<J>(all: seq<Item<J>>, n: nat)
    ensures Inv(Start(all, n), all)
  {
  }

  lemma DoInv<J>(s: Store<J>, a: Act, all: seq<Item<J>>)
    requires Inv(s, all) && Can(s, a)
    ensures Inv(Do(s, a), all)
  {
    if a.Look? && s.batch != [] {
      assert s.batch == [s.batch[0]] + s.batch[1..];
    }
  }

  /** The batch is written in order, each item once; `done` is signalled at most once and only
      after the last item was accepted; from then on no worker can do anything. */
  lemma WrittenInOrder<J>(s: Store<J>, all: seq<Item<J>>)
    requires Inv(s, all)
    ensures s.written <= all && s.signals <= 1
    ensures s.signals == 1 ==> s.written == all && forall a :: !Can(s, a)
  {
    if s.signals == 1 {
      forall a ensures !Can(s, a) { }
    }
  }

  ghost predicate Schedule<J>(s: Store<J>, acts: seq<Act>)
    decreases |acts|
  {
    acts == [] || (Can(s, acts[0]) && Schedule(Do(s, acts[0]), acts[1..]))
  }

  ghost function Run<J>(s: Store<J>, acts: seq<Act>): Store<J>
    requires Schedule(s, acts)
    decreases |acts|
  {
    if acts == [] then s else Run(Do(s, acts[0]), acts[1..])
  }

  /** In every schedule of any number of workers: what is written is a beginning of the batch,
      and no schedule is longer than the work of the batch, so the workers come to a stop. */
  lemma {:induction false} EveryScheduleWrites<J>(s: Store<J>, acts: seq<Act>, all: seq<Item<J>>)
    requires Inv(s, all) && Schedule(s, acts)
    ensures Inv(Run(s, acts), all) && s.written <= Run(s, acts).written <= all
    ensures |acts| + Load(Run(s, acts)) <= Load(s)
    decreases |acts|
  {
    hide Inv, Load;
    WrittenInOrder(s, all);
    if acts != [] {
      DoInv(s, acts[0], all);
      DoWorks(s, acts[0]);
      EveryScheduleWrites(Do(s, acts[0]), acts[1..], all);
    }
  }

  /** With at least one worker, a schedule that cannot go on has written the whole batch, in
      order, and signalled `done` exactly once. */
  lemma StoppedMeansWritten<J>(all: seq<Item<J>>, workers: nat, acts: seq<Act>)
    requires workers > 0 && Schedule(Start(all, workers), acts)
    requires forall a :: !Can(Run(Start(all, workers), acts), a)
    ensures Run(Start(all, workers), acts).written == all && Run(Start(all, workers), acts).signals == 1
  {
    StartInv(all, workers);
    EveryScheduleWrites(Start(all, workers), acts, all);
    SizeKept(Start(all, workers), acts);
    var s := Run(Start(all, workers), acts);
    var i := if s.holder.Some? then s.holder.value else 0;
    assert !Can(s, Lock(i)) && !Can(s, Look(i)) && !Can(s, Put(i)) && !Can(s, Unlock(i)) && !Can(s, Signal(i));
  }

  lemma {:induction false} SizeKept<J>(s: Store<J>, acts: seq<Act>)
    requires Schedule(s, acts)
    ensures |Run(s, acts).phases| == |s.phases|
    decreases |acts|
  {
    if acts != [] { SizeKept(Do(s, acts[0]), acts[1..]); }
  }

  function PhaseLoad<J>(p: Phase<J>): nat {
    match p
    case Idle => 3
    case Locked => 2
    case Sending(_) => 9
    case Sent => 4
    case Signalling => 1
    case Returned => 0
  }

  /** Work left for the writers; a `Put` releases five units, one more than the queue gains. */
  function Load<J>(s: Store<J>): nat { 8 * |s.batch| + Total(s.phases, PhaseLoad) }

  lemma DoWorks<J>(s: Store<J>, a: Act)
    requires Can(s, a)
    ensures Load(Do(s, a)) < Load(s)
    ensures a.Put? ==> Load(Do(s, a)) + 5 == Load(s)
  {
    TotalUpdate(s.phases, a.i, Do(s, a).phases[a.i], PhaseLoad);
  }
}
