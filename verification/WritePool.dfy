/**
 The write pool of redis.go under failover: writers load the pool pointer without the lock
 and set it to nil when a command fails; `resetDBWriteConection` rebuilds it under the lock.
 Any number of threads, any schedule; what the sentinel answers is an input.
 */
module WritePool {
  import opened Options

  const RETRIES := 120

  /** An answer that ends the search: a master other than the recorded one. */
  predicate Acceptable(ip: string, masterIP: string) { ip != "" && masterIP != ip }

  /** The first acceptable answer, or the last of all. */
  method RetryForMasterIP(answers: seq<string>, masterIP: string) returns (ip: string, used: nat)
    requires |answers| == 120
    ensures 1 <= used <= 120 && ip == answers[used - 1]
    ensures forall i :: 0 <= i < used - 1 ==> answers[i] == "" || answers[i] == masterIP
    ensures used < 120 ==> ip != "" && ip != masterIP
  {
    ip := "";
    used := 0;
    var i := 0;
    while i < RETRIES
      invariant 0 <= i <= RETRIES && used == i
      invariant i > 0 ==> ip == answers[i - 1]
      invariant forall j :: 0 <= j < i ==> answers[j] == "" || answers[j] == masterIP
    {
      ip := answers[i];
      used := i + 1;
      if ip != "" && masterIP != ip {
        break;
      }
      i := i + 1;
    }
  }

  datatype Thread =
    | Idle
    | Using(host: string)      // a writer with the pool it loaded
    | Failed(host: string)     // its command failed, the pointer is about to be set to nil
    | WantLock                 // a resetter that saw nil
    | Holding                  // owns Mux, about to look at the pointer again
    | Asking(tries: nat)       // in retryForMasterIP
    | Storing(ip: string)      // in getPool, about to store the new pool or to give up
    | Naming(ip: string)       // pool stored, MasterIP not yet
    | Releasing                // about to unlock

  datatype State = State(
    ha: bool,                  // RedisHAEnabled
    pool: Option<string>,      // the host of the pool, or nil
    masterIP: string,
    mux: Option<nat>,
    threads: seq<Thread>)

  datatype Event =
    | Load(t: nat) | Succeed(t: nat) | Fail(t: nat) | StoreNil(t: nat)
    | SeeNil(t: nat) | Acquire(t: nat) | Recheck(t: nat) | Ask(t: nat, answer: string)
    | NoPool(t: nat) | StorePool(t: nat) | StoreMaster(t: nat) | Release(t: nat)

  /** After `Connection`. */
  function Init(ha: bool, host: string, threads: nat): State {
    State(ha, Some(host), host, None, seq(threads, _ => Idle))
  }

  predicate Enabled(s: State, e: Event) {
    && e.t < |s.threads|
    && var th := s.threads[e.t];
       match e
       case Load(_) => th.Idle? && s.pool.Some?
       case Succeed(_) => th.Using?
       case Fail(_) => th.Using?
       case StoreNil(_) => th.Failed?
       case SeeNil(_) => th.Idle? && s.pool.None? && s.ha
       case Acquire(_) => th.WantLock? && s.mux.None?
       case Recheck(_) => th.Holding?
       case Ask(_, _) => th.Asking?
       case NoPool(_) => th.Storing?
       case StorePool(_) => th.Storing?
       case StoreMaster(_) => th.Naming?
       case Release(_) => th.Releasing?
  }

  /** Where the thread goes next. */
  function After(s: State, e: Event): Thread
    requires Enabled(s, e)
  {
    var th := s.threads[e.t];
    match e
    case Load(_) => Using(s.pool.value)
    case Succeed(_) => Idle
    case Fail(_) => Failed(th.host)
    case StoreNil(_) => Idle
    case SeeNil(_) => WantLock
    case Acquire(_) => Holding
    case Recheck(_) => if s.pool.Some? then Releasing else Asking(0)
    case Ask(_, ip) =>
      if Acceptable(ip, s.masterIP) then Storing(ip)
      else if th.tries + 1 < RETRIES then Asking(th.tries + 1)
      else if ip == "" then Releasing else Storing(ip)
    case NoPool(_) => Releasing
    case StorePool(_) => Naming(th.ip)
    case StoreMaster(_) => Releasing
    case Release(_) => Idle
  }

  function Step(s: State, e: Event): State
    requires Enabled(s, e)
  {
    var th := s.threads[e.t];
    var s1 := s.(threads := s.threads[e.t := After(s, e)]);
    match e
    case StoreNil(_) => s1.(pool := None)
    case Acquire(t) => s1.(mux := Some(t))
    case StorePool(_) => s1.(pool := Some(th.ip))
    case StoreMaster(_) => s1.(masterIP := th.ip)
    case Release(_) => s1.(mux := None)
    case _ => s1
  }

  /** A search goes on until the sentinel names another master; the last answer is taken as long
      as it names any. */
  lemma AskExact(s: State, t: nat, ip: string)
    requires Enabled(s, Ask(t, ip))
    ensures var tries := s.threads[t].tries;
            var after := Step(s, Ask(t, ip)).threads[t];
            && (ip != "" && ip != s.masterIP ==> after == Storing(ip))
            && (ip == "" || ip == s.masterIP ==>
                  if tries + 1 < 120 then after == Asking(tries + 1)
                  else if ip == "" then after == Releasing else after == Storing(ip))
  {
  }

  predicate Inside(th: Thread) { th.Holding? || th.Asking? || th.Storing? || th.Naming? || th.Releasing? }

  /** The mutex belongs to the thread inside. */
  ghost predicate Exclusive(s: State) {
    && (forall t :: 0 <= t < |s.threads| ==> (Inside(s.threads[t]) <==> s.mux == Some(t)))
    && (s.mux.Some? ==> s.mux.value < |s.threads|)
  }

  /** The pool is nil while a new one is looked for, and otherwise belongs to the master that is
      recorded or about to be. */
  ghost predicate PoolOk(s: State)
    requires Exclusive(s)
  {
    && (forall t :: 0 <= t < |s.threads| && (s.threads[t].Asking? || s.threads[t].Storing?) ==> s.pool.None?)
    && (forall t :: 0 <= t < |s.threads| && s.threads[t].Naming? ==> s.pool.None? || s.pool.value == s.threads[t].ip)
    && (s.pool.Some? && s.pool.value != s.masterIP ==> s.mux.Some? && s.threads[s.mux.value].Naming?)
  }

  ghost predicate Inv(s: State) { Exclusive(s) && PoolOk(s) }

  lemma StepExclusive(s: State, e: Event)
    requires Exclusive(s) && Enabled(s, e)
    ensures Exclusive(Step(s, e))
  {
  }

  lemma StepInv(s: State, e: Event)
    requires Inv(s) && Enabled(s, e)
    ensures Inv(Step(s, e))
  {
    StepExclusive(s, e);
  }

  /** No step replaces a live pool by another: it stays, or becomes nil. */
  lemma LivePoolNotReplaced(s: State, e: Event)
    requires Inv(s) && Enabled(s, e) && s.pool.Some?
    ensures Step(s, e).pool == s.pool || Step(s, e).pool.None?
  {
    assert s.threads[e.t].Storing? ==> s.pool.None?;
  }

  ghost predicate Schedule(s: State, es: seq<Event>)
    decreases |es|
  {
    es == [] || (Enabled(s, es[0]) && Schedule(Step(s, es[0]), es[1..]))
  }

  ghost function Run(s: State, es: seq<Event>): State
    requires Schedule(s, es)
    decreases |es|
  {
    if es == [] then s else Run(Step(s, es[0]), es[1..])
  }

  lemma {:induction false} RunInv(s: State, es: seq<Event>)
    requires Inv(s) && Schedule(s, es)
    ensures Inv(Run(s, es))
    decreases |es|
  {
    hide Inv, Enabled, Step;
    if es != [] {
      StepInv(s, es[0]);
      RunInv(Step(s, es[0]), es[1..]);
    }
  }

  /** For every interleaving: whenever the mutex is free, the pool is nil or belongs to
      `MasterIP`, and the next step of any thread never swaps one live pool for another. */
  lemma PoolFollowsMaster(ha: bool, host: string, n: nat, es: seq<Event>)
    requires Schedule(Init(ha, host, n), es)
    ensures var s := Run(Init(ha, host, n), es);
            && (s.mux.None? ==> s.pool.None? || s.pool.value == s.masterIP)
            && forall e :: Enabled(s, e) && s.pool.Some? ==> Step(s, e).pool == s.pool || Step(s, e).pool.None?
  {
    RunInv(Init(ha, host, n), es);
    var s := Run(Init(ha, host, n), es);
    forall e | Enabled(s, e) && s.pool.Some? ensures Step(s, e).pool == s.pool || Step(s, e).pool.None? {
      LivePoolNotReplaced(s, e);
    }
  }

  /** Without high availability nothing rebuilds the pool: one failed command ends all writing. */
  lemma {:induction false} NilForGoodWithoutHA(s: State, es: seq<Event>)
    requires !s.ha && s.pool.None? && (forall t :: 0 <= t < |s.threads| ==> s.threads[t].Idle? || s.threads[t].Using? || s.threads[t].Failed?)
    requires Schedule(s, es)
    ensures Run(s, es).pool.None?
    decreases |es|
  {
    if es != [] {
      NilForGoodWithoutHA(Step(s, es[0]), es[1..]);
    }
  }

  /** With high availability the rebuild is always possible: a resetter reaches a state in which
      the pool is live, whatever host the sentinel names, and changes nothing else. */
  lemma RebuildPossible(s: State, t: nat, ip: string) returns (es: seq<Event>)
    requires Inv(s) && s.ha && s.pool.None? && s.mux.None? && t < |s.threads| && s.threads[t].Idle? && ip != "" && ip != s.masterIP
    ensures Schedule(s, es)
    ensures Run(s, es) == s.(pool := Some(ip), masterIP := ip)
  {
    hide Inv;
    var s1 := Step(s, SeeNil(t));
    var s2 := Step(s1, Acquire(t));
    var s3 := Step(s2, Recheck(t));
    var s4 := Step(s3, Ask(t, ip));
    var s5 := Step(s4, StorePool(t));
    var s6 := Step(s5, StoreMaster(t));
    var s7 := Step(s6, Release(t));
    es := [SeeNil(t)] + ([Acquire(t)] + ([Recheck(t)] + ([Ask(t, ip)] + ([StorePool(t)] + ([StoreMaster(t)] + ([Release(t)] + []))))));
    assert s7.threads == s.threads;
    Cons(s6, Release(t), []);
    Cons(s5, StoreMaster(t), [Release(t)] + []);
    Cons(s4, StorePool(t), [StoreMaster(t)] + ([Release(t)] + []));
    Cons(s3, Ask(t, ip), [StorePool(t)] + ([StoreMaster(t)] + ([Release(t)] + [])));
    Cons(s2, Recheck(t), [Ask(t, ip)] + ([StorePool(t)] + ([StoreMaster(t)] + ([Release(t)] + []))));
    Cons(s1, Acquire(t), [Recheck(t)] + ([Ask(t, ip)] + ([StorePool(t)] + ([StoreMaster(t)] + ([Release(t)] + [])))));
    Cons(s, SeeNil(t), [Acquire(t)] + ([Recheck(t)] + ([Ask(t, ip)] + ([StorePool(t)] + ([StoreMaster(t)] + ([Release(t)] + []))))));
  }

  lemma Cons(s: State, e: Event, es: seq<Event>)
    requires Enabled(s, e) && Schedule(Step(s, e), es)
    ensures Schedule(s, [e] + es) && Run(s, [e] + es) == Run(Step(s, e), es)
  {
    assert ([e] + es)[1..] == es;
  }

  lemma {:induction false} RunThen(s: State, es: seq<Event>, fs: seq<Event>)
    requires Schedule(s, es) && Schedule(Run(s, es), fs)
    ensures Schedule(s, es + fs) && Run(s, es + fs) == Run(Run(s, es), fs)
    decreases |es|
  {
    hide Enabled, Step;
    if es == [] {
      assert es + fs == fs;
    } else {
      RunThen(Step(s, es[0]), es[1..], fs);
      assert (es + fs)[1..] == es[1..] + fs;
    }
  }

  /** Two writers fail on the same pool; the first sets it to nil and rebuilds it. */
  lemma TwoWritersFail(host: string, n: nat) returns (es: seq<Event>)
    requires n >= 2
    ensures Schedule(Init(true, host, n), es)
    ensures Run(Init(true, host, n), es) ==
              State(true, None, host, None, seq(n, _ => Idle)[0 := Failed(host)])
  {
    var s := Init(true, host, n);
    var s1 := Step(s, Load(0));
    var s2 := Step(s1, Load(1));
    var s3 := Step(s2, Fail(0));
    var s4 := Step(s3, Fail(1));
    var s5 := Step(s4, StoreNil(1));
    es := [Load(0)] + ([Load(1)] + ([Fail(0)] + ([Fail(1)] + ([StoreNil(1)] + []))));
    Cons(s4, StoreNil(1), []);
    Cons(s3, Fail(1), [StoreNil(1)] + []);
    Cons(s2, Fail(0), [Fail(1)] + ([StoreNil(1)] + []));
    Cons(s1, Load(1), [Fail(0)] + ([Fail(1)] + ([StoreNil(1)] + [])));
    Cons(s, Load(0), [Load(1)] + ([Fail(0)] + ([Fail(1)] + ([StoreNil(1)] + []))));
    assert s5.threads == seq(n, _ => Idle)[0 := Failed(host)];
  }

  /** With two threads a schedule leads to a rebuilt pool that a writer which failed on the old
      one then sets to nil, whatever the new master is. */
  lemma StaleWriterDropsNewPool(host: string, ip: string, n: nat) returns (es: seq<Event>)
    requires n >= 2 && ip != "" && ip != host
    ensures Schedule(Init(true, host, n), es)
    ensures var s := Run(Init(true, host, n), es);
            && |s.threads| == n && s.pool == Some(ip) && s.masterIP == ip && s.mux.None? && s.threads[0] == Failed(host)
            && Enabled(s, StoreNil(0)) && Step(s, StoreNil(0)).pool.None?
  {
    var fails := TwoWritersFail(host, n);
    var s := Run(Init(true, host, n), fails);
    RunInv(Init(true, host, n), fails);
    var rebuild := RebuildPossible(s, 1, ip);
    RunThen(Init(true, host, n), fails, rebuild);
    es := fails + rebuild;
  }

  /** Before any command has failed no thread is anywhere but at rest or at work on the pool. */
  ghost predicate Untroubled(s: State, host: string) {
    && s.pool == Some(host) && s.masterIP == host && s.mux.None?
    && forall t :: 0 <= t < |s.threads| ==> s.threads[t].Idle? || s.threads[t] == Using(host)
  }

  /** As long as no command fails, every schedule keeps the first pool. */
  lemma {:induction false} PoolStaysWithoutFailure(s: State, es: seq<Event>, host: string)
    requires Untroubled(s, host) && Schedule(s, es) && forall i :: 0 <= i < |es| ==> !es[i].Fail?
    ensures Untroubled(Run(s, es), host)
    decreases |es|
  {
    if es != [] {
      assert es[0].Load? || es[0].Succeed?;
      PoolStaysWithoutFailure(Step(s, es[0]), es[1..], host);
    }
  }

  /** While the mutex is held a writer may already work on a pool that `MasterIP` does not name
      yet: some schedule leads there, for every new master. */
  lemma PoolAheadOfMaster(host: string, ip: string, n: nat) returns (es: seq<Event>)
    requires n >= 3 && ip != "" && ip != host
    ensures Schedule(Init(true, host, n), es)
    ensures var s := Run(Init(true, host, n), es);
            |s.threads| == n && s.pool == Some(ip) && s.masterIP == host && s.mux == Some(1) && s.threads[2] == Using(ip)
  {
    var fails := TwoWritersFail(host, n);
    var s := Run(Init(true, host, n), fails);
    var s1 := Step(s, SeeNil(1));
    var s2 := Step(s1, Acquire(1));
    var s3 := Step(s2, Recheck(1));
    var s4 := Step(s3, Ask(1, ip));
    var s5 := Step(s4, StorePool(1));
    var e5 := [Load(2)] + [];
    var e4 := [StorePool(1)] + e5;
    var e3 := [Ask(1, ip)] + e4;
    var e2 := [Recheck(1)] + e3;
    var e1 := [Acquire(1)] + e2;
    Cons(s5, Load(2), []);
    Cons(s4, StorePool(1), e5);
    Cons(s3, Ask(1, ip), e4);
    Cons(s2, Recheck(1), e3);
    Cons(s1, Acquire(1), e2);
    Cons(s, SeeNil(1), e1);
    RunThen(Init(true, host, n), fails, [SeeNil(1)] + e1);
    es := fails + ([SeeNil(1)] + e1);
  }
}
