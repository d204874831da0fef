/**
 The life of a device's data collector: registration (`SendDeviceList`), frequency changes
 (`setFrequency`), deletion (`DeleteDeviceList`) and the `collectData` goroutine, for any
 number of addresses and any schedule, with one call in flight for each address.

 `Freqchan`, `quit` and `getdataend` are unbuffered: a send and its receive are one event.
 The registration check lets a call through when its address is a beginning of a registered one.
 Without an entry of its own, a call with a user or a token is refused later, and an anonymous
 call that passes the checks the device answers dereferences nil: the process ends.
 */
module Collector {
  import opened Options

  datatype Ticker = Stopped | Every(seconds: nat)

  /** The ticker that stands for a frequency; 0 means a ticker that was stopped at once. */
  function TickerOf(freq: nat): Ticker { if freq == 0 then Stopped else Every(freq) }

  /** A device record; `runner` remembers the goroutine started for it. */
  datatype Device = Device(addr: string, freq: nat, getdata: Option<Ticker>, runner: Option<nat>)

  datatype Place =
    | Starting            // about to read channels and ticker from the map entry
    | Selecting           // at the select statement
    | Retiming(freq: nat) // has received a frequency
    | Collecting          // handles a tick
    | Quitting            // has received from quit, about to send on getdataend
    | Ended

  datatype Goroutine = Goroutine(addr: string, dev: nat, ticker: Ticker, place: Place)

  datatype Call =
    | Inserted             // SendDeviceList: map entry made
    | Ticking              // SendDeviceList: getdata set
    | FreqWaiting(f: nat)  // setFrequency: about to send on Freqchan
    | FreqSent(f: nat)     // setFrequency: about to set Freq
    | QuitWaiting          // DeleteDeviceList: about to send on quit
    | EndWaiting           // DeleteDeviceList: about to receive from getdataend
    | Removing             // DeleteDeviceList: about to delete the map entry

  datatype State = State(
    devs: seq<Device>,
    devicemap: map<string, nat>,
    runs: seq<Goroutine>,
    calls: map<string, Call>,
    crashed: bool)         // a nil entry was dereferenced

  const START := State([], map[], [], map[], false)

  datatype Event =
    | Register(a: string, f: nat) | SetTicker(a: string) | Spawn(a: string)
    | SetFrequency(a: string, f: nat, auth: string, passed: bool) | SendFreq(a: string) | WriteFreq(a: string)
    | Delete(a: string, auth: string, passed: bool) | SendQuit(a: string) | TakeEnd(a: string) | Remove(a: string)
    | Begin(i: nat) | Retime(i: nat) | Tick(i: nat) | TickDone(i: nat)

  // `auth` is the user or token of the caller; `passed` tells that the address, the user, the
  // session and the privilege checks found nothing wrong in what the device answered.

  /** `vlidateDeviceRegistered`: some registered address starts with the text. */
  predicate PassesRegistered(s: State, a: string) { exists b :: b in s.devicemap && a <= b }

  /** The remaining checks: for an address without an entry no user is found, but a call without
      user and token is taken for one that needs no authentication. */
  predicate Admitted(s: State, a: string, auth: string, passed: bool) { passed && (a in s.devicemap || auth == "") }

  function DevOf(s: State, a: string): (d: Device)
    requires a in s.devicemap && s.devicemap[a] < |s.devs|
  {
    s.devs[s.devicemap[a]]
  }

  /** The goroutine of a registered device stands at `p`. */
  predicate RunnerAt(s: State, a: string, p: Place) {
    && a in s.devicemap && s.devicemap[a] < |s.devs|
    && DevOf(s, a).runner.Some? && DevOf(s, a).runner.value < |s.runs|
    && s.runs[DevOf(s, a).runner.value].place == p
  }

  predicate InCall(s: State, a: string, c: Call) { a in s.calls && s.calls[a] == c && a in s.devicemap && s.devicemap[a] < |s.devs| }

  predicate At(s: State, i: nat, p: Place) { i < |s.runs| && s.runs[i].place == p }

  predicate Enabled(s: State, e: Event) { !s.crashed && Ready(s, e) }

  predicate Ready(s: State, e: Event) {
    match e
    case Register(a, f) => a !in s.calls && a != "" && !PassesRegistered(s, a)
    case SetTicker(a) => InCall(s, a, Inserted)
    case Spawn(a) => InCall(s, a, Ticking)
    case SetFrequency(a, f, _, _) => a !in s.calls && a != "" && PassesRegistered(s, a) && f >= 1
    case SendFreq(a) => a in s.calls && s.calls[a].FreqWaiting? && RunnerAt(s, a, Selecting)
    case WriteFreq(a) => a in s.calls && s.calls[a].FreqSent? && a in s.devicemap && s.devicemap[a] < |s.devs|
    case Delete(a, _, _) => a !in s.calls && a != "" && PassesRegistered(s, a)
    case SendQuit(a) => InCall(s, a, QuitWaiting) && RunnerAt(s, a, Selecting)
    case TakeEnd(a) => InCall(s, a, EndWaiting) && RunnerAt(s, a, Quitting)
    case Remove(a) => InCall(s, a, Removing)
    case Begin(i) => At(s, i, Starting) && HasEntry(s, i) && s.devs[s.devicemap[s.runs[i].addr]].getdata.Some?
    case Retime(i) => i < |s.runs| && s.runs[i].place.Retiming? && HasEntry(s, i)
    case Tick(i) => At(s, i, Selecting) && s.runs[i].ticker.Every?
    case TickDone(i) => At(s, i, Collecting) && HasEntry(s, i)
  }

  /** The map lookup of a goroutine succeeds. */
  predicate HasEntry(s: State, i: nat)
    requires i < |s.runs|
  {
    s.runs[i].addr in s.devicemap && s.devicemap[s.runs[i].addr] < |s.devs|
  }

  function Put(s: State, a: string, d: Device): seq<Device>
    requires a in s.devicemap && s.devicemap[a] < |s.devs|
  {
    s.devs[s.devicemap[a] := d]
  }

  function Goto(s: State, i: nat, p: Place): seq<Goroutine>
    requires i < |s.runs|
  {
    s.runs[i := s.runs[i].(place := p)]
  }

  function Step(s: State, e: Event): State
    requires Enabled(s, e)
  {
    match e
    case Register(a, f) =>
      s.(devs := s.devs + [Device(a, f, None, None)], devicemap := s.devicemap[a := |s.devs|], calls := s.calls[a := Inserted])
    case SetTicker(a) =>
      s.(devs := Put(s, a, DevOf(s, a).(getdata := Some(TickerOf(DevOf(s, a).freq)))), calls := s.calls[a := Ticking])
    case Spawn(a) =>
      s.(devs := Put(s, a, DevOf(s, a).(runner := Some(|s.runs|))),
         runs := s.runs + [Goroutine(a, s.devicemap[a], Stopped, Starting)], calls := s.calls - {a})
    case SetFrequency(a, f, auth, passed) =>
      if !Admitted(s, a, auth, passed) then s
      else if a in s.devicemap then s.(calls := s.calls[a := FreqWaiting(f)])
      else s.(crashed := true)
    case SendFreq(a) =>
      s.(runs := Goto(s, DevOf(s, a).runner.value, Retiming(s.calls[a].f)), calls := s.calls[a := FreqSent(s.calls[a].f)])
    case WriteFreq(a) =>
      s.(devs := Put(s, a, DevOf(s, a).(freq := s.calls[a].f)), calls := s.calls - {a})
    case Delete(a, auth, passed) =>
      if !Admitted(s, a, auth, passed) then s
      else if a in s.devicemap then s.(calls := s.calls[a := QuitWaiting])
      else s.(crashed := true)
    case SendQuit(a) =>
      s.(runs := Goto(s, DevOf(s, a).runner.value, Quitting), calls := s.calls[a := EndWaiting])
    case TakeEnd(a) =>
      s.(runs := Goto(s, DevOf(s, a).runner.value, Ended), calls := s.calls[a := Removing])
    case Remove(a) => s.(devicemap := s.devicemap - {a}, calls := s.calls - {a})
    case Begin(i) =>
      s.(runs := s.runs[i := s.runs[i].(place := Selecting, ticker := DevOf(s, s.runs[i].addr).getdata.value)])
    case Retime(i) =>
      var t := TickerOf(s.runs[i].place.freq);
      s.(runs := s.runs[i := s.runs[i].(place := Selecting, ticker := t)],
         devs := Put(s, s.runs[i].addr, DevOf(s, s.runs[i].addr).(getdata := Some(t))))
    case Tick(i) => s.(runs := Goto(s, i, Collecting))
    case TickDone(i) => s.(runs := Goto(s, i, Selecting))
  }

  // ---------------------------------------------------------------- the invariant

  /** The frequency a device is heading for: the one already handed to the goroutine, or `Freq`. */
  function Target(s: State, a: string): nat
    requires a in s.devicemap && s.devicemap[a] < |s.devs|
  {
    if a in s.calls && s.calls[a].FreqSent? then s.calls[a].f else DevOf(s, a).freq
  }

  /** A goroutine that has not ended finds its own device under its address, and its ticker is
      the one for the target frequency, or it holds that frequency. */
  ghost predicate RunOk(s: State, i: nat)
    requires i < |s.runs|
  {
    var g := s.runs[i];
    && g.dev < |s.devs| && s.devs[g.dev].runner == Some(i) && s.devs[g.dev].addr == g.addr
    && (!g.place.Ended? ==> g.addr in s.devicemap && s.devicemap[g.addr] == g.dev && TickerOk(s, g))
  }

  ghost predicate TickerOk(s: State, g: Goroutine)
    requires g.addr in s.devicemap && s.devicemap[g.addr] < |s.devs|
  {
    match g.place
    case Starting => DevOf(s, g.addr).getdata == Some(TickerOf(Target(s, g.addr)))
    case Selecting => g.ticker == TickerOf(Target(s, g.addr))
    case Collecting => g.ticker == TickerOf(Target(s, g.addr))
    case Retiming(f) => f == Target(s, g.addr)
    case Quitting => true
    case Ended => true
  }

  /** A registered device has a goroutine once its registration is over, live until its
      deletion has heard from it. */
  ghost predicate EntryOk(s: State, a: string)
    requires a in s.devicemap
  {
    && s.devicemap[a] < |s.devs| && DevOf(s, a).addr == a
    && var d := DevOf(s, a);
       var c := if a in s.calls then Some(s.calls[a]) else None;
       if c == Some(Inserted) then d.runner.None?
       else if c == Some(Ticking) then d.runner.None? && d.getdata == Some(TickerOf(d.freq))
       else
         && d.runner.Some? && d.runner.value < |s.runs| && s.runs[d.runner.value].dev == s.devicemap[a]
         && (s.runs[d.runner.value].place.Ended? <==> c == Some(Removing))
         && (s.runs[d.runner.value].place.Quitting? <==> c == Some(EndWaiting))
  }

  ghost predicate Inv(s: State) {
    && (forall i :: 0 <= i < |s.runs| ==> RunOk(s, i))
    && (forall a :: a in s.devicemap ==> EntryOk(s, a))
    && CallsOk(s)
  }

  ghost predicate CallOk(c: Call) { (c.FreqWaiting? || c.FreqSent?) ==> c.f >= 1 }

  /** The call is refused or dereferences a nil entry. */
  predicate Fails(s: State, e: Event) { (e.SetFrequency? || e.Delete?) && !(e.passed && e.a in s.devicemap) }

  /** The event of a call on an address; the others are steps of a goroutine. */
  predicate OfCall(e: Event) { !e.Begin? && !e.Retime? && !e.Tick? && !e.TickDone? }

  lemma RunAfterCall(s: State, e: Event, i: nat)
    requires Enabled(s, e) && OfCall(e) && i < |Step(s, e).runs|
    requires i < |s.runs| ==> RunOk(s, i)
    requires !e.Register? ==> e.a in s.devicemap && EntryOk(s, e.a)
    ensures RunOk(Step(s, e), i)
  {
    if e.Register? { assert e.a !in s.devicemap; }
  }

  lemma RunAfterRun(s: State, e: Event, i: nat)
    requires Enabled(s, e) && !OfCall(e) && i < |s.runs|
    requires RunOk(s, i) && RunOk(s, e.i)
    ensures |Step(s, e).runs| == |s.runs| && RunOk(Step(s, e), i)
  {
  }

  lemma EntryAfterCall(s: State, e: Event, a: string)
    requires Enabled(s, e) && OfCall(e) && a in Step(s, e).devicemap
    requires a in s.devicemap ==> EntryOk(s, a)
    requires !e.Register? ==> e.a in s.devicemap && EntryOk(s, e.a)
    requires RunnersTell(s, a)
    ensures EntryOk(Step(s, e), a)
  {
    if e.a == a {
      OwnEntryAfterCall(s, e);
    } else {
      OtherEntryAfterCall(s, e, a);
    }
  }

  lemma OwnEntryAfterCall(s: State, e: Event)
    requires Enabled(s, e) && OfCall(e) && e.a in Step(s, e).devicemap
    requires !e.Register? ==> e.a in s.devicemap && EntryOk(s, e.a)
    ensures EntryOk(Step(s, e), e.a)
  {
    hide PassesRegistered;
  }

  lemma OtherEntryAfterCall(s: State, e: Event, a: string)
    requires Enabled(s, e) && OfCall(e) && a in Step(s, e).devicemap && e.a != a
    requires a in s.devicemap ==> EntryOk(s, a)
    requires !e.Register? ==> e.a in s.devicemap && EntryOk(s, e.a)
    requires RunnersTell(s, a)
    ensures EntryOk(Step(s, e), a)
  {
    hide PassesRegistered;
  }

  lemma EntryAfterRun(s: State, e: Event, a: string)
    requires Enabled(s, e) && !OfCall(e) && a in s.devicemap && EntryOk(s, a)
    requires RunOk(s, e.i) && RunnersTell(s, a)
    ensures a in Step(s, e).devicemap && EntryOk(Step(s, e), a)
  {
  }

  /** The goroutine of an entry leads back to it. */
  ghost predicate RunnersTell(s: State, a: string) {
    a in s.devicemap && s.devicemap[a] < |s.devs| && DevOf(s, a).runner.Some? && DevOf(s, a).runner.value < |s.runs| ==>
      RunOk(s, DevOf(s, a).runner.value)
  }

  ghost predicate CallsOk(s: State) { forall a :: a in s.calls ==> a in s.devicemap && CallOk(s.calls[a]) }

  lemma StepCalls(s: State, e: Event)
    requires CallsOk(s) && Enabled(s, e)
    ensures CallsOk(Step(s, e))
    ensures OfCall(e) && !e.Register? && !Fails(s, e) ==> e.a in s.devicemap
    ensures !OfCall(e) ==> e.i < |s.runs| && |Step(s, e).runs| == |s.runs| && Step(s, e).devicemap == s.devicemap
  {
    hide PassesRegistered;
  }

  lemma StepInv(s: State, e: Event)
    requires Inv(s) && Enabled(s, e)
    ensures Inv(Step(s, e))
  {
    hide RunOk, EntryOk, Enabled, Step, CallsOk;
    var s' := Step(s, e);
    StepCalls(s, e);
    if Fails(s, e) {
      FailKeeps(s, e);
    } else if OfCall(e) {
      assert !e.Register? ==> EntryOk(s, e.a);
      forall i | 0 <= i < |s'.runs| ensures RunOk(s', i) { RunAfterCall(s, e, i); }
      forall a | a in s'.devicemap ensures EntryOk(s', a) { EntryAfterCall(s, e, a); }
    } else {
      assert RunOk(s, e.i);
      forall i | 0 <= i < |s'.runs| ensures RunOk(s', i) { RunAfterRun(s, e, i); }
      forall a | a in s'.devicemap ensures EntryOk(s', a) { EntryAfterRun(s, e, a); }
    }
  }

  /** Refusal leaves the state as it is, and so does the end of the process. */
  lemma FailKeeps(s: State, e: Event)
    requires Inv(s) && Enabled(s, e) && Fails(s, e)
    ensures Step(s, e) == s.(crashed := e.passed && e.auth == "") && Inv(Step(s, e))
  {
    hide EntryOk, RunOk, CallsOk, PassesRegistered;
    var s' := Step(s, e);
    forall i | 0 <= i < |s'.runs| ensures RunOk(s', i) { assert RunOk(s, i); SameRun(s, s', i); }
    forall a | a in s'.devicemap ensures EntryOk(s', a) { assert EntryOk(s, a); SameEntry(s, s', a); }
    SameCalls(s, s');
  }

  lemma SameRun(s: State, t: State, i: nat)
    requires t == s.(crashed := t.crashed) && i < |s.runs| && RunOk(s, i)
    ensures RunOk(t, i)
  {
  }

  lemma SameEntry(s: State, t: State, a: string)
    requires t == s.(crashed := t.crashed) && a in s.devicemap && EntryOk(s, a)
    ensures EntryOk(t, a)
  {
  }

  lemma SameCalls(s: State, t: State)
    requires t == s.(crashed := t.crashed) && CallsOk(s)
    ensures CallsOk(t)
  {
  }

  // ---------------------------------------------------------------- every schedule

  ghost predicate Schedule(s: State, es: seq<Event>)
    decreases |es|
  {
    es == [] || (Enabled(s, es[0]) && Schedule(Step(s, es[0]), es[1..]))
  }

  ghost function Run(s: State, es: seq<Event>): State
    requires Schedule(s, es)
    decreases |es|
  {
    if es == [] then s else Run(Step(s, es[0]), es[1..])
  }

  lemma {:induction false} RunInv(s: State, es: seq<Event>)
    requires Inv(s) && Schedule(s, es)
    ensures Inv(Run(s, es))
    decreases |es|
  {
    hide Inv, Enabled, Step;
    if es != [] {
      StepInv(s, es[0]);
      RunInv(Step(s, es[0]), es[1..]);
    }
  }

  ghost predicate Live(s: State, i: int, a: string) {
    0 <= i < |s.runs| && s.runs[i].addr == a && !s.runs[i].place.Ended?
  }

  predicate BeingRegistered(s: State, a: string) { a in s.calls && (s.calls[a].Inserted? || s.calls[a].Ticking?) }
  predicate BeingRemoved(s: State, a: string) { a in s.calls && s.calls[a].Removing? }

  /** No address ever has two live collectors, and a registered one, outside the first and the
      last moments of its life, has exactly one. */
  lemma OneCollectorEach(es: seq<Event>, a: string)
    requires Schedule(START, es)
    ensures var s := Run(START, es);
            && (forall i, j :: Live(s, i, a) && Live(s, j, a) ==> i == j)
            && ((exists i :: Live(s, i, a)) <==> a in s.devicemap && !BeingRegistered(s, a) && !BeingRemoved(s, a))
  {
    RunInv(START, es);
    var s := Run(START, es);
    forall i | Live(s, i, a) ensures a in s.devicemap && DevOf(s, a).runner == Some(i) && !BeingRegistered(s, a) && !BeingRemoved(s, a) {
      assert RunOk(s, i) && EntryOk(s, a);
    }
    if a in s.devicemap && !BeingRegistered(s, a) && !BeingRemoved(s, a) {
      assert EntryOk(s, a);
      var i := DevOf(s, a).runner.value;
      assert RunOk(s, i);
      assert Live(s, i, a);
    }
  }

  /** Every lookup a collector makes in the map finds its own device, in every schedule: the
      entry is removed only after its last access. */
  lemma LookupsSucceed(es: seq<Event>, i: nat)
    requires Schedule(START, es) && i < |Run(START, es).runs| && !Run(START, es).runs[i].place.Ended?
    ensures var s := Run(START, es);
            s.runs[i].addr in s.devicemap && s.devicemap[s.runs[i].addr] == s.runs[i].dev < |s.devs|
  {
    RunInv(START, es);
    assert RunOk(Run(START, es), i);
  }

  /** A collector at its select has the ticker for `Freq`, stopped for 0, unless `setFrequency`
      has handed it a new value and not stored that yet. */
  lemma TickerFollowsFreq(es: seq<Event>, i: nat)
    requires Schedule(START, es) && At(Run(START, es), i, Selecting)
    ensures var s := Run(START, es);
            var a := s.runs[i].addr;
            && a in s.devicemap && s.devicemap[a] < |s.devs|
            && var f := if a in s.calls && s.calls[a].FreqSent? then s.calls[a].f else DevOf(s, a).freq;
               && (f == 0 ==> s.runs[i].ticker.Stopped?)
               && (f > 0 ==> s.runs[i].ticker.Every? && s.runs[i].ticker.seconds == f)
  {
    RunInv(START, es);
    assert RunOk(Run(START, es), i);
  }

  /** A collector at its select can collect exactly when its frequency is not 0. */
  lemma CollectsWhenAsked(es: seq<Event>, i: nat)
    requires Schedule(START, es) && At(Run(START, es), i, Selecting) && !Run(START, es).crashed
    ensures var s := Run(START, es);
            var a := s.runs[i].addr;
            && a in s.devicemap && s.devicemap[a] < |s.devs|
            && (Enabled(s, Tick(i)) <==> (if a in s.calls && s.calls[a].FreqSent? then s.calls[a].f else DevOf(s, a).freq) > 0)
  {
    TickerFollowsFreq(es, i);
  }

  /** The frequency a device has or is about to get. */
  function Wanted(s: State, a: string): nat
    requires a in s.devicemap && s.devicemap[a] < |s.devs|
  {
    if a in s.calls && (s.calls[a].FreqWaiting? || s.calls[a].FreqSent?) then s.calls[a].f else DevOf(s, a).freq
  }

  /** The frequency last asked for: by the registration, or by a call that passed its checks. */
  function Asked(es: seq<Event>, a: string): nat {
    if es == [] then 0
    else
      var e := es[|es| - 1];
      if e.Register? && e.a == a then e.f
      else if e.SetFrequency? && e.a == a && e.passed then e.f
      else Asked(es[..|es| - 1], a)
  }

  /** What one event does to the wanted frequency of a device that is registered afterwards. */
  ghost predicate WantedStep(s: State, e: Event, t: State, a: string)
    requires a in t.devicemap
  {
    && t.devicemap[a] < |t.devs|
    && if e.Register? && e.a == a then Wanted(t, a) == e.f
       else
         && a in s.devicemap && s.devicemap[a] < |s.devs|
         && Wanted(t, a) == if e.SetFrequency? && e.a == a && e.passed then e.f else Wanted(s, a)
  }

  lemma WantedOwn(s: State, e: Event)
    requires Enabled(s, e) && OfCall(e) && e.a in Step(s, e).devicemap
    requires e.a in s.devicemap ==> EntryOk(s, e.a)
    ensures WantedStep(s, e, Step(s, e), e.a)
  {
    hide PassesRegistered, TickerOf;
  }

  lemma WantedOther(s: State, e: Event, a: string)
    requires Enabled(s, e) && OfCall(e) && e.a != a && a in s.devicemap && EntryOk(s, a)
    requires e.a in s.devicemap ==> EntryOk(s, e.a)
    ensures a in Step(s, e).devicemap && WantedStep(s, e, Step(s, e), a)
  {
    hide PassesRegistered, TickerOf;
  }

  lemma WantedRun(s: State, e: Event, a: string)
    requires Enabled(s, e) && !OfCall(e) && a in s.devicemap && EntryOk(s, a)
    ensures a in Step(s, e).devicemap && WantedStep(s, e, Step(s, e), a)
  {
    hide PassesRegistered, TickerOf;
  }

  lemma StepWanted(s: State, e: Event, a: string)
    requires Inv(s) && Enabled(s, e) && a in Step(s, e).devicemap
    ensures WantedStep(s, e, Step(s, e), a)
  {
    hide EntryOk, RunOk, CallsOk, Enabled, Step, WantedStep;
    StepKeepsMap(s, e, a);
    if !OfCall(e) {
      WantedRun(s, e, a);
    } else if e.a == a {
      WantedOwn(s, e);
    } else {
      WantedOther(s, e, a);
    }
  }

  /** Over every schedule a device has the frequency last asked for, or a call in flight is
      bringing it. */
  lemma {:induction false} FrequencyAsAsked(es: seq<Event>, a: string)
    requires Schedule(START, es) && a in Run(START, es).devicemap
    ensures var s := Run(START, es); s.devicemap[a] < |s.devs| && Wanted(s, a) == Asked(es, a)
    decreases |es|
  {
    assert Inv(START);
    hide Step, Enabled, Inv, Wanted;
    if es != [] {
      var before, e := es[..|es| - 1], es[|es| - 1];
      RunLast(START, es);
      RunInv(START, before);
      var s := Run(START, before);
      StepWanted(s, e, a);
      if a in s.devicemap {
        FrequencyAsAsked(before, a);
      }
    }
  }

  lemma StepKeepsMap(s: State, e: Event, a: string)
    requires Enabled(s, e) && a in Step(s, e).devicemap
    ensures a in s.devicemap || (e.Register? && e.a == a)
  {
  }

  // ---------------------------------------------------------------- the registration check

  /** An anonymous call that passes the checks the device answers and names a proper beginning of
      a registered address, which is not registered itself. */
  predicate NamesBeginning(s: State, e: Event) {
    && (e.SetFrequency? || e.Delete?) && e.auth == "" && e.passed
    && e.a !in s.devicemap && exists b :: b in s.devicemap && e.a < b
  }

  lemma StepCrash(s: State, e: Event)
    requires Enabled(s, e)
    ensures Step(s, e).crashed <==> NamesBeginning(s, e)
  {
    if Fails(s, e) && e.a !in s.devicemap {
      var b :| b in s.devicemap && e.a <= b;
      assert e.a != b;
    }
  }

  lemma {:induction false} RunLast(s: State, es: seq<Event>)
    requires es != [] && Schedule(s, es)
    ensures Schedule(s, es[..|es| - 1]) && Enabled(Run(s, es[..|es| - 1]), es[|es| - 1])
    ensures Run(s, es) == Step(Run(s, es[..|es| - 1]), es[|es| - 1])
    decreases |es|
  {
    hide Enabled, Step;
    if |es| > 1 {
      RunLast(Step(s, es[0]), es[1..]);
      assert es[1..][..|es| - 2] == es[..|es| - 1][1..];
    }
  }

  /** The i-th event of a schedule is such a call. */
  ghost predicate CallAt(es: seq<Event>, i: nat)
    requires i < |es|
  {
    Schedule(START, es[..i]) && NamesBeginning(Run(START, es[..i]), es[i])
  }

  /** A schedule ends the process if and only if it holds an anonymous call that names a proper
      beginning of a registered address and passes the checks the device answers; no event
      follows that call. */
  lemma RegisteredCheckByPrefix(es: seq<Event>)
    requires Schedule(START, es)
    ensures Run(START, es).crashed <==> exists i :: 0 <= i < |es| && CallAt(es, i)
    ensures forall i :: 0 <= i < |es| && CallAt(es, i) ==> i == |es| - 1
  {
    hide CallAt;
    forall i | 0 <= i < |es| && CallAt(es, i)
      ensures i == |es| - 1
    {
      CallEnds(es, i);
    }
    if es != [] {
      CallEnds(es, |es| - 1);
    }
  }

  lemma CallEnds(es: seq<Event>, i: nat)
    requires Schedule(START, es) && i < |es|
    ensures i < |es| - 1 ==> !CallAt(es, i)
    ensures i == |es| - 1 ==> (CallAt(es, i) <==> Run(START, es).crashed)
  {
    hide Step, NamesBeginning, Ready, Run;
    var upto := es[..i + 1];
    RunPrefix(START, es, i + 1);
    RunLast(START, upto);
    assert upto[..i] == es[..i] && upto[i] == es[i];
    StepCrash(Run(START, es[..i]), es[i]);
    if i < |es| - 1 {
      var more := es[..i + 2];
      RunPrefix(START, es, i + 2);
      RunLast(START, more);
      assert more[..i + 1] == upto;
    } else {
      assert upto == es;
    }
  }

  lemma {:induction false} RunPrefix(s: State, es: seq<Event>, i: nat)
    requires Schedule(s, es) && i <= |es|
    ensures Schedule(s, es[..i])
    decreases |es|
  {
    hide Enabled, Step;
    if i > 0 {
      RunPrefix(Step(s, es[0]), es[1..], i - 1);
      assert es[1..][..i - 1] == es[..i][1..];
    }
  }

  /** Each proper beginning of each address gives rise to such a call once the address is
      registered. */
  lemma PrefixCallCrashes(b: string, a: string, f: nat) returns (es: seq<Event>)
    requires a != "" && a < b && f >= 1
    ensures Schedule(START, es) && Run(START, es).crashed
  {
    var s1 := Step(START, Register(b, 0));
    var s2 := Step(s1, SetFrequency(a, f, "", true));
    assert s1.devicemap == map[b := 0];
    Cons(s1, SetFrequency(a, f, "", true), []);
    Cons(START, Register(b, 0), [SetFrequency(a, f, "", true)] + []);
    es := [Register(b, 0)] + ([SetFrequency(a, f, "", true)] + []);
  }

  /** A call with a user or a token never ends the process, whatever it names. */
  lemma NamedCallSafe(s: State, e: Event)
    requires Enabled(s, e) && (e.SetFrequency? || e.Delete?) && e.auth != ""
    ensures !Step(s, e).crashed && (e.a !in s.devicemap ==> Step(s, e) == s)
  {
  }

  lemma Cons(s: State, e: Event, es: seq<Event>)
    requires Enabled(s, e) && Schedule(Step(s, e), es)
    ensures Schedule(s, [e] + es) && Run(s, [e] + es) == Run(Step(s, e), es)
  {
    assert ([e] + es)[1..] == es;
  }

  // ---------------------------------------------------------------- calls in flight

  /** The event is a step of the call on the address or of a collector of the address. */
  predicate Concerns(s: State, e: Event, a: string) {
    if OfCall(e) then e.a == a else e.i < |s.runs| && s.runs[e.i].addr == a
  }

  /** Steps of the call and of its collector until the call returns. */
  function Rank(s: State, a: string): nat
    requires a in s.calls
  {
    match s.calls[a]
    case Inserted => 2
    case Ticking => 1
    case FreqSent(_) => 1
    case Removing => 1
    case EndWaiting => 2
    case FreqWaiting(_) => 2 + Away(s, a)
    case QuitWaiting => 3 + Away(s, a)
  }

  function Away(s: State, a: string): nat { if RunnerAt(s, a, Selecting) then 0 else 1 }

  /** A call in flight is never stuck: its own next step or one of the collector it waits for
      is possible, and brings the call closer to its return. */
  lemma CallsGoOn(es: seq<Event>, a: string) returns (e: Event)
    requires Schedule(START, es) && a in Run(START, es).calls && !Run(START, es).crashed
    ensures var s := Run(START, es);
            Enabled(s, e) && Concerns(s, e, a) && (a in Step(s, e).calls ==> Rank(Step(s, e), a) < Rank(s, a))
  {
    hide Enabled, RunOk, EntryOk, Step, Concerns, Rank;
    RunInv(START, es);
    var s := Run(START, es);
    assert EntryOk(s, a);
    if s.calls[a].FreqWaiting? || s.calls[a].QuitWaiting? {
      e := CollectorGoesOn(s, a);
    } else {
      e := CallGoesOn(s, a);
    }
  }

  lemma CallGoesOn(s: State, a: string) returns (e: Event)
    requires !s.crashed && a in s.calls && a in s.devicemap && EntryOk(s, a)
    requires !s.calls[a].FreqWaiting? && !s.calls[a].QuitWaiting?
    ensures Enabled(s, e) && Concerns(s, e, a)
    ensures a in Step(s, e).calls ==> Rank(Step(s, e), a) < Rank(s, a)
  {
    var c := s.calls[a];
    e := if c.Inserted? then SetTicker(a) else if c.Ticking? then Spawn(a) else if c.FreqSent? then WriteFreq(a)
         else if c.Removing? then Remove(a) else TakeEnd(a);
  }

  lemma CollectorGoesOn(s: State, a: string) returns (e: Event)
    requires !s.crashed && Inv(s) && a in s.calls && a in s.devicemap && EntryOk(s, a)
    requires s.calls[a].FreqWaiting? || s.calls[a].QuitWaiting?
    ensures Enabled(s, e) && Concerns(s, e, a)
    ensures a in Step(s, e).calls ==> Rank(Step(s, e), a) < Rank(s, a)
  {
    var i := DevOf(s, a).runner.value;
    assert RunOk(s, i);
    hide Inv, EntryOk, RunOk, TickerOf, PassesRegistered;
    if s.runs[i].place.Selecting? {
      e := if s.calls[a].QuitWaiting? then SendQuit(a) else SendFreq(a);
    } else {
      e := BackToSelect(s, a, i);
    }
  }

  /** A collector that is away from its select can get back there. */
  lemma BackToSelect(s: State, a: string, i: nat) returns (e: Event)
    requires !s.crashed && a in s.calls && a in s.devicemap && s.devicemap[a] < |s.devs| && i < |s.runs|
    requires DevOf(s, a).runner == Some(i) && s.runs[i].addr == a
    requires s.calls[a].FreqWaiting? || s.calls[a].QuitWaiting?
    requires var p := s.runs[i].place; p.Starting? || p.Retiming? || p.Collecting?
    requires s.runs[i].place.Starting? ==> DevOf(s, a).getdata.Some?
    ensures Enabled(s, e) && Concerns(s, e, a)
    ensures a in Step(s, e).calls ==> Rank(Step(s, e), a) < Rank(s, a)
  {
    var p := s.runs[i].place;
    e := if p.Starting? then Begin(i) else if p.Retiming? then Retime(i) else TickDone(i);
  }
}
