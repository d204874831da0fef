/**
 `CheckStatus` of lib-utilities/common/pluginstatus.go.  Every round starts two producers,
 the plugin request and the response timer.  Each sends an error, a status and a queue list
 on three unbuffered channels that belong to the round, and `CheckStatus` receives one value
 from each.  The producer that is not heard stays blocked on its first send for good.
 */
module PluginStatus {
  import opened Options

  datatype Report = Report(error: Option<string>, alive: bool, queues: seq<string>)

  // ---------------------------------------------------------------- what getStatus sends

  /** The response as far as `getStatus` looks at it; every failure carries its message. */
  datatype Response =
    | Failed(message: string)
    | Body(queues: Option<seq<string>>, available: Option<string>)

  /** A body without a status is dereferenced all the same: the process panics. */
  datatype Answer = Sends(report: Report) | Panics

  predicate SameFold(s: string, t: string) { |s| == |t| && forall i :: 0 <= i < |s| ==> Fold(s[i]) == Fold(t[i]) }

  function Fold(c: char): char { if 'A' <= c <= 'Z' then (c as int + 32) as char else c }

  const UNEXPECTED := "error: expected plugin status: yes, but got "

  function StatusAnswer(r: Response): (a: Answer)
    ensures a.Panics? <==> r.Body? && r.available.None?
    ensures a.Sends? ==> (a.report.alive <==> a.report.error.None?)
    ensures a.Sends? && a.report.alive <==> r.Body? && r.available.Some? && SameFold(r.available.value, "yes")
    ensures a.Sends? ==> a.report.queues == if r.Body? && r.queues.Some? then r.queues.value else []
    ensures r.Failed? ==> a.report.error == Some(r.message)
    ensures r.Body? && a.Sends? && !a.report.alive ==> a.report.error == Some(UNEXPECTED + r.available.value)
  {
    match r
    case Failed(message) => Sends(Report(Some(message), false, []))
    case Body(queues, available) =>
      var names := if queues.Some? then queues.value else [];
      if available.None? then Panics
      else if SameFold(available.value, "yes") then Sends(Report(None, true, names))
      else Sends(Report(Some(UNEXPECTED + available.value), false, names))
  }

  const TIMEOUT: Report := Report(Some("error: wait time exceeded and got no response from plugin"), false, [])

  // ---------------------------------------------------------------- what CheckStatus concludes

  /** `statusLog`: the number of the try and its error, for every try with an error. */
  function Log(reports: seq<Report>): seq<(nat, string)> {
    if reports == [] then []
    else
      var n := |reports|;
      Log(reports[..n - 1]) + if reports[n - 1].error.Some? then [(n, reports[n - 1].error.value)] else []
  }

  datatype Verdict = Verdict(alive: bool, tries: int, queues: seq<string>, log: seq<(nat, string)>)

  /** True with the number of the first live round, or false with `Count` when no round lives. */
  ghost predicate Concludes(count: int, reports: seq<Report>, v: Verdict) {
    && (forall j :: 0 <= j < |reports| - 1 ==> !reports[j].alive)
    && v.log == Log(reports)
    && v.queues == (if reports == [] then [] else reports[|reports| - 1].queues)
    && if v.alive then 0 < |reports| <= count && reports[|reports| - 1].alive && v.tries == |reports|
       else |reports| == (if count < 0 then 0 else count) && v.tries == count && (reports != [] ==> !reports[|reports| - 1].alive)
  }

  /** The retry loop over the reports received, one for each round. */
  method CheckStatus(count: int, received: seq<Report>) returns (v: Verdict)
    requires |received| >= count
    ensures exists used :: 0 <= used <= |received| && Concludes(count, received[..used], v)
  {
    var queueList: seq<string> := [];
    var statusLog: seq<(nat, string)> := [];
    var i := 0;
    while i < count
      invariant 0 <= i <= |received| && (0 <= count ==> i <= count) && (count < 0 ==> i == 0)
      invariant forall j :: 0 <= j < i ==> !received[j].alive
      invariant statusLog == Log(received[..i])
      invariant queueList == if i == 0 then [] else received[i - 1].queues
    {
      var round := received[i];
      assert received[..i + 1][..i] == received[..i];
      if round.error.Some? {
        statusLog := statusLog + [(i + 1, round.error.value)];
      }
      queueList := round.queues;
      if round.alive {
        v := Verdict(true, i + 1, queueList, statusLog);
        assert Concludes(count, received[..i + 1], v);
        return;
      }
      i := i + 1;
    }
    v := Verdict(false, count, queueList, statusLog);
    assert Concludes(count, received[..i], v);
  }

  // ---------------------------------------------------------------- the race

  datatype Who = Plugin | Timer

  /** How many of its three sends each producer of a round has completed. */
  datatype Pair = Pair(plugin: nat, timer: nat) {
    function Of(w: Who): nat { if w.Plugin? then plugin else timer }
    function Advance(w: Who): Pair { if w.Plugin? then Pair(plugin + 1, timer) else Pair(plugin, timer + 1) }
  }

  datatype Phase = Receiving | Concluded(verdict: Verdict) | Crashed

  datatype State = State(
    count: int,
    pairs: seq<Pair>,          // one for each round started
    received: nat,             // values received in the current round
    sources: seq<Who>,         // who sent them
    current: Report,           // the fields received so far
    reports: seq<Report>,      // the rounds concluded
    phase: Phase)

  datatype Event =
    | Deliver(who: Who)    // the next value of the round passes from a producer to the consumer
    | NextRound            // three values received, round not alive
    | Return               // three values received and alive, or no round left
    | Panic(round: nat)    // a plugin request of a started round dereferences a missing status

  const EMPTY: Report := Report(None, false, [])

  function ReportOf(answers: nat -> Answer, round: nat, w: Who): Report
    requires w.Plugin? ==> answers(round).Sends?
  {
    if w.Plugin? then answers(round).report else TIMEOUT
  }

  function Init(count: int): State {
    State(count, if count <= 0 then [] else [Pair(0, 0)], 0, [], EMPTY, [], Receiving)
  }

  predicate Enabled(answers: nat -> Answer, s: State, e: Event) {
    && s.phase.Receiving?
    && match e
       case Deliver(w) =>
         && |s.pairs| == |s.reports| + 1 && s.received < 3
         && s.pairs[|s.reports|].Of(w) == s.received
         && (w.Plugin? ==> answers(|s.reports|).Sends?)
       case NextRound => s.received == 3 && !s.current.alive
       case Return => (s.received == 3 && s.current.alive) || (s.received == 0 && |s.pairs| == |s.reports|)
       case Panic(r) => r < |s.pairs| && s.pairs[r].plugin == 0 && answers(r).Panics?
  }

  /** The field that the `n`-th receive of a round fills. */
  function Fill(current: Report, n: nat, from: Report): Report {
    if n == 0 then current.(error := from.error)
    else if n == 1 then current.(alive := from.alive)
    else current.(queues := from.queues)
  }

  function Step(answers: nat -> Answer, s: State, e: Event): State
    requires Enabled(answers, s, e)
  {
    var r := |s.reports|;
    match e
    case Deliver(w) =>
      s.(pairs := s.pairs[r := s.pairs[r].Advance(w)], received := s.received + 1, sources := s.sources + [w],
         current := Fill(s.current, s.received, ReportOf(answers, r, w)))
    case NextRound =>
      var reports := s.reports + [s.current];
      s.(reports := reports, received := 0, sources := [], current := EMPTY,
         pairs := if |reports| < s.count then s.pairs + [Pair(0, 0)] else s.pairs)
    case Return =>
      if s.received == 3 then
        var reports := s.reports + [s.current];
        s.(reports := reports, phase := Concluded(Verdict(true, |reports|, s.current.queues, Log(reports))))
      else
        s.(phase := Concluded(Verdict(false, s.count, if r == 0 then [] else s.reports[r - 1].queues, Log(s.reports))))
    case Panic(_) => s.(phase := Crashed)
  }

  /** The round was decided by `w`: it completed all three sends, the other none. */
  ghost predicate WonBy(answers: nat -> Answer, pair: Pair, round: nat, report: Report, w: Who) {
    && pair.Of(w) == 3 && pair.Of(if w.Plugin? then Timer else Plugin) == 0
    && (w.Plugin? ==> answers(round).Sends?) && report == ReportOf(answers, round, w)
  }

  ghost predicate Won(answers: nat -> Answer, s: State, j: nat)
    requires j < |s.reports| && j < |s.pairs|
  {
    WonBy(answers, s.pairs[j], j, s.reports[j], Plugin) || WonBy(answers, s.pairs[j], j, s.reports[j], Timer)
  }

  /** The values of the current round all came from `w`. */
  ghost predicate RoundFrom(answers: nat -> Answer, s: State, w: Who)
    requires |s.pairs| == |s.reports| + 1
  {
    var r := |s.reports|;
    && s.pairs[r].Of(w) == s.received && s.pairs[r].Of(if w.Plugin? then Timer else Plugin) == 0
    && (forall i :: 0 <= i < |s.sources| ==> s.sources[i] == w)
    && (s.received > 0 && w.Plugin? ==> answers(r).Sends?)
    && (s.received == 0 ==> s.current == EMPTY)
    && (s.received > 0 ==> s.current == Partial(ReportOf(answers, r, w), s.received))
  }

  function Partial(from: Report, n: nat): Report {
    Report(from.error, if n >= 2 then from.alive else false, if n >= 3 then from.queues else [])
  }

  ghost predicate Inv(answers: nat -> Answer, s: State) {
    && s.received <= 3 && |s.sources| == s.received
    && |s.reports| <= |s.pairs| <= (if s.count < 0 then 0 else s.count)
    && (forall j :: 0 <= j < |s.reports| ==> Won(answers, s, j))
    && match s.phase
       case Receiving =>
         && (forall j :: 0 <= j < |s.reports| ==> !s.reports[j].alive)
         && (if |s.pairs| == |s.reports| then s.received == 0 && |s.reports| == (if s.count < 0 then 0 else s.count)
             else |s.pairs| == |s.reports| + 1 && (RoundFrom(answers, s, Plugin) || RoundFrom(answers, s, Timer)))
       case Concluded(v) => Concludes(s.count, s.reports, v)
       case Crashed => true
  }

  lemma InitInv(answers: nat -> Answer, count: int)
    ensures Inv(answers, Init(count))
  {
    if count > 0 {
      assert RoundFrom(answers, Init(count), Plugin);
    }
  }

  lemma DeliverInv(answers: nat -> Answer, s: State, w: Who)
    requires Inv(answers, s) && Enabled(answers, s, Deliver(w))
    ensures Inv(answers, Step(answers, s, Deliver(w)))
  {
    hide Concludes, Log;
    var s' := Step(answers, s, Deliver(w));
    var r := |s.reports|;
    assert RoundFrom(answers, s, w);
    assert RoundFrom(answers, s', w);
    forall j | 0 <= j < |s'.reports| ensures Won(answers, s', j) { assert Won(answers, s, j); }
  }

  lemma EndInv(answers: nat -> Answer, s: State, e: Event)
    requires Inv(answers, s) && Enabled(answers, s, e) && (e.NextRound? || e.Return?)
    ensures Inv(answers, Step(answers, s, e))
  {
    hide Log;
    var s' := Step(answers, s, e);
    if s.received == 3 {
      var r := |s.reports|;
      var w := if RoundFrom(answers, s, Plugin) then Plugin else Timer;
      assert RoundFrom(answers, s, w);
      assert WonBy(answers, s'.pairs[r], r, s'.reports[r], w);
    }
    forall j | 0 <= j < |s'.reports| ensures Won(answers, s', j) {
      if j < |s.reports| { assert Won(answers, s, j); }
    }
    if e.NextRound? && |s'.pairs| == |s'.reports| + 1 {
      assert RoundFrom(answers, s', Plugin);
    }
  }

  lemma StepInv(answers: nat -> Answer, s: State, e: Event)
    requires Inv(answers, s) && Enabled(answers, s, e)
    ensures Inv(answers, Step(answers, s, e))
  {
    hide Concludes, Log;
    match e
    case Deliver(w) => DeliverInv(answers, s, w);
    case NextRound => EndInv(answers, s, e);
    case Return => EndInv(answers, s, e);
    case Panic(r) =>
      var s' := Step(answers, s, e);
      forall j | 0 <= j < |s'.reports| ensures Won(answers, s', j) { assert Won(answers, s, j); }
  }

  ghost predicate Schedule(answers: nat -> Answer, s: State, es: seq<Event>)
    decreases |es|
  {
    es == [] || (Enabled(answers, s, es[0]) && Schedule(answers, Step(answers, s, es[0]), es[1..]))
  }

  ghost function Run(answers: nat -> Answer, s: State, es: seq<Event>): State
    requires Schedule(answers, s, es)
    decreases |es|
  {
    if es == [] then s else Run(answers, Step(answers, s, es[0]), es[1..])
  }

  lemma {:induction false} RunInv(answers: nat -> Answer, s: State, es: seq<Event>)
    requires Inv(answers, s) && Schedule(answers, s, es)
    ensures Inv(answers, Run(answers, s, es)) && Run(answers, s, es).count == s.count
    decreases |es|
  {
    hide Inv, Enabled;
    if es != [] {
      StepInv(answers, s, es[0]);
      RunInv(answers, Step(answers, s, es[0]), es[1..]);
    }
  }

  /** The round was live: the plugin was heard and said so. */
  ghost predicate Live(answers: nat -> Answer, s: State, j: nat)
    requires j < |s.pairs|
  {
    s.pairs[j].plugin == 3 && answers(j).Sends? && answers(j).report.alive
  }

  /** In every schedule, every finished round was consumed from a single producer while the
      other never passed its first send; and a concluded call returned true with try number
      k if and only if k is the first live round, and false with `Count` otherwise. */
  lemma EveryScheduleIsFair(answers: nat -> Answer, count: int, es: seq<Event>)
    requires Schedule(answers, Init(count), es)
    ensures var s := Run(answers, Init(count), es);
            && |s.reports| <= |s.pairs|
            && (forall j :: 0 <= j < |s.reports| ==> Won(answers, s, j))
            && (forall j :: 0 <= j < |s.reports| ==> (s.reports[j].alive <==> Live(answers, s, j)))
            && (forall j :: 0 <= j < |s.reports| && s.pairs[j].plugin == 0 ==> s.reports[j].queues == [] && s.reports[j].error.Some?)
            && (s.phase.Concluded? ==>
                  var v := s.phase.verdict;
                  && Concludes(count, s.reports, v)
                  && if v.alive
                     then 1 <= v.tries <= count && v.tries == |s.reports| && Live(answers, s, v.tries - 1)
                          && forall j :: 0 <= j < v.tries - 1 ==> !Live(answers, s, j)
                     else v.tries == count && forall j :: 0 <= j < |s.reports| ==> !Live(answers, s, j))
  {
    hide Log;
    InitInv(answers, count);
    RunInv(answers, Init(count), es);
    var s := Run(answers, Init(count), es);
    forall j | 0 <= j < |s.reports|
      ensures s.reports[j].alive <==> Live(answers, s, j)
      ensures s.pairs[j].plugin == 0 ==> s.reports[j].queues == [] && s.reports[j].error.Some?
    {
      assert Won(answers, s, j);
    }
  }

  /** Receives left until the call concludes. */
  function Remaining(s: State): int {
    4 * ((if s.count < 0 then 0 else s.count) - |s.reports|) - s.received + (if s.phase.Receiving? then 1 else 0)
  }

  /** A call that has not concluded can always go on, because the timer never fails to send, and
      every event brings it closer to its end. */
  lemma NeverStuck(answers: nat -> Answer, s: State) returns (e: Event)
    requires Inv(answers, s) && s.phase.Receiving?
    ensures Enabled(answers, s, e) && !e.Panic?
    ensures Step(answers, s, e).phase.Receiving? ==> 0 <= Remaining(Step(answers, s, e)) < Remaining(s)
  {
    hide Log, Concludes;
    if |s.pairs| == |s.reports| || s.received == 3 {
      e := if s.received == 3 && !s.current.alive then NextRound else Return;
    } else if RoundFrom(answers, s, Timer) {
      e := Deliver(Timer);
    } else {
      e := Deliver(Plugin);
    }
    StepInv(answers, s, e);
  }

  /** The process can end while the call waits if and only if some round would be answered
      without a status: the timer may win every round before it. */
  lemma LateResponsePanics(answers: nat -> Answer, count: int)
    ensures (exists es :: Schedule(answers, Init(count), es) && Run(answers, Init(count), es).phase.Crashed?)
            <==> exists r :: 0 <= r < count && answers(r).Panics?
  {
    hide Inv, Step, Enabled;
    if es :| Schedule(answers, Init(count), es) && Run(answers, Init(count), es).phase.Crashed? {
      InitInv(answers, count);
      var r := CrashNeedsPanic(answers, Init(count), es);
    }
    if r :| 0 <= r < count && answers(r).Panics? {
      var es := TimerUntil(answers, Init(count), r, r);
    }
  }

  lemma {:induction false} CrashNeedsPanic(answers: nat -> Answer, s: State, es: seq<Event>) returns (r: nat)
    requires Inv(answers, s) && Schedule(answers, s, es) && !s.phase.Crashed? && Run(answers, s, es).phase.Crashed?
    ensures r < s.count && answers(r).Panics?
    decreases |es|
  {
    hide Concludes, Log, Won;
    var t := Step(answers, s, es[0]);
    if es[0].Panic? {
      r := es[0].round;
    } else {
      StepInv(answers, s, es[0]);
      r := CrashNeedsPanic(answers, t, es[1..]);
    }
  }

  /** At the start of a round nothing has been received and the plugin has sent nothing. */
  ghost predicate RoundStart(s: State) {
    && s.phase.Receiving? && s.received == 0 && |s.pairs| == |s.reports| + 1 && |s.reports| < s.count
    && s.pairs[|s.reports|] == Pair(0, 0)
  }

  /** The answer of a round that was lost to the timer can still end the process in every later
      round. */
  lemma LostAnswerPanicsLater(answers: nat -> Answer, count: int, r: nat, k: nat)
    requires r <= k < count && answers(r).Panics?
    ensures exists es :: Schedule(answers, Init(count), es) && Run(answers, Init(count), es).phase.Crashed?
              && |Run(answers, Init(count), es).reports| == k
  {
    var es := TimerUntil(answers, Init(count), r, k);
  }

  /** The timer wins every round before `k`; then the answer of round `r` panics. */
  lemma {:induction false} TimerUntil(answers: nat -> Answer, s: State, r: nat, k: nat) returns (es: seq<Event>)
    requires RoundStart(s) && |s.reports| <= k < s.count && r <= k && answers(r).Panics?
    requires r < |s.pairs| ==> s.pairs[r].plugin == 0
    ensures Schedule(answers, s, es) && Run(answers, s, es).phase.Crashed? && |Run(answers, s, es).reports| == k
    decreases k - |s.reports|
  {
    if |s.reports| == k {
      Cons(answers, s, Panic(r), []);
      es := [Panic(r)] + [];
    } else {
      var s1 := Step(answers, s, Deliver(Timer));
      var s2 := Step(answers, s1, Deliver(Timer));
      var s3 := Step(answers, s2, Deliver(Timer));
      assert !s3.current.alive;
      var s4 := Step(answers, s3, NextRound);
      var more := TimerUntil(answers, s4, r, k);
      Cons(answers, s3, NextRound, more);
      Cons(answers, s2, Deliver(Timer), [NextRound] + more);
      Cons(answers, s1, Deliver(Timer), [Deliver(Timer)] + ([NextRound] + more));
      Cons(answers, s, Deliver(Timer), [Deliver(Timer)] + ([Deliver(Timer)] + ([NextRound] + more)));
      es := [Deliver(Timer)] + ([Deliver(Timer)] + ([Deliver(Timer)] + ([NextRound] + more)));
    }
  }

  lemma Cons(answers: nat -> Answer, s: State, e: Event, es: seq<Event>)
    requires Enabled(answers, s, e) && Schedule(answers, Step(answers, s, e), es)
    ensures Schedule(answers, s, [e] + es) && Run(answers, s, [e] + es) == Run(answers, Step(answers, s, e), es)
  {
    assert ([e] + es)[1..] == es;
  }

  // ---------------------------------------------------------------- the texts

  /** Without regard to case, "yes" is matched by the eight spellings of three letters. */
  lemma YesSpellings(s: string)
    ensures SameFold(s, "yes") <==>
              |s| == 3 && (s[0] == 'y' || s[0] == 'Y') && (s[1] == 'e' || s[1] == 'E') && (s[2] == 's' || s[2] == 'S')
  {
    if |s| == 3 {
      assert SameFold(s, "yes") <==> Fold(s[0]) == 'y' && Fold(s[1]) == 'e' && Fold(s[2]) == 's';
    }
  }

  /** The log tells of exactly the tries with an error, under the numbers of the tries. */
  lemma {:induction false} LogTells(reports: seq<Report>, k: nat, message: string)
    ensures (k, message) in Log(reports) <==> 1 <= k <= |reports| && reports[k - 1].error == Some(message)
  {
    if reports != [] {
      LogTells(reports[..|reports| - 1], k, message);
    }
  }

  /** The tries are told in order, each once. */
  lemma {:induction false} LogInOrder(reports: seq<Report>)
    ensures forall i, j :: 0 <= i < j < |Log(reports)| ==> Log(reports)[i].0 < Log(reports)[j].0
  {
    if reports != [] {
      var before := reports[..|reports| - 1];
      LogInOrder(before);
      forall i | 0 <= i < |Log(before)| ensures Log(before)[i].0 < |reports| {
        LogTells(before, Log(before)[i].0, Log(before)[i].1);
        assert Log(before)[i] in Log(before);
      }
    }
  }
}
