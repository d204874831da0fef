/**
 The Redis Streams consumer group of lib-messagebus/datacommunicator/redisstreamcomm.go.
 `Accept` starts two loops for each consumer: one reads a new entry, hands it to the handler
 and acknowledges it; the other claims entries that stayed unacknowledged and does the same.
 Entries are numbered from 0 in the order they are added after the group was created.
 Consumers come and crash at any time, and an acknowledgement can be lost.
 */
module StreamGroup {

  datatype Reader = Idle | Handling(id: nat) | Handled(id: nat)

  /** The claimed entries still to do; `todo` tells that the first was not handled yet. */
  datatype Claimer = Sleeping | Batch(rest: seq<nat>, todo: bool)

  datatype Consumer = Consumer(reader: Reader, claimer: Claimer)

  datatype State = State(
    added: nat,                      // entries in the stream
    delivered: nat,                  // last-delivered position of the group
    pending: map<nat, nat>,          // pending entries and their owners
    acked: set<nat>,
    handled: seq<nat>,               // history: entries passed to the handler
    consumers: map<nat, Consumer>,   // running consumers
    joined: nat)                     // consumer names used so far (each is a new UUID)

  const START := State(0, 0, map[], {}, [], map[], 0)

  datatype Event =
    | Add                            // Distribute
    | Join                           // Accept in a new process
    | Crash(c: nat)
    | ReadNew(c: nat)                // XReadGroup ">"
    | Handle(c: nat)                 // fn(evt)
    | Ack(c: nat, lost: bool)        // XAck
    | Claim(c: nat, ids: seq<nat>)   // XAutoClaim
    | HandleClaimed(c: nat)
    | AckClaimed(c: nat, lost: bool)
    | Sleep(c: nat)

  const CLAIM_COUNT := 100

  predicate Enabled(s: State, e: Event) {
    match e
    case Add => true
    case Join => true
    case Crash(c) => c in s.consumers
    case ReadNew(c) => c in s.consumers && s.consumers[c].reader.Idle? && s.delivered < s.added
    case Handle(c) => c in s.consumers && s.consumers[c].reader.Handling?
    case Ack(c, _) => c in s.consumers && s.consumers[c].reader.Handled?
    case Claim(c, ids) =>
      && c in s.consumers && s.consumers[c].claimer.Sleeping? && |ids| <= CLAIM_COUNT
      && forall i :: 0 <= i < |ids| ==> ids[i] in s.pending
    case HandleClaimed(c) => c in s.consumers && s.consumers[c].claimer.Batch? && s.consumers[c].claimer.rest != [] && s.consumers[c].claimer.todo
    case AckClaimed(c, _) => c in s.consumers && s.consumers[c].claimer.Batch? && s.consumers[c].claimer.rest != [] && !s.consumers[c].claimer.todo
    case Sleep(c) => c in s.consumers && s.consumers[c].claimer.Batch? && s.consumers[c].claimer.rest == []
  }

  function SetReader(s: State, c: nat, r: Reader): map<nat, Consumer>
    requires c in s.consumers
  {
    s.consumers[c := s.consumers[c].(reader := r)]
  }

  function SetClaimer(s: State, c: nat, k: Claimer): map<nat, Consumer>
    requires c in s.consumers
  {
    s.consumers[c := s.consumers[c].(claimer := k)]
  }

  /** XACK of an entry that is not pending does nothing. */
  function Acknowledge(s: State, id: nat, lost: bool): State {
    if lost || id !in s.pending then s else s.(pending := s.pending - {id}, acked := s.acked + {id})
  }

  function Step(s: State, e: Event): State
    requires Enabled(s, e)
  {
    match e
    case Add => s.(added := s.added + 1)
    case Join => s.(consumers := s.consumers[s.joined := Consumer(Idle, Sleeping)], joined := s.joined + 1)
    case Crash(c) => s.(consumers := s.consumers - {c})
    case ReadNew(c) =>
      s.(delivered := s.delivered + 1, pending := s.pending[s.delivered := c], consumers := SetReader(s, c, Handling(s.delivered)))
    case Handle(c) =>
      var id := s.consumers[c].reader.id;
      s.(handled := s.handled + [id], consumers := SetReader(s, c, Handled(id)))
    case Ack(c, lost) =>
      Acknowledge(s, s.consumers[c].reader.id, lost).(consumers := SetReader(s, c, Idle))
    case Claim(c, ids) =>
      s.(pending := map id | id in s.pending :: if id in ids then c else s.pending[id], consumers := SetClaimer(s, c, Batch(ids, true)))
    case HandleClaimed(c) =>
      var k := s.consumers[c].claimer;
      s.(handled := s.handled + [k.rest[0]], consumers := SetClaimer(s, c, Batch(k.rest, false)))
    case AckClaimed(c, lost) =>
      var k := s.consumers[c].claimer;
      Acknowledge(s, k.rest[0], lost).(consumers := SetClaimer(s, c, Batch(k.rest[1..], true)))
    case Sleep(c) => s.(consumers := SetClaimer(s, c, Sleeping))
  }

  // ---------------------------------------------------------------- safety

  /** Every entry is exactly one of undelivered, pending and acknowledged. */
  ghost predicate Accounted(s: State) {
    && s.delivered <= s.added
    && (forall id :: id in s.pending ==> id < s.delivered && id !in s.acked)
    && (forall id :: id in s.acked ==> id < s.delivered)
    && (forall id: nat :: id < s.delivered ==> id in s.pending || id in s.acked)
  }

  /** What is about to be acknowledged has been handled. */
  ghost predicate ConsumerOk(s: State, k: Consumer) {
    && (k.reader.Handled? ==> k.reader.id in s.handled)
    && (k.claimer.Batch? && k.claimer.rest != [] && !k.claimer.todo ==> k.claimer.rest[0] in s.handled)
  }

  ghost predicate Inv(s: State) {
    && Accounted(s)
    && (forall id :: id in s.acked ==> id in s.handled)
    && (forall c :: c in s.consumers ==> ConsumerOk(s, s.consumers[c]) && c < s.joined)
  }

  lemma StepAccounted(s: State, e: Event)
    requires Accounted(s) && Enabled(s, e)
    ensures Accounted(Step(s, e))
  {
  }

  lemma StepConsumers(s: State, e: Event)
    requires Enabled(s, e) && forall c :: c in s.consumers ==> ConsumerOk(s, s.consumers[c]) && c < s.joined
    ensures forall c :: c in Step(s, e).consumers ==> ConsumerOk(Step(s, e), Step(s, e).consumers[c]) && c < Step(s, e).joined
    ensures forall x :: x in s.handled ==> x in Step(s, e).handled
  {
    var s' := Step(s, e);
    assert forall x :: x in s.handled ==> x in s'.handled;
    if e.HandleClaimed? {
      assert s'.handled[|s.handled|] == s.consumers[e.c].claimer.rest[0];
    }
    if e.Handle? {
      assert s'.handled[|s.handled|] == s.consumers[e.c].reader.id;
    }
  }

  lemma StepInv(s: State, e: Event)
    requires Inv(s) && Enabled(s, e)
    ensures Inv(Step(s, e))
  {
    hide Accounted;
    StepAccounted(s, e);
    StepConsumers(s, e);
  }

  ghost predicate Schedule(s: State, es: seq<Event>)
    decreases |es|
  {
    es == [] || (Enabled(s, es[0]) && Schedule(Step(s, es[0]), es[1..]))
  }

  ghost function Run(s: State, es: seq<Event>): State
    requires Schedule(s, es)
    decreases |es|
  {
    if es == [] then s else Run(Step(s, es[0]), es[1..])
  }

  lemma {:induction false} RunInv(s: State, es: seq<Event>)
    requires Inv(s) && Schedule(s, es)
    ensures Inv(Run(s, es))
    decreases |es|
  {
    hide Inv, Enabled, Step;
    if es != [] {
      StepInv(s, es[0]);
      RunInv(Step(s, es[0]), es[1..]);
    }
  }

  /** For any number of consumers and crashes: every entry is exactly one of undelivered,
      pending and acknowledged, and an acknowledged entry was passed to the handler. */
  lemma AtLeastOnce(es: seq<Event>, id: nat)
    requires Schedule(START, es) && id < Run(START, es).added
    ensures var s := Run(START, es);
            && (id >= s.delivered <==> id !in s.pending && id !in s.acked)
            && !(id in s.pending && id in s.acked)
            && (id in s.acked ==> id in s.handled)
  {
    RunInv(START, es);
  }

  /** Nothing more is promised: from every reachable state an entry that is still pending can be
      handed to the handler once more, by a consumer that joins and claims it. */
  lemma HandledAgain(s: State, id: nat) returns (es: seq<Event>)
    requires Inv(s) && id in s.pending
    ensures Schedule(s, es) && Inv(Run(s, es))
    ensures Run(s, es).handled == s.handled + [id] && id in Run(s, es).pending
  {
    hide Inv;
    var c := s.joined;
    var s1 := Step(s, Join);
    var s2 := Step(s1, Claim(c, [id]));
    assert s2.consumers[c].claimer == Batch([id], true);
    var s3 := Step(s2, HandleClaimed(c));
    es := [Join] + ([Claim(c, [id])] + ([HandleClaimed(c)] + []));
    RunNil(s3);
    RunCons(s2, HandleClaimed(c), []);
    RunCons(s1, Claim(c, [id]), [HandleClaimed(c)] + []);
    RunCons(s, Join, [Claim(c, [id])] + ([HandleClaimed(c)] + []));
    RunInv(s, es);
  }

  /** For every number there is a schedule in which the first entry is handled that many times
      and still not acknowledged. */
  lemma {:induction false} HandledAnyTimes(n: nat) returns (es: seq<Event>)
    ensures Schedule(START, es) && Inv(Run(START, es))
    ensures Run(START, es).handled == seq(n, _ => 0) && 0 in Run(START, es).pending
  {
    if n == 0 {
      var s1 := Step(START, Add);
      var s2 := Step(s1, Join);
      var s3 := Step(s2, ReadNew(0));
      es := [Add] + ([Join] + ([ReadNew(0)] + []));
      RunNil(s3);
      RunCons(s2, ReadNew(0), []);
      RunCons(s1, Join, [ReadNew(0)] + []);
      RunCons(START, Add, [Join] + ([ReadNew(0)] + []));
      RunInv(START, es);
    } else {
      hide Step, Enabled, Inv;
      var before := HandledAnyTimes(n - 1);
      var once := HandledAgain(Run(START, before), 0);
      RunThen(START, before, once);
      es := before + once;
    }
  }

  lemma RunNil(s: State)
    ensures Schedule(s, []) && Run(s, []) == s
  {
  }

  lemma RunCons(s: State, e: Event, es: seq<Event>)
    requires Enabled(s, e) && Schedule(Step(s, e), es)
    ensures Schedule(s, [e] + es) && Run(s, [e] + es) == Run(Step(s, e), es)
  {
    assert ([e] + es)[1..] == es;
  }

  // ---------------------------------------------------------------- nothing is lost

  predicate Ready(s: State, c: nat) {
    c in s.consumers && s.consumers[c] == Consumer(Idle, Sleeping)
  }

  function Open(s: State): nat
    requires s.delivered <= s.added
  {
    s.added - s.delivered + |s.pending|
  }

  /** Claiming, handling and acknowledging one pending entry. */
  lemma ClaimCycle(s: State, c: nat, id: nat)
    requires Ready(s, c) && id in s.pending
    ensures Enabled(s, Claim(c, [id]))
    ensures var s1 := Step(s, Claim(c, [id]));
            && Enabled(s1, HandleClaimed(c))
            && var s2 := Step(s1, HandleClaimed(c));
               && Enabled(s2, AckClaimed(c, false))
               && var s3 := Step(s2, AckClaimed(c, false));
                  && Enabled(s3, Sleep(c))
                  && var s4 := Step(s3, Sleep(c));
                     && Ready(s4, c) && s4.pending.Keys == s.pending.Keys - {id}
                     && s4.delivered == s.delivered && s4.added == s.added
  {
    var s1 := Step(s, Claim(c, [id]));
    assert s1.consumers[c] == Consumer(Idle, Batch([id], true)) && s1.pending.Keys == s.pending.Keys;
    var s2 := Step(s1, HandleClaimed(c));
    assert s2.consumers[c] == Consumer(Idle, Batch([id], false)) && s2.pending == s1.pending;
    var s3 := Step(s2, AckClaimed(c, false));
    assert s3.consumers[c] == Consumer(Idle, Batch([], true)) && s3.pending == s1.pending - {id} by { assert [id][1..] == []; }
  }

  /** A consumer at rest can take one more entry all the way. */
  lemma AckPending(s: State, c: nat, id: nat) returns (es: seq<Event>)
    requires Inv(s) && Ready(s, c) && id in s.pending
    ensures Schedule(s, es) && Inv(Run(s, es)) && Ready(Run(s, es), c) && Run(s, es).added == s.added
    ensures Open(Run(s, es)) < Open(s)
  {
    hide Inv, Enabled, Step, Ready;
    ClaimCycle(s, c, id);
    var s1 := Step(s, Claim(c, [id]));
    var s2 := Step(s1, HandleClaimed(c));
    var s3 := Step(s2, AckClaimed(c, false));
    var s4 := Step(s3, Sleep(c));
    var e4 := [Sleep(c)] + [];
    var e3 := [AckClaimed(c, false)] + e4;
    var e2 := [HandleClaimed(c)] + e3;
    es := [Claim(c, [id])] + e2;
    RunNil(s4);
    RunCons(s3, Sleep(c), []);
    RunCons(s2, AckClaimed(c, false), e4);
    RunCons(s1, HandleClaimed(c), e3);
    RunCons(s, Claim(c, [id]), e2);
    RunInv(s, es);
    assert |s.pending| == |s.pending.Keys| && |s4.pending| == |s4.pending.Keys|;
    InvBounds(s);
  }

  lemma InvBounds(s: State)
    requires Inv(s)
    ensures s.delivered <= s.added && s.delivered !in s.pending
  {
  }

  lemma AckNext(s: State, c: nat) returns (es: seq<Event>)
    requires Inv(s) && Ready(s, c) && s.delivered < s.added
    ensures Schedule(s, es) && Inv(Run(s, es)) && Ready(Run(s, es), c) && Run(s, es).added == s.added
    ensures Open(Run(s, es)) < Open(s)
  {
    hide Inv;
    var id := s.delivered;
    InvBounds(s);
    var s1 := Step(s, ReadNew(c));
    var s2 := Step(s1, Handle(c));
    var s3 := Step(s2, Ack(c, false));
    es := [ReadNew(c)] + ([Handle(c)] + ([Ack(c, false)] + []));
    RunNil(s3);
    RunCons(s2, Ack(c, false), []);
    RunCons(s1, Handle(c), [Ack(c, false)] + []);
    RunCons(s, ReadNew(c), [Handle(c)] + ([Ack(c, false)] + []));
    RunInv(s, es);
    assert s3.pending == s.pending[id := c] - {id} == s.pending;
  }

  lemma {:induction false} RunThen(s: State, es: seq<Event>, fs: seq<Event>)
    requires Schedule(s, es) && Schedule(Run(s, es), fs)
    ensures Schedule(s, es + fs) && Run(s, es + fs) == Run(Run(s, es), fs)
    decreases |es|
  {
    if es == [] {
      assert es + fs == fs;
    } else {
      RunThen(Step(s, es[0]), es[1..], fs);
      assert (es + fs)[1..] == es[1..] + fs;
    }
  }

  lemma {:induction false} Drain(s: State, c: nat) returns (es: seq<Event>)
    requires Inv(s) && Ready(s, c)
    ensures Schedule(s, es) && Inv(Run(s, es)) && Run(s, es).added == s.added
    ensures Run(s, es).delivered == s.added && Run(s, es).pending == map[]
    decreases s.added - s.delivered + |s.pending|
  {
    hide Inv;
    InvBounds(s);
    if s.pending == map[] && s.delivered == s.added {
      es := [];
    } else {
      var first;
      if s.pending != map[] {
        var id :| id in s.pending;
        first := AckPending(s, c, id);
      } else {
        first := AckNext(s, c);
      }
      InvBounds(Run(s, first));
      var more := Drain(Run(s, first), c);
      RunThen(s, first, more);
      es := first + more;
    }
  }

  /** From every reachable state, whatever crashed before, a new consumer can bring every entry
      to the handler and to its acknowledgement: no entry is ever lost. */
  lemma NothingLost(es: seq<Event>) returns (more: seq<Event>)
    requires Schedule(START, es)
    ensures Schedule(Run(START, es), more)
    ensures var s := Run(Run(START, es), more);
            s.added == Run(START, es).added && forall id: nat :: id < s.added ==> id in s.acked && id in s.handled
  {
    RunInv(START, es);
    var s := Run(START, es);
    var s1 := Step(s, Join);
    StepInv(s, Join);
    var rest := Drain(s1, s.joined);
    RunCons(s, Join, rest);
    more := [Join] + rest;
  }

  /** An entry belongs to the consumer that read it or, after that, claimed it last. */
  lemma OwnerChanges(s: State, e: Event, id: nat)
    requires Inv(s) && Enabled(s, e) && id in Step(s, e).pending
    ensures e.ReadNew? && id == s.delivered ==> Step(s, e).pending[id] == e.c
    ensures e.Claim? && id in e.ids ==> Step(s, e).pending[id] == e.c
    ensures !(e.ReadNew? && id == s.delivered) && !(e.Claim? && id in e.ids) ==>
              id in s.pending && Step(s, e).pending[id] == s.pending[id]
  {
    assert s.delivered !in s.pending;
  }

  /** A lost acknowledgement leaves its entry pending; one that arrives settles it. */
  lemma AckSettles(s: State, c: nat, lost: bool)
    requires Enabled(s, Ack(c, lost)) && s.consumers[c].reader.id in s.pending
    ensures var id := s.consumers[c].reader.id;
            var t := Step(s, Ack(c, lost));
            if lost then t.pending == s.pending && t.acked == s.acked
            else t.pending == s.pending - {id} && t.acked == s.acked + {id}
  {
  }

  lemma ClaimAckSettles(s: State, c: nat, lost: bool)
    requires Enabled(s, AckClaimed(c, lost)) && s.consumers[c].claimer.rest[0] in s.pending
    ensures var id := s.consumers[c].claimer.rest[0];
            var t := Step(s, AckClaimed(c, lost));
            if lost then t.pending == s.pending && t.acked == s.acked
            else t.pending == s.pending - {id} && t.acked == s.acked + {id}
  {
  }

  // ---------------------------------------------------------------- without claims

  /** No entry was handled twice, none in hand was handled before, and no two consumers have the
      same entry in hand. */
  ghost predicate Unrepeated(s: State) {
    && (forall i, j :: 0 <= i < j < |s.handled| ==> s.handled[i] != s.handled[j])
    && (forall i :: 0 <= i < |s.handled| ==> s.handled[i] < s.delivered)
    && (forall c :: c in s.consumers ==> InHandOk(s, s.consumers[c]))
    && (forall c, d :: c in s.consumers && d in s.consumers && c != d ==> Apart(s.consumers[c].reader, s.consumers[d].reader))
  }

  predicate Apart(r: Reader, q: Reader) { r.Handling? && q.Handling? ==> r.id != q.id }

  ghost predicate InHandOk(s: State, k: Consumer) {
    && (k.claimer.Batch? ==> k.claimer.rest == [])
    && (k.reader.Handling? ==> k.reader.id < s.delivered && k.reader.id !in s.handled)
  }

  lemma StepUnrepeated(s: State, e: Event)
    requires Unrepeated(s) && Enabled(s, e) && !e.Claim?
    ensures Unrepeated(Step(s, e))
  {
    var s' := Step(s, e);
    assert !e.HandleClaimed? && !e.AckClaimed?;
    forall c | c in s'.consumers ensures InHandOk(s', s'.consumers[c]) {
      if c in s.consumers { assert InHandOk(s, s.consumers[c]); }
    }
  }

  /** An entry is handled more than once only after a claim: without claims every entry is
      handled at most once, whatever crashes and whatever acknowledgement is lost. */
  lemma {:induction false} OnceUnlessClaimed(s: State, es: seq<Event>)
    requires Unrepeated(s) && Schedule(s, es) && forall i :: 0 <= i < |es| ==> !es[i].Claim?
    ensures Unrepeated(Run(s, es))
    decreases |es|
  {
    hide Unrepeated, Enabled, Step;
    if es != [] {
      StepUnrepeated(s, es[0]);
      OnceUnlessClaimed(Step(s, es[0]), es[1..]);
    }
  }

  lemma HandledOnce(es: seq<Event>)
    requires Schedule(START, es) && forall i :: 0 <= i < |es| ==> !es[i].Claim?
    ensures forall i, j :: 0 <= i < j < |Run(START, es).handled| ==> Run(START, es).handled[i] != Run(START, es).handled[j]
  {
    OnceUnlessClaimed(START, es);
  }
}
