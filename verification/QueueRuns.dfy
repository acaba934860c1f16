/** Safety over whole runs of the queue. */
module QueueRuns {
  import opened Wrappers
  import opened Messages
  import opened Tags
  import opened Lookups
  import opened QueueOps
  import opened QueueSteps
  import opened QueueInvariants

  ghost predicate StepsOk(steps: seq<Step>) {
    forall k :: 0 <= k < |steps| ==> StepOk(steps[k])
  }

  /** The invariant holds after every run from the empty queue. */
  lemma {:induction false} RunKeeps(cfg: Config, start: int, steps: seq<Step>)
    requires StepsOk(steps)
    ensures Valid(cfg, Run(cfg, Empty(start), steps))
    decreases |steps|
  {
    if steps == [] {
      var q := Empty(start);
      forall id: nat
        ensures SentOk(cfg, 0, id, q.sent[id])
      {
      }
    } else {
      RunKeeps(cfg, start, steps[..|steps| - 1]);
      StepKeeps(cfg, Run(cfg, Empty(start), steps[..|steps| - 1]), steps[|steps| - 1]);
    }
  }

  // ---- Looking only at the head ----

  ghost predicate SomeDue(q: Q, now: int) {
    exists i :: 0 <= i < |q.queue| && q.queue[i].time <= now
  }

  /** Once the clock is at or past the horizon, the head alone decides whether anything is due. */
  lemma HeadDecides(cfg: Config, q: Q, now: int)
    requires Valid(cfg, q) && q.horizon <= now
    ensures Due(q, now) <==> SomeDue(q, now)
  {
    if Due(q, now) {
      assert q.queue[0].time <= now;
    } else if q.queue != [] {
      forall i | 0 <= i < |q.queue|
        ensures q.queue[i].time > now
      {
        assert i > 0 ==> PairOk(q.queue[0], q.queue[i], q.horizon);
      }
    }
  }

  /** Without restored entries the horizon is never further than one delay past the last front
      insert or in-place change, so nothing due stays hidden beyond that. */
  lemma HiddenForABoundedTime(cfg: Config, q: Q, now: int)
    requires Valid(cfg, q) && !q.restored
    requires q.touched + MaxDelay(cfg) <= now
    ensures Due(q, now) <==> SomeDue(q, now)
  {
    HeadDecides(cfg, q, now);
  }

  /** As long as no time was changed in place, nothing due is ever hidden. */
  lemma NothingHiddenInOrder(cfg: Config, q: Q, now: int)
    requires Valid(cfg, q) && !q.restored && !q.inPlace
    requires q.clock <= now
    ensures Due(q, now) <==> SomeDue(q, now)
  {
    HeadDecides(cfg, q, now);
  }

  /** In-place changes do hide messages: when the rate limiter puts off the head and the next entry
      is due too, that entry stays unseen until the head's new time comes. */
  lemma RateLimitHides(cfg: Config, q: Q, e: TickInput, now: int)
    requires |q.queue| >= 2 && q.queue[0].state == RequestMsgDelivery
    requires Due(q, e.now) && q.queue[1].time <= now
    requires e.packOk && (cfg.maxRetries > 0 ==> q.queue[0].retries < cfg.maxRetries)
    requires cfg.rateLimit > 0 && cfg.rateLimit >= e.elapsed
    ensures var r := Tick(cfg, q, e);
            SomeDue(r, now) && (Due(r, now) <==> q.queue[0].time + cfg.rateLimit <= now)
  {
    var r := Tick(cfg, q, e);
    var q0 := ReadClock(q, e.now);
    var m := q0.queue[0].(retries := q0.queue[0].retries + 1);
    assert r == Attempt(cfg, CountTry(cfg, q0, 0), 0, e);
    assert r.queue == q.queue[0 := m.(time := m.time + cfg.rateLimit)];
    assert r.queue[1].time <= now;
  }

  const HERE: HostPort := HostPort("127.0.0.1", "5062")
  const NEW_CALL: CallId := CallId("1", None)
  const LIMITED: Config := Config(3, 10_000, 60_000, 0, "101", HostPort("", ""), HERE, "127.0.0.1", "5062")

  /** Two messages arrive; the second one is a registration request. */
  const SENDER: Msg :=
    Incoming(Request(MESSAGE), "7", "a", "IMSI001010000000001", Some("5551234"), HERE, NEW_CALL, None)
  const NEWCOMER: Msg :=
    Incoming(Request(MESSAGE), "8", "b", "IMSI001010000000002", Some("101"), HERE, NEW_CALL, None)
  const REGISTERING: TickInput :=
    TickInput(0, 0, 0, 0, Some(ShortCodeAction.Register), true, None, None, None, true, "9", "2", None, true, 0)
  const LIMITED_STEPS: seq<Step> := [Arrive(SENDER, 0), Arrive(NEWCOMER, 0), Timer(REGISTERING)]

  /** The shape that RateLimitHides asks for. */
  ghost predicate ReadyToSend(q: Q) {
    && |q.queue| == 3 && q.queue[0].state == RequestMsgDelivery && q.queue[0].retries == 0
    && q.queue[0].time == 0 && q.queue[1].time == 0
  }

  ghost predicate BothArrived(q: Q) {
    && |q.queue| == 2 && q.queue[0].time == 0 && q.queue[1].time == 0
    && q.queue[0].state == Initial && q.queue[0].kind == Request(MESSAGE)
  }

  lemma FrontTwice(q: Q)
    requires q.queue == []
    ensures BothArrived(Apply(LIMITED, Apply(LIMITED, q, Arrive(SENDER, 0)), Arrive(NEWCOMER, 0)))
  {
  }

  lemma Registers(q: Q)
    requires BothArrived(q)
    ensures ReadyToSend(RegisterStep(LIMITED, q, 0, REGISTERING))
  {
    var m := q.queue[0];
    var q1 := PushFront(LIMITED, q, NewRegister(LIMITED, REGISTERING, m), RegistrationFor(m.id), RequestMsgDelivery, 0);
    assert Without(q1.queue, 1) == [q1.queue[0], q.queue[1]];
    assert NewPos(q1.queue, 1, 3_000_000) == 2;
    assert RegisterStep(LIMITED, q, 0, REGISTERING) == SetState(LIMITED, q1, 1, AskedToRegisterHandset, 0);
  }

  lemma RegisterTick(q: Q)
    requires BothArrived(q)
    ensures Tick(LIMITED, q, REGISTERING) == RegisterStep(LIMITED, ReadClock(q, 0), 0, REGISTERING)
  {
  }

  lemma LimitedRun()
    ensures ReadyToSend(Run(LIMITED, Empty(0), LIMITED_STEPS))
  {
    var q2 := Apply(LIMITED, Apply(LIMITED, Empty(0), Arrive(SENDER, 0)), Arrive(NEWCOMER, 0));
    FrontTwice(Empty(0));
    RegisterTick(q2);
    Registers(ReadClock(q2, 0));
    ThreeSteps(Empty(0), Arrive(SENDER, 0), Arrive(NEWCOMER, 0), Timer(REGISTERING));
  }

  lemma RunAppend(cfg: Config, q: Q, steps: seq<Step>, s: Step)
    ensures Run(cfg, q, steps + [s]) == Apply(cfg, Run(cfg, q, steps), s)
  {
    assert (steps + [s])[..|steps|] == steps;
  }

  lemma ThreeSteps(q: Q, a: Step, b: Step, c: Step)
    ensures Run(LIMITED, q, [a, b, c]) == Apply(LIMITED, Apply(LIMITED, Apply(LIMITED, q, a), b), c)
  {
    RunAppend(LIMITED, q, [], a);
    RunAppend(LIMITED, q, [a], b);
    RunAppend(LIMITED, q, [a, b], c);
    assert [] + [a] == [a] && [a] + [b] == [a, b] && [a, b] + [c] == [a, b, c];
  }

  /** Such states are reached: after three steps from the empty queue the next call puts off the
      registration at the head, and the message behind it is due but not seen. */
  lemma RateLimitHidesInRun()
    ensures var r := Run(LIMITED, Empty(0), LIMITED_STEPS + [Timer(REGISTERING)]);
            SomeDue(r, 0) && !Due(r, 0)
  {
    var steps := LIMITED_STEPS + [Timer(REGISTERING)];
    assert steps[..3] == LIMITED_STEPS;
    LimitedRun();
    RateLimitHides(LIMITED, Run(LIMITED, Empty(0), LIMITED_STEPS), REGISTERING, 0);
  }

  // ---- Histories of runs ----

  /** A longer run only adds births. */
  lemma {:induction false} RunExtends(cfg: Config, q: Q, steps: seq<Step>, k: nat)
    requires k <= |steps|
    ensures Run(cfg, q, steps[..k]).born <= Run(cfg, q, steps).born
    decreases |steps|
  {
    if k == |steps| {
      assert steps[..k] == steps;
    } else {
      var front := steps[..|steps| - 1];
      RunExtends(cfg, q, front, k);
      assert front[..k] == steps[..k];
    }
  }

  lemma {:induction false} NotRestored(cfg: Config, start: int, steps: seq<Step>)
    requires forall k :: 0 <= k < |steps| ==> !steps[k].ReadBack?
    ensures !Run(cfg, Empty(start), steps).restored
    decreases |steps|
  {
    if steps != [] {
      NotRestored(cfg, start, steps[..|steps| - 1]);
    }
  }

  /** Over any run without restored entries, nothing due can stay unseen for longer than the longest
      delay after the last front insert or in-place change. */
  lemma NothingHiddenForLong(cfg: Config, start: int, steps: seq<Step>, now: int)
    requires StepsOk(steps) && forall k :: 0 <= k < |steps| ==> !steps[k].ReadBack?
    requires Run(cfg, Empty(start), steps).touched + MaxDelay(cfg) <= now
    ensures var q := Run(cfg, Empty(start), steps); Due(q, now) <==> SomeDue(q, now)
  {
    RunKeeps(cfg, start, steps);
    NotRestored(cfg, start, steps);
    HiddenForABoundedTime(cfg, Run(cfg, Empty(start), steps), now);
  }

  /** At most MaxRetries deliveries of any message, whatever responses, redirects, rate limits
      and lookups happen in between. */
  lemma DeliveriesBounded(cfg: Config, start: int, steps: seq<Step>, id: nat)
    requires StepsOk(steps) && cfg.maxRetries > 0
    ensures Run(cfg, Empty(start), steps).sent[id] <= cfg.maxRetries
  {
    RunKeeps(cfg, start, steps);
    var q := Run(cfg, Empty(start), steps);
    assert SentOk(cfg, |q.born|, id, q.sent[id]);
  }

  /** A message keeps its tag and hash for as long as it is queued. */
  lemma TagsStable(cfg: Config, start: int, steps: seq<Step>, k: nat, i: nat, j: nat)
    requires StepsOk(steps) && k <= |steps|
    requires i < |Run(cfg, Empty(start), steps[..k]).queue| && j < |Run(cfg, Empty(start), steps).queue|
    requires Run(cfg, Empty(start), steps[..k]).queue[i].id == Run(cfg, Empty(start), steps).queue[j].id
    ensures var m := Run(cfg, Empty(start), steps[..k]).queue[i];
            var n := Run(cfg, Empty(start), steps).queue[j];
            n.qtag == m.qtag == Qtag(m.cseq, m.fromTag) && n.qtaghash == m.qtaghash == TagHash(m.qtag)
  {
    var q, r := Run(cfg, Empty(start), steps[..k]), Run(cfg, Empty(start), steps);
    RunKeeps(cfg, start, steps[..k]);
    RunKeeps(cfg, start, steps);
    RunExtends(cfg, Empty(start), steps, k);
    assert EntryOk(cfg, q.born, q.sent, q.codeKept, q.queue[i]);
    assert EntryOk(cfg, r.born, r.sent, r.codeKept, r.queue[j]);
  }

  /** A look-up of the host sends the message to the place that was found with a new Call-ID, and keeps
      its tag, so that the answer still finds it. */
  lemma LocatedKeepsTag(cfg: Config, q: Q, e: TickInput)
    requires q.queue != [] && q.queue[0].reqUser.Some? && Tagged(q.queue[0])
    ensures var m, r := q.queue[0], LookupHostStep(cfg, q, e).queue;
            exists p :: && 0 <= p < |r| && r[p].id == m.id && r[p].state == RequestMsgDelivery
                        && r[p].dest == Destination(cfg, m.reqUser.value, e.registration)
                        && r[p].callId.number == e.callNumber
                        && r[p].qtag == m.qtag && r[p].qtaghash == m.qtaghash
                        && Without(r, p) == Without(q.queue, 0)
  {
    var m := q.queue[0];
    var found := Located(cfg, m, m.reqUser.value, e);
    var q1 := Edit(cfg, q, 0, found);
    var p := NewPos(q1.queue, 0, ActionTime(cfg, found, RequestMsgDelivery, e.tLast));
    SetStateAt(cfg, q1, 0, RequestMsgDelivery, e.tLast);
    var r := LookupHostStep(cfg, q, e).queue;
    assert r == SetState(cfg, q1, 0, RequestMsgDelivery, e.tLast).queue;
    WithoutMoved(q1.queue, 0, p, r[p]);
    assert Without(q1.queue, 0) == Without(q.queue, 0);
  }

  lemma WithoutMoved(queue: seq<Msg>, i: nat, p: nat, m: Msg)
    requires i < |queue| && p < |queue|
    ensures Without(InsertAt(Without(queue, i), p, m), p) == Without(queue, i)
  {
  }

  /** Every REGISTER that a run made itself is linked to the tag of the SMS it was made for,
      and as long as that SMS is queued it carries that tag. */
  lemma RegistersLinked(cfg: Config, start: int, steps: seq<Step>, i: nat)
    requires StepsOk(steps)
    requires i < |Run(cfg, Empty(start), steps).queue|
    requires var q := Run(cfg, Empty(start), steps);
             q.queue[i].id < |q.born| && q.born[q.queue[i].id].origin.RegistrationFor?
    ensures var q := Run(cfg, Empty(start), steps);
            var parent := q.born[q.queue[i].id].origin.parent;
            && parent < |q.born|
            && q.queue[i].linktag == Some(q.born[parent].tag)
            && forall j :: 0 <= j < |q.queue| && q.queue[j].id == parent ==> q.queue[i].linktag == Some(q.queue[j].qtag)
  {
    var q := Run(cfg, Empty(start), steps);
    RunKeeps(cfg, start, steps);
    assert EntryOk(cfg, q.born, q.sent, q.codeKept, q.queue[i]);
    assert BirthOk(q.born, q.codeKept, q.queue[i].id, q.born[q.queue[i].id]);
    forall j | 0 <= j < |q.queue| && q.queue[j].id == q.born[q.queue[i].id].origin.parent
      ensures q.queue[i].linktag == Some(q.queue[j].qtag)
    {
      assert EntryOk(cfg, q.born, q.sent, q.codeKept, q.queue[j]);
    }
  }

  // ---- Restored queues ----

  /** The steps of reading a saved queue: the last message first, each to the front. */
  function Restoring(saved: seq<Msg>): seq<Step> {
    if saved == [] then [] else Restoring(saved[1..]) + [ReadBack(saved[0], saved[0].state, saved[0].time)]
  }

  /** A saved queue that is read into a running one stands in front of it in its old order, every
      message with its saved state and time and a new identity. */
  lemma {:induction false} RestoredInOrder(cfg: Config, q: Q, saved: seq<Msg>)
    ensures var r := Run(cfg, q, Restoring(saved)).queue;
            && |r| == |saved| + |q.queue| && r[|saved|..] == q.queue
            && forall k :: 0 <= k < |saved| ==> r[k] == saved[k].(id := r[k].id)
  {
    if saved != [] {
      var steps := Restoring(saved);
      assert steps[..|steps| - 1] == Restoring(saved[1..]);
      RestoredInOrder(cfg, q, saved[1..]);
      var before := Run(cfg, q, Restoring(saved[1..])).queue;
      var r := Run(cfg, q, steps).queue;
      assert r[1..] == before;
      assert r[|saved|..] == before[|saved| - 1..];
      forall k | 0 <= k < |saved|
        ensures r[k] == saved[k].(id := r[k].id)
      {
        if k > 0 {
          assert r[k] == before[k - 1];
        }
      }
    }
  }

  // ---- No bounce of a bounce ----

  /** The HLR's global mapping does not rename the bounce code when it is asked to. */
  ghost predicate MapsCodeToItself(cfg: Config, q: Q, s: Step) {
    s.Timer? && q.queue != [] && q.queue[0].fromUser == cfg.bounceCode && s.e.globalClid.Some?
    ==> s.e.globalClid.value == cfg.bounceCode
  }

  lemma CodeStaysKept(cfg: Config, q: Q, s: Step)
    requires StartsLikeNumber(cfg.bounceCode) && MapsCodeToItself(cfg, q, s)
    requires q.codeKept
    ensures Apply(cfg, q, s).codeKept
  {
  }

  lemma {:induction false} CodeKeptInRun(cfg: Config, start: int, steps: seq<Step>)
    requires StartsLikeNumber(cfg.bounceCode)
    requires forall k :: 0 <= k < |steps| ==> MapsCodeToItself(cfg, Run(cfg, Empty(start), steps[..k]), steps[k])
    ensures Run(cfg, Empty(start), steps).codeKept
    decreases |steps|
  {
    if steps != [] {
      var front := steps[..|steps| - 1];
      forall k | 0 <= k < |front|
        ensures MapsCodeToItself(cfg, Run(cfg, Empty(start), front[..k]), front[k])
      {
        assert front[..k] == steps[..k];
      }
      CodeKeptInRun(cfg, start, front);
      CodeStaysKept(cfg, Run(cfg, Empty(start), front), steps[|steps| - 1]);
    }
  }

  /** No lookup ever renames a queued bounce: over any run it keeps the bounce code as its sender, by
      which the program knows not to bounce it again. */
  lemma BouncesKeepSender(cfg: Config, start: int, steps: seq<Step>, i: nat)
    requires StepsOk(steps)
    requires StartsLikeNumber(cfg.bounceCode)
    requires forall k :: 0 <= k < |steps| ==> MapsCodeToItself(cfg, Run(cfg, Empty(start), steps[..k]), steps[k])
    requires var q := Run(cfg, Empty(start), steps);
             i < |q.queue| && q.queue[i].id < |q.born| && q.born[q.queue[i].id].origin.BounceOf?
    ensures Run(cfg, Empty(start), steps).queue[i].fromUser == cfg.bounceCode
  {
    var q := Run(cfg, Empty(start), steps);
    RunKeeps(cfg, start, steps);
    CodeKeptInRun(cfg, start, steps);
    assert EntryOk(cfg, q.born, q.sent, q.codeKept, q.queue[i]);
  }

  /** Bounce chains have length one: over any run, what was bounced is itself no bounce. The bounce
      code must look like a number and the HLR must map it to itself. */
  lemma NoBounceOfABounce(cfg: Config, start: int, steps: seq<Step>, child: nat)
    requires StepsOk(steps)
    requires StartsLikeNumber(cfg.bounceCode)
    requires forall k :: 0 <= k < |steps| ==> MapsCodeToItself(cfg, Run(cfg, Empty(start), steps[..k]), steps[k])
    requires var born := Run(cfg, Empty(start), steps).born;
             child < |born| && born[child].origin.BounceOf?
    ensures var born := Run(cfg, Empty(start), steps).born;
            var parent := born[child].origin.parent;
            parent < child && !born[parent].origin.BounceOf?
  {
    var q := Run(cfg, Empty(start), steps);
    RunKeeps(cfg, start, steps);
    CodeKeptInRun(cfg, start, steps);
    assert BirthOk(q.born, q.codeKept, child, q.born[child]);
  }
}
