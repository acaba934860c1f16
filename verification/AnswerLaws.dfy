/** What a SIP answer does to the request it answers, status class by status class. */
module AnswerLaws {
  import opened Wrappers
  import opened Messages
  import opened Tags
  import opened Lookups
  import opened QueueOps
  import opened QueueSteps
  import opened Outcomes
  import opened LookupLaws

  /** The head is a due response with this status. */
  ghost predicate DueResponse(q: Q, e: TickInput, status: nat) {
    DueIn(q, e, Initial) && q.queue[0].kind == Response(status)
  }

  /** Entry i of the other ones is the first that carries the tag of the head. */
  ghost predicate Answers(q: Q, i: nat) {
    && q.queue != [] && i < |q.queue| - 1
    && q.queue[i + 1].qtag == q.queue[0].qtag
    && forall k :: 1 <= k <= i ==> q.queue[k].qtag != q.queue[0].qtag
  }

  /** The queue once the response has left it. */
  function Rest(q: Q, e: TickInput): (r: Q)
    requires q.queue != []
    ensures r.queue == q.queue[1..] && r.born == q.born && r.sent == q.sent
  {
    Drop(ReadClock(q, e.now), 0)
  }

  lemma ResponseTick(cfg: Config, q: Q, e: TickInput, status: nat)
    requires DueResponse(q, e, status)
    ensures Tick(cfg, q, e) == HandleResponse(cfg, ReadClock(q, e.now), e)
  {
    DueTick(cfg, q, e);
  }

  lemma FirstBehind(rest: seq<Msg>, tag: string, i: nat)
    requires i <= |rest| && (i < |rest| ==> rest[i].qtag == tag)
    requires forall k :: 0 <= k < i ==> rest[k].qtag != tag
    ensures FirstWithTag(rest, tag) == i
  {
  }

  lemma ResponseStep(cfg: Config, q: Q, e: TickInput, status: nat, i: nat)
    requires q.queue != [] && q.queue[0].kind == Response(status) && i < |q.queue|
    requires FirstWithTag(q.queue[1..], q.queue[0].qtag) == i
    ensures HandleResponse(cfg, q, e)
            == if i == |q.queue| - 1 then Drop(q, 0) else Answered(cfg, Drop(q, 0), i, status, e)
  {
    assert Drop(q, 0).queue == q.queue[1..];
  }

  lemma AnswerTick(cfg: Config, q: Q, e: TickInput, status: nat, i: nat)
    requires DueResponse(q, e, status) && Answers(q, i)
    ensures Tick(cfg, q, e) == Answered(cfg, Rest(q, e), i, status, e)
  {
    FirstBehind(q.queue[1..], q.queue[0].qtag, i);
    ResponseTick(cfg, q, e, status);
    ResponseStep(cfg, ReadClock(q, e.now), e, status, i);
  }

  /** A response to no queued message only leaves the queue. */
  lemma UnknownAnswer(cfg: Config, q: Q, e: TickInput, status: nat)
    requires DueResponse(q, e, status)
    requires forall k :: 1 <= k < |q.queue| ==> q.queue[k].qtag != q.queue[0].qtag
    ensures var r := Tick(cfg, q, e);
            r.queue == q.queue[1..] && r.born == q.born && r.sent == q.sent
  {
    FirstBehind(q.queue[1..], q.queue[0].qtag, |q.queue| - 1);
    ResponseTick(cfg, q, e, status);
    ResponseStep(cfg, ReadClock(q, e.now), e, status, |q.queue| - 1);
    assert Rest(q, e).queue == q.queue[1..];
  }

  /** Only entry i of the queue behind the response has changed, where it stands; nothing is born and
      nothing is sent. */
  ghost predicate Changed(q: Q, i: nat, m: Msg, r: Q)
    requires q.queue != [] && i < |q.queue| - 1
  {
    r.queue == q.queue[1..][i := m] && r.born == q.born && r.sent == q.sent
  }

  lemma HeldStep(cfg: Config, q: Q, i: nat, status: nat, e: TickInput)
    requires i < |q.queue| && (100 <= status < 200 || 500 <= status < 600 || status == 480 || status == 486)
    ensures Answered(cfg, q, i, status, e) == Touch(q, i, q.queue[i].state, e.tLast + cfg.ackTimeout, e.tLast)
  {
  }

  /** 1xx and 5xx, 480 Temporarily Unavailable and 486 Busy Here: the request waits for the configured
      time and stays in its state. */
  lemma AnswerHolds(cfg: Config, q: Q, e: TickInput, status: nat, i: nat)
    requires DueResponse(q, e, status) && Answers(q, i)
    requires 100 <= status < 200 || 500 <= status < 600 || status == 480 || status == 486
    ensures Changed(q, i, q.queue[i + 1].(time := e.tLast + cfg.ackTimeout), Tick(cfg, q, e))
  {
    AnswerTick(cfg, q, e, status, i);
    HeldStep(cfg, Rest(q, e), i, status, e);
  }

  /** Every other 4xx is a refusal. */
  predicate IsRefusal(status: nat) {
    400 <= status < 500 && status != 480 && status != 486
  }

  lemma RefusedStep(cfg: Config, q: Q, i: nat, status: nat, e: TickInput)
    requires i < |q.queue| && IsRefusal(status)
    ensures Answered(cfg, q, i, status, e) == Refused(cfg, q, i, e)
  {
  }

  /** Message b stands at the front, and entry i waits for its deletion. */
  ghost predicate BouncedBy(cfg: Config, q: Q, i: nat, e: TickInput, b: Msg, r: Q)
    requires i < |q.queue|
  {
    var m := q.queue[i];
    var wait := if m.state == RequestDestinationImsi then cfg.bounceDelay else 0;
    && r.queue == [b] + q.queue[i := m.(state := DeleteMe, time := e.tLast + wait)]
    && r.born == q.born + [Birth(b.qtag, BounceOf(m.id))] && r.sent == q.sent
  }

  lemma BouncedStep(cfg: Config, q: Q, i: nat, e: TickInput)
    requires i < |q.queue| && q.queue[i].fromUser != cfg.bounceCode && e.originateOk
    ensures BouncedBy(cfg, q, i, e, QueuedBounce(cfg, q.queue[i], e, |q.born|), Refused(cfg, q, i, e))
  {
    var m := q.queue[i];
    NoWait(cfg, m);
    FrontIs(cfg, q, BounceMessage(cfg, e, m), BounceOf(m.id), BounceState(m), e.tInsert);
  }

  lemma BounceTick(cfg: Config, q: Q, e: TickInput, status: nat, i: nat)
    requires DueResponse(q, e, status) && Answers(q, i) && IsRefusal(status)
    requires q.queue[i + 1].fromUser != cfg.bounceCode && e.originateOk
    ensures BouncedBy(cfg, Rest(q, e), i, e, QueuedBounce(cfg, q.queue[i + 1], e, |q.born|), Tick(cfg, q, e))
  {
    AnswerTick(cfg, q, e, status, i);
    RefusedStep(cfg, Rest(q, e), i, status, e);
    BouncedStep(cfg, Rest(q, e), i, e);
  }

  /** A refused request waits for its deletion, and one message from the bounce code to its sender
      stands at the front. */
  lemma AnswerBounces(cfg: Config, q: Q, e: TickInput, status: nat, i: nat)
    requires DueResponse(q, e, status) && Answers(q, i) && IsRefusal(status)
    requires q.queue[i + 1].fromUser != cfg.bounceCode && e.originateOk
    ensures exists b :: && IsBounce(cfg, q.queue[i + 1], e, |q.born|, b)
                        && BouncedBy(cfg, Rest(q, e), i, e, b, Tick(cfg, q, e))
  {
    BounceTick(cfg, q, e, status, i);
    BounceFields(cfg, q.queue[i + 1], e, |q.born|);
  }

  lemma NotBouncedStep(cfg: Config, q: Q, i: nat, e: TickInput)
    requires i < |q.queue| && (q.queue[i].fromUser == cfg.bounceCode || !e.originateOk)
    ensures Refused(cfg, q, i, e)
            == Touch(q, i, NoState, e.tLast + if q.queue[i].state == NoState then 3_000_000 else 0, e.tLast)
  {
  }

  /** A refused bounce, or a request whose bounce cannot be made, is in error. */
  lemma AnswerFails(cfg: Config, q: Q, e: TickInput, status: nat, i: nat)
    requires DueResponse(q, e, status) && Answers(q, i) && IsRefusal(status)
    requires q.queue[i + 1].fromUser == cfg.bounceCode || !e.originateOk
    ensures var m := q.queue[i + 1];
            var wait := if m.state == NoState then 3_000_000 else 0;
            Changed(q, i, m.(state := NoState, time := e.tLast + wait), Tick(cfg, q, e))
  {
    AnswerTick(cfg, q, e, status, i);
    RefusedStep(cfg, Rest(q, e), i, status, e);
    NotBouncedStep(cfg, Rest(q, e), i, e);
  }

  lemma RedirectedStep(cfg: Config, q: Q, i: nat, status: nat, e: TickInput)
    requires i < |q.queue| && (300 <= status < 400 || 600 <= status < 700)
    ensures var wait := if q.queue[i].state in {NoState, RequestFromAddress, DeleteMe} then 0 else 3_000_000;
            Answered(cfg, q, i, status, e) == Touch(q, i, RequestDestinationImsi, e.tLast + wait, e.tLast)
  {
  }

  /** 3xx and 6xx: the destination is looked up again, after 50 minutes for a request that was sent. */
  lemma AnswerRedirects(cfg: Config, q: Q, e: TickInput, status: nat, i: nat)
    requires DueResponse(q, e, status) && Answers(q, i) && (300 <= status < 400 || 600 <= status < 700)
    ensures var m := q.queue[i + 1];
            var wait := if m.state in {NoState, RequestFromAddress, DeleteMe} then 0 else 3_000_000;
            Changed(q, i, m.(state := RequestDestinationImsi, time := e.tLast + wait), Tick(cfg, q, e))
  {
    AnswerTick(cfg, q, e, status, i);
    RedirectedStep(cfg, Rest(q, e), i, status, e);
  }

  /** A status outside the six classes changes nothing. */
  lemma AnswerIgnored(cfg: Config, q: Q, e: TickInput, status: nat, i: nat)
    requires DueResponse(q, e, status) && Answers(q, i) && (status < 100 || status >= 700)
    ensures Changed(q, i, q.queue[i + 1], Tick(cfg, q, e))
  {
    AnswerTick(cfg, q, e, status, i);
    assert Answered(cfg, Rest(q, e), i, status, e) == Rest(q, e);
  }

  lemma AcknowledgedStep(cfg: Config, q: Q, i: nat, status: nat, e: TickInput)
    requires i < |q.queue| && 200 <= status < 300 && q.queue[i].kind != Request(REGISTER)
    ensures Answered(cfg, q, i, status, e) == Drop(q, i)
  {
  }

  /** 2xx: the request leaves the queue too. */
  lemma AnswerCompletes(cfg: Config, q: Q, e: TickInput, status: nat, i: nat)
    requires DueResponse(q, e, status) && Answers(q, i) && 200 <= status < 300
    requires q.queue[i + 1].kind != Request(REGISTER)
    ensures var r := Tick(cfg, q, e);
            r.queue == q.queue[1..i + 1] + q.queue[i + 2..] && r.born == q.born && r.sent == q.sent
  {
    AnswerTick(cfg, q, e, status, i);
    AcknowledgedStep(cfg, Rest(q, e), i, status, e);
    RestWithout(q.queue, i);
  }

  lemma RestWithout(queue: seq<Msg>, i: nat)
    requires i + 1 < |queue|
    ensures Without(queue[1..], i) == queue[1..i + 1] + queue[i + 2..]
  {
  }
}
