/** set_state only moves one entry, and no message enters or leaves the queue except by the
    few ways that are meant to. */
module Conservation {
  import opened Wrappers
  import opened Messages
  import opened Tags
  import opened Lookups
  import opened QueueOps
  import opened QueueSteps
  import opened QueueInvariants
  import opened QueueRuns

  // ---- set_state ----

  /** Inserting and taking out again is the identity. */
  lemma WithoutInserted(rest: seq<Msg>, p: nat, m: Msg)
    requires p <= |rest|
    ensures Without(InsertAt(rest, p, m), p) == rest
  {
    forall k | 0 <= k < |rest|
      ensures Without(InsertAt(rest, p, m), p)[k] == rest[k]
    {
      WithoutAt(InsertAt(rest, p, m), p, k);
      InsertedAt(rest, p, m, if k < p then k else k + 1);
    }
  }

  /** set_state moves one entry and nothing else: the others keep their relative order, the entry
      changes only state and time, it stands after every earlier entry of the scan and right
      before the first one whose time is not smaller. */
  lemma SetStateMovesOne(cfg: Config, q: Q, i: nat, newState: SmState, t: int)
    requires i < |q.queue|
    ensures var r := SetState(cfg, q, i, newState, t);
            var time := ActionTime(cfg, q.queue[i], newState, t);
            var p := NewPos(q.queue, i, time);
            && Without(r.queue, p) == Without(q.queue, i)
            && r.queue[p] == q.queue[i].(state := newState, time := time)
            && (forall k :: 0 <= k < p ==> r.queue[k].time < time)
            && (p + 1 < |r.queue| ==> time <= r.queue[p + 1].time)
  {
    var r := SetState(cfg, q, i, newState, t);
    var time := ActionTime(cfg, q.queue[i], newState, t);
    var p := NewPos(q.queue, i, time);
    var m := q.queue[i].(state := newState, time := time);
    var rest := Without(q.queue, i);
    WithoutInserted(rest, p, m);
    forall k | 0 <= k < p
      ensures r.queue[k].time < time
    {
      InsertedAt(rest, p, m, k);
    }
    if p + 1 < |r.queue| {
      InsertedAt(rest, p, m, p + 1);
    }
    InsertedAt(rest, p, m, p);
  }

  /** As a bag of messages the queue loses the old version of the entry and gains the new one. */
  lemma MoveKeepsMessages(queue: seq<Msg>, i: nat, p: nat, m: Msg)
    requires i < |queue| && p < |queue|
    ensures multiset(InsertAt(Without(queue, i), p, m)) == multiset(queue) - multiset{queue[i]} + multiset{m}
  {
    var rest := Without(queue, i);
    assert queue == queue[..i] + [queue[i]] + queue[i + 1..];
    assert multiset(queue) == multiset(rest) + multiset{queue[i]};
    assert rest == rest[..p] + rest[p..];
    assert multiset(InsertAt(rest, p, m)) == multiset(rest) + multiset{m};
  }

  // ---- Who is in the queue ----

  function Ids(queue: seq<Msg>): set<nat> {
    set m | m in queue :: m.id
  }

  lemma IdsSplit(a: seq<Msg>, b: seq<Msg>)
    ensures Ids(a + b) == Ids(a) + Ids(b)
  {
    forall id | id in Ids(a) + Ids(b)
      ensures id in Ids(a + b)
    {
      if id in Ids(a) {
        var m :| m in a && m.id == id;
        assert m in a + b;
      } else {
        var m :| m in b && m.id == id;
        assert m in a + b;
      }
    }
  }

  lemma IdsOne(m: Msg)
    ensures Ids([m]) == {m.id}
  {
    assert m in [m];
  }

  lemma IdsInserted(rest: seq<Msg>, p: nat, m: Msg)
    requires p <= |rest|
    ensures Ids(InsertAt(rest, p, m)) == Ids(rest) + {m.id}
  {
    IdsSplit(rest[..p] + [m], rest[p..]);
    IdsSplit(rest[..p], [m]);
    IdsSplit(rest[..p], rest[p..]);
    IdsOne(m);
    assert rest == rest[..p] + rest[p..];
  }

  lemma IdsWithout(queue: seq<Msg>, i: nat)
    requires i < |queue|
    ensures Ids(queue) == Ids(Without(queue, i)) + {queue[i].id}
  {
    IdsInserted(Without(queue, i), i, queue[i]);
    Reinserted(queue, i, queue[i]);
  }

  lemma IdsRequeue(q: Q, i: nat, newState: SmState, time: int, t: int)
    requires i < |q.queue|
    ensures Ids(Requeue(q, i, newState, time, t).queue) == Ids(q.queue)
  {
    IdsWithout(q.queue, i);
    IdsInserted(Without(q.queue, i), NewPos(q.queue, i, time), q.queue[i].(state := newState, time := time));
  }

  lemma IdsReplace(queue: seq<Msg>, i: nat, m: Msg)
    requires i < |queue| && m.id == queue[i].id
    ensures Ids(queue[i := m]) == Ids(queue)
  {
    IdsInserted(Without(queue, i), i, m);
    IdsWithout(queue, i);
    Reinserted(queue, i, m);
  }

  lemma IdsDrop(queue: seq<Msg>, i: nat, horizon: int)
    requires OrderOk(queue, horizon) && i < |queue|
    ensures Ids(Without(queue, i)) == Ids(queue) - {queue[i].id}
  {
    IdsWithout(queue, i);
    forall m | m in Without(queue, i)
      ensures m.id != queue[i].id
    {
      var k :| 0 <= k < |Without(queue, i)| && Without(queue, i)[k] == m;
      WithoutAt(queue, i, k);
      assert k < i ==> PairOk(queue[k], queue[i], horizon);
      assert i <= k ==> PairOk(queue[i], queue[k + 1], horizon);
    }
  }

  lemma IdsFront(m: Msg, queue: seq<Msg>)
    ensures Ids([m] + queue) == Ids(queue) + {m.id}
  {
    IdsSplit([m], queue);
    IdsOne(m);
  }

  // ---- What a step lets go ----

  /** The identities that a step removes. */
  function Leaving(q: Q, s: Step): set<nat> {
    if !s.Timer? || !Due(q, s.e.now) then {}
    else
      var head := q.queue[0];
      if head.state == NoState || head.state == DeleteMe then {head.id}
      else if head.state == Initial && head.kind.Response? then
        var rest := Without(q.queue, 0);
        var i := FirstWithTag(rest, head.qtag);
        {head.id} + (if head.kind.status / 100 == 2 && i < |rest| then {rest[i].id} else {})
      else {}
  }

  /** The identity that a step adds, if any. */
  function Entering(q: Q, r: Q): set<nat> {
    if |q.born| < |r.born| then {|q.born|} else {}
  }

  ghost predicate Exchanges(q: Q, r: Q, gone: set<nat>) {
    |r.born| <= |q.born| + 1 && Ids(r.queue) == Ids(q.queue) - gone + Entering(q, r)
  }

  lemma EditSetStateExchanges(cfg: Config, q: Q, i: nat, m: Msg, newState: SmState, t: int)
    requires i < |q.queue| && m.id == q.queue[i].id
    ensures Exchanges(q, EditSetState(cfg, q, i, m, newState, t), {})
  {
    IdsReplace(q.queue, i, m);
    IdsRequeue(Edit(cfg, q, i, m), i, newState, ActionTime(cfg, m, newState, t), t);
  }

  lemma SetStateExchanges(cfg: Config, q: Q, i: nat, newState: SmState, t: int)
    requires i < |q.queue|
    ensures Exchanges(q, SetState(cfg, q, i, newState, t), {})
  {
    IdsRequeue(q, i, newState, ActionTime(cfg, q.queue[i], newState, t), t);
  }

  lemma PushFrontExchanges(cfg: Config, q: Q, m: Msg, origin: Origin, state: SmState, t: int)
    ensures Exchanges(q, PushFront(cfg, q, m, origin, state, t), {})
  {
    IdsFront(PushFront(cfg, q, m, origin, state, t).queue[0], q.queue);
  }

  lemma SpawnSetStateExchanges(cfg: Config, q: Q, i: nat, m: Msg, origin: Origin, state: SmState, tInsert: int,
                               newState: SmState, t: int)
    requires i < |q.queue|
    ensures Exchanges(q, SpawnSetState(cfg, q, i, m, origin, state, tInsert, newState, t), {})
  {
    PushFrontExchanges(cfg, q, m, origin, state, tInsert);
    SetStateExchanges(cfg, PushFront(cfg, q, m, origin, state, tInsert), i + 1, newState, t);
  }

  lemma TouchExchanges(q: Q, i: nat, newState: SmState, time: int, t: int)
    requires i < |q.queue|
    ensures Exchanges(q, Touch(q, i, newState, time, t), {})
  {
    IdsReplace(q.queue, i, q.queue[i].(state := newState, time := time));
  }

  lemma RegisterStepExchanges(cfg: Config, q: Q, i: nat, e: TickInput)
    requires i < |q.queue|
    ensures Exchanges(q, RegisterStep(cfg, q, i, e), {})
  {
    if e.originateOk {
      SpawnSetStateExchanges(cfg, q, i, NewRegister(cfg, e, q.queue[i]), RegistrationFor(q.queue[i].id),
                             RequestMsgDelivery, e.tInsert, AskedToRegisterHandset, e.tLast);
    } else {
      SetStateExchanges(cfg, q, i, DeleteMe, e.tLast);
    }
  }

  lemma ShortCodeStepExchanges(cfg: Config, q: Q, action: ShortCodeAction, e: TickInput)
    requires q.queue != []
    ensures Exchanges(q, ShortCodeStep(cfg, q, action, e), {})
  {
    var m := q.queue[0];
    if action == Register {
      RegisterStepExchanges(cfg, q, 0, e);
    } else if action == Reply && e.originateOk {
      SpawnSetStateExchanges(cfg, q, 0, NewMessage(cfg, e, UserOf(m), m.fromUser), ReplyTo(m.id),
                             RequestDestinationSipUrl, e.tInsert, DeleteMe, e.tLast);
    } else {
      EditSetStateExchanges(cfg, q, 0, AfterAction(m, action), AnswerState(action), e.tLast);
    }
  }

  lemma StartRequestExchanges(cfg: Config, q: Q, e: TickInput)
    requires q.queue != [] && q.queue[0].kind.Request?
    ensures Exchanges(q, StartRequest(cfg, q, e), {})
  {
    if q.queue[0].kind.verb != MESSAGE {
      SetStateExchanges(cfg, q, 0, NoState, e.tLast);
    } else if e.shortCode.None? {
      SetStateExchanges(cfg, q, 0, RequestFromAddress, e.tLast);
    } else {
      ShortCodeStepExchanges(cfg, q, e.shortCode.value, e);
    }
  }

  lemma LookupFromStepExchanges(cfg: Config, q: Q, i: nat, e: TickInput)
    requires i < |q.queue|
    ensures Exchanges(q, LookupFromStep(cfg, q, i, e), {})
  {
    var (newState, from) := LookupFromAddress(q.queue[i].fromUser, e.headerOk, e.clid);
    EditSetStateExchanges(cfg, q, i, q.queue[i].(fromUser := from), newState, e.tLast);
  }

  lemma LookupImsiStepExchanges(cfg: Config, q: Q, e: TickInput)
    requires q.queue != []
    ensures Exchanges(q, LookupImsiStep(cfg, q, e), {})
  {
    var m := q.queue[0];
    match LookupUriImsi(cfg, m.fromUser, m.reqUser, e.headerOk, e.imsi, e.globalClid)
    case NotRoutable => SetStateExchanges(cfg, q, 0, NoState, e.tLast);
    case Routed(user) =>
      EditSetStateExchanges(cfg, q, 0, m.(reqUser := Some(user)), RequestDestinationSipUrl, e.tLast);
    case Relayed(from) =>
      EditSetStateExchanges(cfg, q, 0, m.(fromUser := from, forRelay := true), RequestDestinationSipUrl, e.tLast);
    case Undeliverable =>
      if Bounces(cfg, e, m) {
        SpawnSetStateExchanges(cfg, q, 0, BounceMessage(cfg, e, m), BounceOf(m.id), BounceState(m), e.tInsert,
                               DeleteMe, e.tLast);
      } else {
        SetStateExchanges(cfg, q, 0, NoState, e.tLast);
      }
  }

  lemma LookupHostStepExchanges(cfg: Config, q: Q, e: TickInput)
    requires q.queue != []
    ensures Exchanges(q, LookupHostStep(cfg, q, e), {})
  {
    var m := q.queue[0];
    if m.reqUser.None? {
      SetStateExchanges(cfg, q, 0, NoState, e.tLast);
    } else {
      EditSetStateExchanges(cfg, q, 0, Located(cfg, m, m.reqUser.value, e), RequestMsgDelivery, e.tLast);
    }
  }

  lemma SameExchanges(q: Q, r: Q, s: Q, leaving: set<nat>)
    requires r == s && Exchanges(q, s, leaving)
    ensures Exchanges(q, r, leaving)
  {
  }

  lemma AttemptExchanges(cfg: Config, q: Q, i: nat, e: TickInput)
    requires i < |q.queue|
    ensures Exchanges(q, Attempt(cfg, q, i, e), {})
  {
    var m := q.queue[i];
    var r := Attempt(cfg, q, i, e);
    if !e.packOk || (cfg.maxRetries > 0 && m.retries > cfg.maxRetries) {
      var newState := if e.packOk then DeleteMe else NoState;
      GiveUpCase(cfg, q, i, e);
      SetStateExchanges(cfg, q, i, newState, e.tLast);
      SameExchanges(q, r, SetState(cfg, q, i, newState, e.tLast), {});
    } else if cfg.rateLimit > 0 && cfg.rateLimit >= e.elapsed {
      WaitCase(cfg, q, i, e);
      TouchExchanges(q, i, m.state, m.time + cfg.rateLimit, q.clock);
      SameExchanges(q, r, Touch(q, i, m.state, m.time + cfg.rateLimit, q.clock), {});
    } else {
      SendCase(cfg, q, i, e);
      SetStateExchanges(cfg, Send(q, i), i, AskedForMsgDelivery, e.tLast);
      SameExchanges(q, r, SetState(cfg, Send(q, i), i, AskedForMsgDelivery, e.tLast), {});
    }
  }

  lemma CountTryExchanges(cfg: Config, q: Q, i: nat)
    requires i < |q.queue|
    ensures Ids(CountTry(cfg, q, i).queue) == Ids(q.queue) && CountTry(cfg, q, i).born == q.born
  {
    IdsReplace(q.queue, i, q.queue[i].(retries := q.queue[i].retries + 1));
  }

  lemma DeliverStepExchanges(cfg: Config, q: Q, i: nat, e: TickInput)
    requires i < |q.queue|
    ensures Exchanges(q, DeliverStep(cfg, q, i, e), {})
  {
    CountTryExchanges(cfg, q, i);
    AttemptExchanges(cfg, CountTry(cfg, q, i), i, e);
  }

  lemma RetryStepExchanges(cfg: Config, q: Q, e: TickInput)
    requires q.queue != []
    ensures Exchanges(q, RetryStep(cfg, q, e), {})
  {
    SetStateExchanges(cfg, q, 0, RequestMsgDelivery, e.tFirst);
    DeliverStepExchanges(cfg, SetState(cfg, q, 0, RequestMsgDelivery, e.tFirst),
                         NewPos(q.queue, 0, ActionTime(cfg, q.queue[0], RequestMsgDelivery, e.tFirst)), e);
  }

  lemma AwaitRegisterStepExchanges(cfg: Config, q: Q, e: TickInput)
    requires q.queue != []
    ensures Exchanges(q, AwaitRegisterStep(cfg, q, e), {})
  {
    if e.clid.None? {
      SetStateExchanges(cfg, q, 0, AwaitingRegisterHandset, e.tLast);
    } else {
      SetStateExchanges(cfg, q, 0, RegisterHandset, e.tFirst);
      RegisterStepExchanges(cfg, SetState(cfg, q, 0, RegisterHandset, e.tFirst),
                            NewPos(q.queue, 0, ActionTime(cfg, q.queue[0], RegisterHandset, e.tFirst)), e);
    }
  }

  lemma RestartStepExchanges(cfg: Config, q: Q, e: TickInput)
    requires q.queue != []
    ensures Exchanges(q, RestartStep(cfg, q, e), {})
  {
    SetStateExchanges(cfg, q, 0, Initial, e.tFirst);
    LookupFromStepExchanges(cfg, SetState(cfg, q, 0, Initial, e.tFirst),
                            NewPos(q.queue, 0, ActionTime(cfg, q.queue[0], Initial, e.tFirst)), e);
  }

  /** The freed SMS is changed in place, which is no change of identities or of order. */
  lemma FreeLinkedSmsExchanges(cfg: Config, q: Q, i: nat, e: TickInput)
    requires i < |q.queue| && OrderOk(q.queue, q.horizon)
    ensures var r := FreeLinkedSms(cfg, q, i, e);
            Exchanges(q, r, {}) && r.born == q.born && OrderOk(r.queue, r.horizon) && r.queue[i].id == q.queue[i].id
  {
    var link := q.queue[i].linktag;
    if link.Some? {
      var j := FirstWithTag(q.queue, link.value);
      if j < |q.queue| && IsRegistrationState(q.queue[j].state) {
        TouchExchanges(q, j, Initial, ActionTime(cfg, q.queue[j], Initial, e.tLast), e.tLast);
      }
    }
    var r := FreeLinkedSms(cfg, q, i, e);
    forall k, l | 0 <= k < l < |r.queue|
      ensures PairOk(r.queue[k], r.queue[l], r.horizon)
    {
      assert PairOk(q.queue[k], q.queue[l], q.horizon);
    }
  }

  lemma AcknowledgedExchanges(cfg: Config, q: Q, i: nat, e: TickInput)
    requires i < |q.queue| && OrderOk(q.queue, q.horizon)
    ensures Exchanges(q, Acknowledged(cfg, q, i, e), {q.queue[i].id})
  {
    if q.queue[i].kind == Request(REGISTER) {
      FreeLinkedSmsExchanges(cfg, q, i, e);
      var r := FreeLinkedSms(cfg, q, i, e);
      IdsDrop(r.queue, i, r.horizon);
    } else {
      IdsDrop(q.queue, i, q.horizon);
    }
  }

  lemma AnsweredExchanges(cfg: Config, q: Q, i: nat, status: nat, e: TickInput)
    requires i < |q.queue| && OrderOk(q.queue, q.horizon)
    ensures Exchanges(q, Answered(cfg, q, i, status, e), if status / 100 == 2 then {q.queue[i].id} else {})
  {
    if status / 100 == 2 {
      AcknowledgedExchanges(cfg, q, i, e);
      SameExchanges(q, Answered(cfg, q, i, status, e), Acknowledged(cfg, q, i, e), {q.queue[i].id});
    } else {
      AnsweredInPlace(cfg, q, i, status, e);
    }
  }

  lemma AnsweredInPlace(cfg: Config, q: Q, i: nat, status: nat, e: TickInput)
    requires i < |q.queue| && status / 100 != 2
    ensures Exchanges(q, Answered(cfg, q, i, status, e), {})
  {
    var r := Answered(cfg, q, i, status, e);
    if r == Refused(cfg, q, i, e) {
      RefusedExchanges(cfg, q, i, e);
      SameExchanges(q, r, Refused(cfg, q, i, e), {});
    } else if r == IncreaseTimeout(cfg, q, i, e) {
      TouchExchanges(q, i, q.queue[i].state, e.tLast + cfg.ackTimeout, e.tLast);
      SameExchanges(q, r, IncreaseTimeout(cfg, q, i, e), {});
    } else if r == Redirected(cfg, q, i, e) {
      var time := ActionTime(cfg, q.queue[i], RequestDestinationImsi, e.tLast);
      TouchExchanges(q, i, RequestDestinationImsi, time, e.tLast);
      SameExchanges(q, r, Redirected(cfg, q, i, e), {});
    } else {
      NothingExchanged(q);
      SameExchanges(q, r, q, {});
    }
  }

  lemma NothingExchanged(q: Q)
    ensures Exchanges(q, q, {})
  {
  }

  lemma RefusedExchanges(cfg: Config, q: Q, i: nat, e: TickInput)
    requires i < |q.queue|
    ensures Exchanges(q, Refused(cfg, q, i, e), {})
  {
    var m := q.queue[i];
    if Bounces(cfg, e, m) {
      PushFrontExchanges(cfg, q, BounceMessage(cfg, e, m), BounceOf(m.id), BounceState(m), e.tInsert);
      TouchExchanges(PushFront(cfg, q, BounceMessage(cfg, e, m), BounceOf(m.id), BounceState(m), e.tInsert),
                     i + 1, DeleteMe, ActionTime(cfg, m, DeleteMe, e.tLast), e.tLast);
    } else {
      TouchExchanges(q, i, NoState, ActionTime(cfg, m, NoState, e.tLast), e.tLast);
    }
  }

  lemma HandleResponseExchanges(cfg: Config, q: Q, e: TickInput)
    requires Due(q, e.now) && q.queue[0].kind.Response? && q.queue[0].state == Initial
    requires OrderOk(q.queue, q.horizon)
    ensures Exchanges(q, HandleResponse(cfg, q, e), Leaving(q, Timer(e)))
  {
    var head := q.queue[0];
    var q1 := Drop(q, 0);
    IdsDrop(q.queue, 0, q.horizon);
    DropKeepsOrder(q.queue, 0, q.horizon);
    var i := FirstWithTag(q1.queue, head.qtag);
    if i < |q1.queue| {
      AnsweredExchanges(cfg, q1, i, head.kind.status, e);
    }
  }

  lemma LookupExchanges(cfg: Config, q: Q, e: TickInput)
    requires q.queue != []
    requires q.queue[0].state in {RequestFromAddress, RequestDestinationImsi, RequestDestinationSipUrl}
    ensures Exchanges(q, Process(cfg, q, e), {})
  {
    match q.queue[0].state
    case RequestFromAddress =>
      LookupFromCase(cfg, q, e);
      LookupFromStepExchanges(cfg, q, 0, e);
      SameExchanges(q, Process(cfg, q, e), LookupFromStep(cfg, q, 0, e), {});
    case RequestDestinationImsi =>
      LookupImsiCase(cfg, q, e);
      LookupImsiStepExchanges(cfg, q, e);
      SameExchanges(q, Process(cfg, q, e), LookupImsiStep(cfg, q, e), {});
    case RequestDestinationSipUrl =>
      LookupHostCase(cfg, q, e);
      LookupHostStepExchanges(cfg, q, e);
      SameExchanges(q, Process(cfg, q, e), LookupHostStep(cfg, q, e), {});
  }

  lemma DeliveryExchanges(cfg: Config, q: Q, e: TickInput)
    requires q.queue != []
    requires q.queue[0].state in {RequestMsgDelivery, AskedForMsgDelivery}
    ensures Exchanges(q, Process(cfg, q, e), {})
  {
    if q.queue[0].state == RequestMsgDelivery {
      DeliverCase(cfg, q, e);
      DeliverStepExchanges(cfg, q, 0, e);
      SameExchanges(q, Process(cfg, q, e), DeliverStep(cfg, q, 0, e), {});
    } else {
      AskedCase(cfg, q, e);
      SetStateExchanges(cfg, q, 0, AwaitingTryMsgDelivery, e.tLast);
      SameExchanges(q, Process(cfg, q, e), SetState(cfg, q, 0, AwaitingTryMsgDelivery, e.tLast), {});
    }
  }

  lemma RegistrationExchanges(cfg: Config, q: Q, e: TickInput)
    requires q.queue != [] && IsRegistrationState(q.queue[0].state)
    ensures Exchanges(q, Process(cfg, q, e), {})
  {
    match q.queue[0].state
    case AwaitingRegisterHandset =>
      AwaitRegisterCase(cfg, q, e);
      AwaitRegisterStepExchanges(cfg, q, e);
      SameExchanges(q, Process(cfg, q, e), AwaitRegisterStep(cfg, q, e), {});
    case RegisterHandset =>
      RegisterCase(cfg, q, e);
      RegisterStepExchanges(cfg, q, 0, e);
      SameExchanges(q, Process(cfg, q, e), RegisterStep(cfg, q, 0, e), {});
    case AskedToRegisterHandset =>
      AskedToRegisterCase(cfg, q, e);
      SetStateExchanges(cfg, q, 0, AwaitingRegisterHandset, e.tLast);
      SameExchanges(q, Process(cfg, q, e), SetState(cfg, q, 0, AwaitingRegisterHandset, e.tLast), {});
  }

  lemma WorkExchanges(cfg: Config, q: Q, e: TickInput)
    requires q.queue != []
    requires q.queue[0].state !in {Initial, NoState, DeleteMe}
    ensures Exchanges(q, Process(cfg, q, e), {})
  {
    var s := q.queue[0].state;
    if s in {RequestFromAddress, RequestDestinationImsi, RequestDestinationSipUrl} {
      LookupExchanges(cfg, q, e);
    } else if s == AwaitingTryMsgDelivery {
      RetryCase(cfg, q, e);
      RetryStepExchanges(cfg, q, e);
      SameExchanges(q, Process(cfg, q, e), RetryStep(cfg, q, e), {});
    } else if s in {RequestMsgDelivery, AskedForMsgDelivery} {
      DeliveryExchanges(cfg, q, e);
    } else if IsRegistrationState(s) {
      RegistrationExchanges(cfg, q, e);
    } else {
      RestartCase(cfg, q, e);
      RestartStepExchanges(cfg, q, e);
      SameExchanges(q, Process(cfg, q, e), RestartStep(cfg, q, e), {});
    }
  }

  lemma ProcessExchanges(cfg: Config, q: Q, e: TickInput)
    requires Due(q, e.now) && OrderOk(q.queue, q.horizon)
    ensures Exchanges(q, Process(cfg, q, e), Leaving(q, Timer(e)))
  {
    if q.queue[0].state == NoState || q.queue[0].state == DeleteMe {
      IdsDrop(q.queue, 0, q.horizon);
    } else if q.queue[0].state != Initial {
      WorkExchanges(cfg, q, e);
    } else if q.queue[0].kind.Response? {
      HandleResponseExchanges(cfg, q, e);
    } else {
      StartRequestExchanges(cfg, q, e);
    }
  }

  /** One step: the queue afterwards holds what it held, less what the step removes, plus what
      was born in it. */
  lemma TickConserves(cfg: Config, q: Q, e: TickInput)
    requires Valid(cfg, q)
    ensures Exchanges(q, Tick(cfg, q, e), Leaving(q, Timer(e)))
  {
    var q0 := ReadClock(q, e.now);
    if Due(q0, e.now) {
      ProcessExchanges(cfg, q0, e);
      SameExchanges(q0, Tick(cfg, q, e), Process(cfg, q0, e), Leaving(q0, Timer(e)));
    } else {
      NothingExchanged(q);
    }
  }

  lemma StepConserves(cfg: Config, q: Q, s: Step)
    requires Valid(cfg, q)
    ensures Exchanges(q, Apply(cfg, q, s), Leaving(q, s))
  {
    match s
    case Arrive(m, t) =>
      PushFrontExchanges(cfg, q, m, FromNetwork, Initial, t);
      SameExchanges(q, Apply(cfg, q, s), PushFront(cfg, q, m, FromNetwork, Initial, t), {});
    case ReadBack(m, state, time) =>
      IdsFront(Restore(q, m, state, time).queue[0], q.queue);
    case Timer(e) =>
      TickConserves(cfg, q, e);
      SameExchanges(q, Apply(cfg, q, s), Tick(cfg, q, e), Leaving(q, s));
  }

  lemma LeavingWasQueued(q: Q, s: Step)
    ensures Leaving(q, s) <= Ids(q.queue)
  {
    if s.Timer? && Due(q, s.e.now) {
      IdsWithout(q.queue, 0);
      var rest := Without(q.queue, 0);
      var i := FirstWithTag(rest, q.queue[0].qtag);
      if i < |rest| {
        assert rest[i] in rest;
      }
    }
  }

  /** Everything that the steps of a run have removed. */
  function Gone(cfg: Config, start: int, steps: seq<Step>): set<nat>
    decreases |steps|
  {
    if steps == [] then {}
    else
      var front := steps[..|steps| - 1];
      Gone(cfg, start, front) + Leaving(Run(cfg, Empty(start), front), steps[|steps| - 1])
  }

  /** Queued and gone identities split everything born so far. */
  ghost predicate Partition(queued: set<nat>, gone: set<nat>, born: nat) {
    queued !! gone && forall id: nat :: id in queued + gone <==> id < born
  }

  lemma PartitionStep(queued: set<nat>, gone: set<nat>, born: nat, leaving: set<nat>, more: bool)
    requires Partition(queued, gone, born) && leaving <= queued
    ensures var entering := if more then {born} else {};
            Partition(queued - leaving + entering, gone + leaving, born + |entering|)
  {
    var entering := if more then {born} else {};
    assert born !in queued + gone;
    forall id: nat
      ensures id in queued - leaving + entering + (gone + leaving) <==> id < born + |entering|
    {
      assert id in queued + gone <==> id < born;
    }
  }

  /** Over any run, every message ever queued is in exactly one place: still in the queue, or gone
      in a step that processed it in NO_STATE or DELETE_ME, consumed it as a response, or
      acknowledged it by a 2xx response with its tag. */
  lemma {:induction false} RunConserves(cfg: Config, start: int, steps: seq<Step>)
    requires StepsOk(steps)
    ensures var r := Run(cfg, Empty(start), steps);
            Partition(Ids(r.queue), Gone(cfg, start, steps), |r.born|)
    decreases |steps|
  {
    if steps != [] {
      var front, s := steps[..|steps| - 1], steps[|steps| - 1];
      var q := Run(cfg, Empty(start), front);
      var r := Run(cfg, Empty(start), steps);
      RunConserves(cfg, start, front);
      RunKeeps(cfg, start, front);
      StepConserves(cfg, q, s);
      LeavingWasQueued(q, s);
      assert |q.born| <= |r.born| by {
        RunExtends(cfg, Empty(start), steps, |front|);
        assert steps[..|front|] == front;
      }
      PartitionStep(Ids(q.queue), Gone(cfg, start, front), |q.born|, Leaving(q, s), |q.born| < |r.born|);
    }
  }
}
