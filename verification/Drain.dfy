/** Left to itself the queue drains: with a retry limit the number of process_timeout calls
    that act is bounded in advance by a sum of weights, one per queued message. */
module Drain {
  import opened Wrappers
  import opened Messages
  import opened Tags
  import opened Lookups
  import opened QueueOps
  import opened QueueSteps
  import opened QueueInvariants

  // ---- Sums over the queue ----

  function Sum(f: Msg -> nat, queue: seq<Msg>): nat {
    if queue == [] then 0 else f(queue[0]) + Sum(f, queue[1..])
  }

  lemma {:induction false} SumInserted(f: Msg -> nat, rest: seq<Msg>, p: nat, m: Msg)
    requires p <= |rest|
    ensures Sum(f, InsertAt(rest, p, m)) == Sum(f, rest) + f(m)
  {
    var queue := InsertAt(rest, p, m);
    if p == 0 {
      assert queue[0] == m && queue[1..] == rest;
    } else {
      SumInserted(f, rest[1..], p - 1, m);
      assert queue[0] == rest[0] && queue[1..] == InsertAt(rest[1..], p - 1, m);
    }
  }

  lemma SumWithout(f: Msg -> nat, queue: seq<Msg>, i: nat)
    requires i < |queue|
    ensures Sum(f, queue) == Sum(f, Without(queue, i)) + f(queue[i])
  {
    SumInserted(f, Without(queue, i), i, queue[i]);
    Reinserted(queue, i, queue[i]);
  }

  lemma SumReplace(f: Msg -> nat, queue: seq<Msg>, i: nat, m: Msg)
    requires i < |queue|
    ensures Sum(f, queue[i := m]) == Sum(f, queue) - f(queue[i]) + f(m)
  {
    SumWithout(f, queue, i);
    SumInserted(f, Without(queue, i), i, m);
    Reinserted(queue, i, m);
  }

  // ---- Weights ----

  function Remaining(cfg: Config, m: Msg): nat {
    if m.retries <= cfg.maxRetries then cfg.maxRetries - m.retries else 0
  }

  /** More than the number of times process_timeout can still act on the message, and on the one
      bounce it may spawn. */
  function Weight(cfg: Config, m: Msg): nat {
    match m.state
    case NoState => 1
    case DeleteMe => 1
    case RequestMsgDelivery => 2 * Remaining(cfg, m) + 2
    case AwaitingTryMsgDelivery => 2 * Remaining(cfg, m) + 2
    case AskedForMsgDelivery => 2 * Remaining(cfg, m) + 3
    case RequestDestinationSipUrl => 2 * Remaining(cfg, m) + 3
    case RequestDestinationImsi =>
      if m.fromUser == cfg.bounceCode then 2 * Remaining(cfg, m) + 4 else 2 * cfg.maxRetries + 6
    case Initial => 2 * cfg.maxRetries + 8
    case _ => 2 * cfg.maxRetries + 7
  }

  function Weights(cfg: Config): Msg -> nat {
    m => Weight(cfg, m)
  }

  /** Messages the theorem is about: requests outside the registration states. */
  predicate Plain(m: Msg) {
    m.kind.Request? && !IsRegistrationState(m.state)
  }

  /** Counts the entries that are not plain. */
  function Others(): Msg -> nat {
    m => if Plain(m) then 0 else 1
  }

  /** The step brought the total down and kept the queue plain. */
  ghost predicate Lighter(cfg: Config, q: Q, r: Q) {
    Sum(Weights(cfg), r.queue) < Sum(Weights(cfg), q.queue) && Sum(Others(), r.queue) == 0
  }

  ghost predicate AllPlain(q: Q) {
    Sum(Others(), q.queue) == 0
  }

  lemma PlainAt(q: Q, i: nat)
    requires AllPlain(q) && i < |q.queue|
    ensures Plain(q.queue[i])
  {
    SumWithout(Others(), q.queue, i);
  }

  lemma RequeueLighter(cfg: Config, q: Q, i: nat, newState: SmState, time: int, t: int)
    requires AllPlain(q) && i < |q.queue| && !IsRegistrationState(newState)
    ensures AllPlain(Requeue(q, i, newState, time, t))
    ensures Sum(Weights(cfg), Requeue(q, i, newState, time, t).queue)
            == Sum(Weights(cfg), q.queue) - Weight(cfg, q.queue[i])
               + Weight(cfg, q.queue[i].(state := newState, time := time))
  {
    PlainAt(q, i);
    var m := q.queue[i].(state := newState, time := time);
    SumWithout(Weights(cfg), q.queue, i);
    SumWithout(Others(), q.queue, i);
    SumInserted(Weights(cfg), Without(q.queue, i), NewPos(q.queue, i, time), m);
    SumInserted(Others(), Without(q.queue, i), NewPos(q.queue, i, time), m);
  }

  lemma EditLighter(cfg: Config, q: Q, i: nat, m: Msg)
    requires AllPlain(q) && i < |q.queue| && Plain(m)
    ensures AllPlain(Edit(cfg, q, i, m))
    ensures Sum(Weights(cfg), Edit(cfg, q, i, m).queue)
            == Sum(Weights(cfg), q.queue) - Weight(cfg, q.queue[i]) + Weight(cfg, m)
  {
    SumReplace(Weights(cfg), q.queue, i, m);
    SumReplace(Others(), q.queue, i, m);
    SumWithout(Others(), q.queue, i);
  }

  lemma SameLighter(cfg: Config, q: Q, r: Q, s: Q)
    requires r == s && Lighter(cfg, q, s)
    ensures Lighter(cfg, q, r)
  {
  }

  lemma TimeWeighsNothing(cfg: Config, m: Msg, newState: SmState, time: int)
    ensures Weight(cfg, m.(state := newState, time := time)) == Weight(cfg, m.(state := newState))
  {
  }

  /** The sum and the plainness of a queue, carried over to an equal one. */
  lemma SameSum(cfg: Config, r: Q, s: Q, total: int)
    requires r == s && AllPlain(s) && Sum(Weights(cfg), s.queue) == total
    ensures AllPlain(r) && Sum(Weights(cfg), r.queue) == total
  {
  }

  lemma SetStateWeighs(cfg: Config, q: Q, i: nat, newState: SmState, t: int)
    requires AllPlain(q) && i < |q.queue| && !IsRegistrationState(newState)
    ensures AllPlain(SetState(cfg, q, i, newState, t))
    ensures Sum(Weights(cfg), SetState(cfg, q, i, newState, t).queue)
            == Sum(Weights(cfg), q.queue) - Weight(cfg, q.queue[i]) + Weight(cfg, q.queue[i].(state := newState))
  {
    var m, time := q.queue[i], ActionTime(cfg, q.queue[i], newState, t);
    RequeueLighter(cfg, q, i, newState, time, t);
    TimeWeighsNothing(cfg, m, newState, time);
    SameSum(cfg, SetState(cfg, q, i, newState, t), Requeue(q, i, newState, time, t),
            Sum(Weights(cfg), q.queue) - Weight(cfg, m) + Weight(cfg, m.(state := newState)));
  }

  lemma SetStateLighter(cfg: Config, q: Q, i: nat, newState: SmState, t: int)
    requires AllPlain(q) && i < |q.queue| && !IsRegistrationState(newState)
    requires Weight(cfg, q.queue[i].(state := newState)) < Weight(cfg, q.queue[i])
    ensures Lighter(cfg, q, SetState(cfg, q, i, newState, t))
  {
    SetStateWeighs(cfg, q, i, newState, t);
  }

  lemma EditSetStateWeighs(cfg: Config, q: Q, i: nat, m: Msg, newState: SmState, t: int)
    requires AllPlain(q) && i < |q.queue| && Plain(m) && !IsRegistrationState(newState)
    ensures AllPlain(EditSetState(cfg, q, i, m, newState, t))
    ensures Sum(Weights(cfg), EditSetState(cfg, q, i, m, newState, t).queue)
            == Sum(Weights(cfg), q.queue) - Weight(cfg, q.queue[i]) + Weight(cfg, m.(state := newState))
  {
    var q1 := Edit(cfg, q, i, m);
    EditLighter(cfg, q, i, m);
    SetStateWeighs(cfg, q1, i, newState, t);
    SameSum(cfg, EditSetState(cfg, q, i, m, newState, t), SetState(cfg, q1, i, newState, t),
            Sum(Weights(cfg), q.queue) - Weight(cfg, q.queue[i]) + Weight(cfg, m.(state := newState)));
  }

  lemma EditSetStateLighter(cfg: Config, q: Q, i: nat, m: Msg, newState: SmState, t: int)
    requires AllPlain(q) && i < |q.queue| && Plain(m) && !IsRegistrationState(newState)
    requires Weight(cfg, m.(state := newState)) < Weight(cfg, q.queue[i])
    ensures Lighter(cfg, q, EditSetState(cfg, q, i, m, newState, t))
  {
    EditSetStateWeighs(cfg, q, i, m, newState, t);
  }

  /** The bounce a message spawns is paid for by the message itself. */
  lemma BounceLighter(cfg: Config, q: Q, e: TickInput)
    requires AllPlain(q) && q.queue != [] && q.queue[0].state == RequestDestinationImsi
    requires q.queue[0].fromUser != cfg.bounceCode
    ensures var m := q.queue[0];
            Lighter(cfg, q, SpawnSetState(cfg, q, 0, BounceMessage(cfg, e, m), BounceOf(m.id), BounceState(m),
                                          e.tInsert, DeleteMe, e.tLast))
  {
    var m := q.queue[0];
    var q1 := PushFront(cfg, q, BounceMessage(cfg, e, m), BounceOf(m.id), BounceState(m), e.tInsert);
    FrontWeighs(cfg, q, q1);
    BounceWeighs(cfg, q1.queue[0]);
    SetStateWeighs(cfg, q1, 1, DeleteMe, e.tLast);
    SameLighter(cfg, q, SpawnSetState(cfg, q, 0, BounceMessage(cfg, e, m), BounceOf(m.id), BounceState(m),
                                      e.tInsert, DeleteMe, e.tLast), SetState(cfg, q1, 1, DeleteMe, e.tLast));
  }

  lemma FrontWeighs(cfg: Config, q: Q, q1: Q)
    requires q1.queue != [] && q1.queue[1..] == q.queue && Plain(q1.queue[0])
    ensures Sum(Weights(cfg), q1.queue) == Weight(cfg, q1.queue[0]) + Sum(Weights(cfg), q.queue)
    ensures Sum(Others(), q1.queue) == Sum(Others(), q.queue)
  {
  }

  lemma BounceWeighs(cfg: Config, b: Msg)
    requires b.fromUser == cfg.bounceCode && b.retries == 0
    requires b.state in {RequestDestinationSipUrl, RequestDestinationImsi}
    ensures Weight(cfg, b) <= 2 * cfg.maxRetries + 4
  {
  }

  /** The weight after the sender lookup, whatever it finds. */
  lemma LookedUpWeighs(cfg: Config, m: Msg, complete: bool, clid: Option<string>)
    ensures var (newState, from) := LookupFromAddress(m.fromUser, complete, clid);
            !IsRegistrationState(newState)
            && Weight(cfg, m.(fromUser := from).(state := newState)) <= 2 * cfg.maxRetries + 6
  {
  }

  lemma LookupFromLighter(cfg: Config, q: Q, i: nat, e: TickInput)
    requires AllPlain(q) && i < |q.queue|
    requires Weight(cfg, q.queue[i]) >= 2 * cfg.maxRetries + 7
    ensures AllPlain(LookupFromStep(cfg, q, i, e))
    ensures Sum(Weights(cfg), LookupFromStep(cfg, q, i, e).queue)
            <= Sum(Weights(cfg), q.queue) - Weight(cfg, q.queue[i]) + 2 * cfg.maxRetries + 6
  {
    PlainAt(q, i);
    var (newState, from) := LookupFromAddress(q.queue[i].fromUser, e.headerOk, e.clid);
    var m := q.queue[i].(fromUser := from);
    LookedUpWeighs(cfg, q.queue[i], e.headerOk, e.clid);
    EditSetStateWeighs(cfg, q, i, m, newState, e.tLast);
    SameSum(cfg, LookupFromStep(cfg, q, i, e), EditSetState(cfg, q, i, m, newState, e.tLast),
            Sum(Weights(cfg), q.queue) - Weight(cfg, q.queue[i]) + Weight(cfg, m.(state := newState)));
  }

  lemma LookupImsiLighter(cfg: Config, q: Q, e: TickInput)
    requires AllPlain(q) && q.queue != [] && q.queue[0].state == RequestDestinationImsi
    ensures Lighter(cfg, q, LookupImsiStep(cfg, q, e))
  {
    PlainAt(q, 0);
    var m := q.queue[0];
    match LookupUriImsi(cfg, m.fromUser, m.reqUser, e.headerOk, e.imsi, e.globalClid)
    case NotRoutable => SetStateLighter(cfg, q, 0, NoState, e.tLast);
    case Routed(user) =>
      EditSetStateLighter(cfg, q, 0, m.(reqUser := Some(user)), RequestDestinationSipUrl, e.tLast);
    case Relayed(from) =>
      EditSetStateLighter(cfg, q, 0, m.(fromUser := from, forRelay := true), RequestDestinationSipUrl, e.tLast);
    case Undeliverable =>
      if Bounces(cfg, e, m) {
        BounceLighter(cfg, q, e);
      } else {
        SetStateLighter(cfg, q, 0, NoState, e.tLast);
      }
  }

  lemma LookupHostLighter(cfg: Config, q: Q, e: TickInput)
    requires AllPlain(q) && q.queue != [] && q.queue[0].state == RequestDestinationSipUrl
    ensures Lighter(cfg, q, LookupHostStep(cfg, q, e))
  {
    PlainAt(q, 0);
    var m := q.queue[0];
    if m.reqUser.None? {
      SetStateLighter(cfg, q, 0, NoState, e.tLast);
    } else {
      EditSetStateLighter(cfg, q, 0, Located(cfg, m, m.reqUser.value, e), RequestMsgDelivery, e.tLast);
    }
  }

  lemma TouchLighter(cfg: Config, q: Q, i: nat, newState: SmState, time: int, t: int)
    requires AllPlain(q) && i < |q.queue| && !IsRegistrationState(newState)
    ensures AllPlain(Touch(q, i, newState, time, t))
    ensures Sum(Weights(cfg), Touch(q, i, newState, time, t).queue)
            == Sum(Weights(cfg), q.queue) - Weight(cfg, q.queue[i])
               + Weight(cfg, q.queue[i].(state := newState, time := time))
  {
    PlainAt(q, i);
    SumReplace(Weights(cfg), q.queue, i, q.queue[i].(state := newState, time := time));
    SumReplace(Others(), q.queue, i, q.queue[i].(state := newState, time := time));
  }

  // A counted try ends below the weight that the entry had before the count.

  predicate GivesUp(cfg: Config, m: Msg, e: TickInput) {
    !e.packOk || m.retries > cfg.maxRetries
  }

  predicate MustWait(cfg: Config, e: TickInput) {
    cfg.rateLimit > 0 && cfg.rateLimit >= e.elapsed
  }

  /** The weight of the queue before the try of entry i was counted. */
  function WeightBefore(cfg: Config, q: Q, i: nat): int
    requires i < |q.queue| && q.queue[i].retries > 0
  {
    Sum(Weights(cfg), q.queue) - Weight(cfg, q.queue[i])
    + Weight(cfg, q.queue[i].(retries := q.queue[i].retries - 1))
  }

  lemma SameWeight(cfg: Config, r: Q, s: Q, bound: int)
    requires r == s && AllPlain(s) && Sum(Weights(cfg), s.queue) < bound
    ensures AllPlain(r) && Sum(Weights(cfg), r.queue) < bound
  {
  }

  lemma GiveUpLighter(cfg: Config, q: Q, i: nat, e: TickInput)
    requires AllPlain(q) && i < |q.queue| && q.queue[i].state == RequestMsgDelivery
    requires q.queue[i].retries > 0 && cfg.maxRetries > 0
    requires GivesUp(cfg, q.queue[i], e)
    ensures AllPlain(Attempt(cfg, q, i, e))
    ensures Sum(Weights(cfg), Attempt(cfg, q, i, e).queue) < WeightBefore(cfg, q, i)
  {
    var newState := if e.packOk then DeleteMe else NoState;
    GiveUpCase(cfg, q, i, e);
    SetStateWeighs(cfg, q, i, newState, e.tLast);
    SameWeight(cfg, Attempt(cfg, q, i, e), SetState(cfg, q, i, newState, e.tLast), WeightBefore(cfg, q, i));
  }

  lemma WaitLighter(cfg: Config, q: Q, i: nat, e: TickInput)
    requires AllPlain(q) && i < |q.queue| && q.queue[i].state == RequestMsgDelivery
    requires q.queue[i].retries > 0 && cfg.maxRetries > 0
    requires !GivesUp(cfg, q.queue[i], e) && MustWait(cfg, e)
    ensures AllPlain(Attempt(cfg, q, i, e))
    ensures Sum(Weights(cfg), Attempt(cfg, q, i, e).queue) < WeightBefore(cfg, q, i)
  {
    var time := q.queue[i].time + cfg.rateLimit;
    WaitCase(cfg, q, i, e);
    TouchLighter(cfg, q, i, q.queue[i].state, time, q.clock);
    SameWeight(cfg, Attempt(cfg, q, i, e), Touch(q, i, q.queue[i].state, time, q.clock), WeightBefore(cfg, q, i));
  }

  lemma SendLighter(cfg: Config, q: Q, i: nat, e: TickInput)
    requires AllPlain(q) && i < |q.queue| && q.queue[i].state == RequestMsgDelivery
    requires q.queue[i].retries > 0 && cfg.maxRetries > 0
    requires !GivesUp(cfg, q.queue[i], e) && !MustWait(cfg, e)
    ensures AllPlain(Attempt(cfg, q, i, e))
    ensures Sum(Weights(cfg), Attempt(cfg, q, i, e).queue) < WeightBefore(cfg, q, i)
  {
    SendCase(cfg, q, i, e);
    SetStateWeighs(cfg, Send(q, i), i, AskedForMsgDelivery, e.tLast);
    SameWeight(cfg, Attempt(cfg, q, i, e), SetState(cfg, Send(q, i), i, AskedForMsgDelivery, e.tLast),
               WeightBefore(cfg, q, i));
  }

  lemma AttemptLighter(cfg: Config, q: Q, i: nat, e: TickInput)
    requires AllPlain(q) && i < |q.queue| && q.queue[i].state == RequestMsgDelivery
    requires q.queue[i].retries > 0 && cfg.maxRetries > 0
    ensures AllPlain(Attempt(cfg, q, i, e))
    ensures Sum(Weights(cfg), Attempt(cfg, q, i, e).queue) < WeightBefore(cfg, q, i)
  {
    if GivesUp(cfg, q.queue[i], e) {
      GiveUpLighter(cfg, q, i, e);
    } else if MustWait(cfg, e) {
      WaitLighter(cfg, q, i, e);
    } else {
      SendLighter(cfg, q, i, e);
    }
  }

  lemma DeliverLighter(cfg: Config, q: Q, i: nat, e: TickInput)
    requires AllPlain(q) && i < |q.queue| && q.queue[i].state == RequestMsgDelivery && cfg.maxRetries > 0
    ensures Lighter(cfg, q, DeliverStep(cfg, q, i, e))
  {
    PlainAt(q, i);
    EditLighter(cfg, q, i, q.queue[i].(retries := q.queue[i].retries + 1));
    AttemptLighter(cfg, CountTry(cfg, q, i), i, e);
  }

  /** Two steps in a row, the first of which may keep the weight. */
  lemma LighterInTwo(cfg: Config, q: Q, q1: Q, r: Q, s: Q)
    requires r == s && Lighter(cfg, q1, s) && Sum(Weights(cfg), q1.queue) <= Sum(Weights(cfg), q.queue)
    ensures Lighter(cfg, q, r)
  {
  }

  lemma RetryKeepsWeight(cfg: Config, q: Q, e: TickInput)
    requires AllPlain(q) && q.queue != [] && q.queue[0].state == AwaitingTryMsgDelivery
    ensures var q1 := SetState(cfg, q, 0, RequestMsgDelivery, e.tFirst);
            AllPlain(q1) && Sum(Weights(cfg), q1.queue) <= Sum(Weights(cfg), q.queue)
  {
    SetStateWeighs(cfg, q, 0, RequestMsgDelivery, e.tFirst);
  }

  lemma RetryLighter(cfg: Config, q: Q, e: TickInput)
    requires AllPlain(q) && q.queue != [] && q.queue[0].state == AwaitingTryMsgDelivery && cfg.maxRetries > 0
    ensures Lighter(cfg, q, RetryStep(cfg, q, e))
  {
    var q1 := SetState(cfg, q, 0, RequestMsgDelivery, e.tFirst);
    var p := NewPos(q.queue, 0, ActionTime(cfg, q.queue[0], RequestMsgDelivery, e.tFirst));
    RetryKeepsWeight(cfg, q, e);
    SetStateAt(cfg, q, 0, RequestMsgDelivery, e.tFirst);
    DeliverLighter(cfg, q1, p, e);
    LighterInTwo(cfg, q, q1, RetryStep(cfg, q, e), DeliverStep(cfg, q1, p, e));
  }

  /** States without a case of their own go through INITIAL_STATE on the way to the lookup. */
  lemma RestartLighter(cfg: Config, q: Q, e: TickInput)
    requires AllPlain(q) && q.queue != [] && Weight(cfg, q.queue[0]) == 2 * cfg.maxRetries + 7
    ensures Lighter(cfg, q, RestartStep(cfg, q, e))
  {
    var time := ActionTime(cfg, q.queue[0], Initial, e.tFirst);
    RequeueLighter(cfg, q, 0, Initial, time, e.tFirst);
    SetStateAt(cfg, q, 0, Initial, e.tFirst);
    var q1 := SetState(cfg, q, 0, Initial, e.tFirst);
    var p := NewPos(q.queue, 0, time);
    LookupFromLighter(cfg, q1, p, e);
  }

  /** Nothing from outside: short-code functions, if any, treat the message as an ordinary one. */
  predicate Ordinary(e: TickInput) {
    e.shortCode == None || e.shortCode == Some(TreatAsOrdinary)
  }

  lemma DropLighter(cfg: Config, q: Q)
    requires AllPlain(q) && q.queue != [] && Weight(cfg, q.queue[0]) > 0
    ensures Lighter(cfg, q, Drop(q, 0))
  {
    SumWithout(Weights(cfg), q.queue, 0);
    SumWithout(Others(), q.queue, 0);
  }

  lemma RejectedLighter(cfg: Config, q: Q, e: TickInput)
    requires AllPlain(q) && q.queue != [] && q.queue[0].state == Initial
    requires q.queue[0].kind.Request? && q.queue[0].kind.verb != MESSAGE
    ensures Lighter(cfg, q, StartRequest(cfg, q, e))
  {
    RejectedCase(cfg, q, e);
    SetStateLighter(cfg, q, 0, NoState, e.tLast);
    SameLighter(cfg, q, StartRequest(cfg, q, e), SetState(cfg, q, 0, NoState, e.tLast));
  }

  lemma OrdinaryLighter(cfg: Config, q: Q, e: TickInput)
    requires AllPlain(q) && q.queue != [] && q.queue[0].state == Initial
    requires q.queue[0].kind == Request(MESSAGE) && e.shortCode.None?
    ensures Lighter(cfg, q, StartRequest(cfg, q, e))
  {
    OrdinaryCase(cfg, q, e);
    SetStateLighter(cfg, q, 0, RequestFromAddress, e.tLast);
    SameLighter(cfg, q, StartRequest(cfg, q, e), SetState(cfg, q, 0, RequestFromAddress, e.tLast));
  }

  lemma TreatedLighter(cfg: Config, q: Q, e: TickInput)
    requires AllPlain(q) && q.queue != [] && q.queue[0].state == Initial
    requires q.queue[0].kind == Request(MESSAGE) && e.shortCode == Some(TreatAsOrdinary)
    ensures Lighter(cfg, q, StartRequest(cfg, q, e))
  {
    PlainAt(q, 0);
    TreatedCase(cfg, q, e);
    EditSetStateLighter(cfg, q, 0, q.queue[0], RequestFromAddress, e.tLast);
    SameLighter(cfg, q, StartRequest(cfg, q, e), EditSetState(cfg, q, 0, q.queue[0], RequestFromAddress, e.tLast));
  }

  lemma StartLighter(cfg: Config, q: Q, e: TickInput)
    requires AllPlain(q) && q.queue != [] && q.queue[0].state == Initial && q.queue[0].kind.Request? && Ordinary(e)
    ensures Lighter(cfg, q, StartRequest(cfg, q, e))
  {
    if q.queue[0].kind.verb != MESSAGE {
      RejectedLighter(cfg, q, e);
    } else if e.shortCode.None? {
      OrdinaryLighter(cfg, q, e);
    } else {
      TreatedLighter(cfg, q, e);
    }
  }

  lemma LookupLighter(cfg: Config, q: Q, e: TickInput)
    requires AllPlain(q) && q.queue != []
    requires q.queue[0].state in {RequestFromAddress, RequestDestinationImsi, RequestDestinationSipUrl}
    ensures Lighter(cfg, q, Process(cfg, q, e))
  {
    match q.queue[0].state
    case RequestFromAddress =>
      LookupFromCase(cfg, q, e);
      LookupFromLighter(cfg, q, 0, e);
    case RequestDestinationImsi =>
      LookupImsiCase(cfg, q, e);
      LookupImsiLighter(cfg, q, e);
      SameLighter(cfg, q, Process(cfg, q, e), LookupImsiStep(cfg, q, e));
    case RequestDestinationSipUrl =>
      LookupHostCase(cfg, q, e);
      LookupHostLighter(cfg, q, e);
      SameLighter(cfg, q, Process(cfg, q, e), LookupHostStep(cfg, q, e));
  }

  lemma DeliveryLighter(cfg: Config, q: Q, e: TickInput)
    requires AllPlain(q) && q.queue != [] && cfg.maxRetries > 0
    requires q.queue[0].state in {AwaitingTryMsgDelivery, RequestMsgDelivery, AskedForMsgDelivery}
    ensures Lighter(cfg, q, Process(cfg, q, e))
  {
    match q.queue[0].state
    case AwaitingTryMsgDelivery =>
      RetryCase(cfg, q, e);
      RetryLighter(cfg, q, e);
      SameLighter(cfg, q, Process(cfg, q, e), RetryStep(cfg, q, e));
    case RequestMsgDelivery =>
      DeliverCase(cfg, q, e);
      DeliverLighter(cfg, q, 0, e);
      SameLighter(cfg, q, Process(cfg, q, e), DeliverStep(cfg, q, 0, e));
    case AskedForMsgDelivery =>
      AskedCase(cfg, q, e);
      SetStateLighter(cfg, q, 0, AwaitingTryMsgDelivery, e.tLast);
      SameLighter(cfg, q, Process(cfg, q, e), SetState(cfg, q, 0, AwaitingTryMsgDelivery, e.tLast));
  }

  lemma ProcessLighter(cfg: Config, q: Q, e: TickInput)
    requires AllPlain(q) && q.queue != [] && cfg.maxRetries > 0 && Ordinary(e)
    ensures Lighter(cfg, q, Process(cfg, q, e))
  {
    PlainAt(q, 0);
    var s := q.queue[0].state;
    if s == Initial {
      StartLighter(cfg, q, e);
    } else if s == NoState || s == DeleteMe {
      DropLighter(cfg, q);
    } else if s in {RequestFromAddress, RequestDestinationImsi, RequestDestinationSipUrl} {
      LookupLighter(cfg, q, e);
    } else if s in {AwaitingTryMsgDelivery, RequestMsgDelivery, AskedForMsgDelivery} {
      DeliveryLighter(cfg, q, e);
    } else {
      RestartCase(cfg, q, e);
      RestartLighter(cfg, q, e);
      SameLighter(cfg, q, Process(cfg, q, e), RestartStep(cfg, q, e));
    }
  }

  /** Every call of process_timeout that acts takes weight off the queue. */
  lemma TickLighter(cfg: Config, q: Q, e: TickInput)
    requires AllPlain(q) && cfg.maxRetries > 0 && Ordinary(e) && Due(q, e.now)
    ensures Lighter(cfg, q, Tick(cfg, q, e))
  {
    var q0 := ReadClock(q, e.now);
    ProcessLighter(cfg, q0, e);
    SameLighter(cfg, q0, Tick(cfg, q, e), Process(cfg, q0, e));
  }

  /** How many of these calls of process_timeout find a due head. */
  function Acts(cfg: Config, q: Q, calls: seq<TickInput>): nat
    decreases |calls|
  {
    if calls == [] then 0
    else (if Due(q, calls[0].now) then 1 else 0) + Acts(cfg, Tick(cfg, q, calls[0]), calls[1..])
  }

  /** The queue drains: with MaxRetries set and nothing arriving, however long process_timeout is
      called it acts no more often than the weights of the queue add up to. */
  lemma {:induction false} QueueDrains(cfg: Config, q: Q, calls: seq<TickInput>)
    requires AllPlain(q) && cfg.maxRetries > 0
    requires forall e :: e in calls ==> Ordinary(e)
    ensures Acts(cfg, q, calls) <= Sum(Weights(cfg), q.queue)
    decreases |calls|
  {
    if calls != [] {
      if Due(q, calls[0].now) {
        TickLighter(cfg, q, calls[0]);
      }
      QueueDrains(cfg, Tick(cfg, q, calls[0]), calls[1..]);
    }
  }

  /** The queue after these calls. */
  function AfterCalls(cfg: Config, q: Q, calls: seq<TickInput>): Q
    decreases |calls|
  {
    if calls == [] then q else AfterCalls(cfg, Tick(cfg, q, calls[0]), calls[1..])
  }

  /** Every call comes late enough to find the head due, unless the queue is empty by then. */
  ghost predicate LateEnough(cfg: Config, q: Q, calls: seq<TickInput>)
    decreases |calls|
  {
    calls == [] || ((q.queue == [] || Due(q, calls[0].now)) && LateEnough(cfg, Tick(cfg, q, calls[0]), calls[1..]))
  }

  lemma EmptyWeighsNothing(cfg: Config, queue: seq<Msg>)
    ensures queue == [] <==> Sum(Weights(cfg), queue) == 0
  {
    if queue != [] {
      assert Weight(cfg, queue[0]) > 0;
    }
  }

  /** So the queue gets empty: after as many late enough calls as its weight no message is left. */
  lemma {:induction false} QueueEmpties(cfg: Config, q: Q, calls: seq<TickInput>)
    requires AllPlain(q) && cfg.maxRetries > 0
    requires forall e :: e in calls ==> Ordinary(e)
    requires LateEnough(cfg, q, calls) && |calls| >= Sum(Weights(cfg), q.queue)
    ensures AfterCalls(cfg, q, calls).queue == []
    decreases |calls|
  {
    EmptyWeighsNothing(cfg, q.queue);
    if calls != [] {
      if Due(q, calls[0].now) {
        TickLighter(cfg, q, calls[0]);
      }
      QueueEmpties(cfg, Tick(cfg, q, calls[0]), calls[1..]);
    }
  }

  lemma {:induction false} SumBounded(f: Msg -> nat, queue: seq<Msg>, bound: nat)
    requires forall m :: m in queue ==> f(m) <= bound
    ensures Sum(f, queue) <= |queue| * bound
  {
    if queue != [] {
      assert queue[0] in queue;
      SumBounded(f, queue[1..], bound);
      assert |queue| * bound == bound + |queue[1..]| * bound;
    }
  }

  /** At most 2 * MaxRetries + 8 acts per queued message, its bounce included. */
  lemma QueueDrainsLinearly(cfg: Config, q: Q, calls: seq<TickInput>)
    requires AllPlain(q) && cfg.maxRetries > 0
    requires forall e :: e in calls ==> Ordinary(e)
    ensures Acts(cfg, q, calls) <= |q.queue| * (2 * cfg.maxRetries + 8)
  {
    QueueDrains(cfg, q, calls);
    SumBounded(Weights(cfg), q.queue, 2 * cfg.maxRetries + 8);
  }
}
