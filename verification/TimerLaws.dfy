/** What one call of process_timeout makes of a due head, for the short codes, the registration and
    the delivery, with every delay as a number. */
module TimerLaws {
  import opened Wrappers
  import opened Messages
  import opened Lookups
  import opened QueueOps
  import opened QueueSteps
  import opened Conservation
  import opened Outcomes
  import opened LookupLaws

  // ---- Requests in INITIAL_STATE ----

  ghost predicate DueRequest(q: Q, e: TickInput, verb: Method) {
    DueIn(q, e, Initial) && q.queue[0].kind == Request(verb)
  }

  lemma RequestTick(cfg: Config, q: Q, e: TickInput, verb: Method)
    requires DueRequest(q, e, verb)
    ensures Tick(cfg, q, e) == StartRequest(cfg, ReadClock(q, e.now), e)
  {
    DueTick(cfg, q, e);
  }

  /** Only MESSAGE requests are handled. */
  lemma OtherRequestFails(cfg: Config, q: Q, e: TickInput)
    requires DueRequest(q, e, REGISTER)
    ensures Turned(q, 0, q.queue[0].(state := NoState, time := e.tLast), Tick(cfg, q, e))
  {
    var q0 := ReadClock(q, e.now);
    RequestTick(cfg, q, e, REGISTER);
    RejectedCase(cfg, q0, e);
    SetStateBecomes(cfg, q0, 0, NoState, e.tLast);
  }

  /** A message to no short code goes on to the look-up of its sender at once. */
  lemma OrdinaryStarts(cfg: Config, q: Q, e: TickInput)
    requires DueRequest(q, e, MESSAGE) && e.shortCode.None?
    ensures Turned(q, 0, q.queue[0].(state := RequestFromAddress, time := e.tLast), Tick(cfg, q, e))
  {
    var q0 := ReadClock(q, e.now);
    RequestTick(cfg, q, e, MESSAGE);
    OrdinaryCase(cfg, q0, e);
    SetStateBecomes(cfg, q0, 0, RequestFromAddress, e.tLast);
  }

  lemma CodeTick(cfg: Config, q: Q, e: TickInput, action: ShortCodeAction)
    requires DueRequest(q, e, MESSAGE) && e.shortCode == Some(action)
    ensures Tick(cfg, q, e) == ShortCodeStep(cfg, ReadClock(q, e.now), action, e)
  {
    RequestTick(cfg, q, e, MESSAGE);
  }

  /** The message as the action leaves it, and the time it then waits: DELETE_ME when the short code
      is done, an error, 50 minutes until the handset may be registered, the ordinary look-ups with or
      without one more try counted, or from the start with another recipient. */
  function ActedOn(m: Msg, action: ShortCodeAction, t: int): Msg {
    match action
    case Done | QuitSmqueue | ExecSmqueue => m.(state := DeleteMe, time := t)
    case InternalError | ReplyAndRetry | Reply | Register => m.(state := NoState, time := t)
    case AwaitRegister => m.(state := AwaitingRegisterHandset, time := t + 3_000_000)
    case TreatAsOrdinary => m.(state := RequestFromAddress, time := t)
    case RetryAfterDelay => m.(state := RequestFromAddress, time := t, retries := m.retries + 1)
    case RestartProcessing(user) => m.(state := Initial, time := t, reqUser := Some(user))
  }

  lemma ActedOnFields(cfg: Config, m: Msg, action: ShortCodeAction, t: int)
    requires m.state == Initial && action != Register
    ensures var next := AfterAction(m, action);
            next.(state := AnswerState(action), time := t + Timeout(cfg, next.state, AnswerState(action)))
            == ActedOn(m, action, t)
  {
  }

  lemma ActedOnStep(cfg: Config, q: Q, e: TickInput, action: ShortCodeAction)
    requires q.queue != [] && action != Register && (action == Reply ==> !e.originateOk)
    ensures ShortCodeStep(cfg, q, action, e)
            == EditSetState(cfg, q, 0, AfterAction(q.queue[0], action), AnswerState(action), e.tLast)
  {
  }

  /** Every action of a short code but the two that make a new message. */
  lemma ActionTaken(cfg: Config, q: Q, e: TickInput, action: ShortCodeAction)
    requires DueRequest(q, e, MESSAGE) && e.shortCode == Some(action)
    requires action != Register && (action == Reply ==> !e.originateOk)
    ensures Turned(q, 0, ActedOn(q.queue[0], action, e.tLast), Tick(cfg, q, e))
  {
    var q0, m := ReadClock(q, e.now), AfterAction(q.queue[0], action);
    var state := AnswerState(action);
    var r := EditSetState(cfg, q0, 0, m, state, e.tLast);
    CodeTick(cfg, q, e, action);
    ActedOnStep(cfg, q0, e, action);
    EditSetStateBecomes(cfg, q0, 0, m, state, e.tLast);
    ActedOnFields(cfg, q.queue[0], action, e.tLast);
    SameTurned(q, q0, 0, m.(state := state, time := e.tLast + Timeout(cfg, m.state, state)),
               ActedOn(q.queue[0], action, e.tLast), r, Tick(cfg, q, e));
  }

  function QueuedReply(cfg: Config, m: Msg, e: TickInput, code: string, id: nat): (b: Msg)
    ensures IsNewMessage(cfg, e, b, id, code, m.fromUser, RequestDestinationSipUrl)
  {
    NewMessage(cfg, e, code, m.fromUser).(id := id, state := RequestDestinationSipUrl, time := e.tInsert)
  }

  lemma ReplyIs(cfg: Config, q: Q, e: TickInput, code: string)
    requires q.queue != [] && e.originateOk && q.queue[0].reqUser == Some(code)
    ensures var m := q.queue[0];
            ShortCodeStep(cfg, q, Reply, e)
            == SpawnSetState(cfg, q, 0, NewMessage(cfg, e, code, m.fromUser), ReplyTo(m.id), RequestDestinationSipUrl,
                             e.tInsert, DeleteMe, e.tLast)
  {
  }

  lemma ReplyStep(cfg: Config, q: Q, e: TickInput, code: string, b: Msg, r: Q)
    requires q.queue != [] && q.queue[0].state == Initial && e.originateOk && q.queue[0].reqUser == Some(code)
    requires b == QueuedReply(cfg, q.queue[0], e, code, |q.born|) && r == ShortCodeStep(cfg, q, Reply, e)
    ensures Spawned(q, 0, b, q.queue[0].(state := DeleteMe, time := e.tLast), ReplyTo(q.queue[0].id), r)
  {
    var m := q.queue[0];
    ReplyIs(cfg, q, e, code);
    SpawnTurns(cfg, q, 0, m, NewMessage(cfg, e, code, m.fromUser), ReplyTo(m.id), RequestDestinationSipUrl, e.tInsert,
               DeleteMe, e.tLast, e.tLast, b, r);
  }

  /** The reply of a short code goes from its number to the sender, whose IMSI needs no look-up; the
      message itself is done. */
  lemma CodeReplies(cfg: Config, q: Q, e: TickInput, code: string)
    requires DueRequest(q, e, MESSAGE) && e.shortCode == Some(Reply) && e.originateOk
    requires q.queue[0].reqUser == Some(code)
    ensures var m := q.queue[0];
            exists b :: && IsNewMessage(cfg, e, b, |q.born|, code, m.fromUser, RequestDestinationSipUrl)
                        && Spawned(q, 0, b, m.(state := DeleteMe, time := e.tLast), ReplyTo(m.id), Tick(cfg, q, e))
  {
    CodeTick(cfg, q, e, Reply);
    var b := QueuedReply(cfg, q.queue[0], e, code, |q.born|);
    ReplyStep(cfg, ReadClock(q, e.now), e, code, b, Tick(cfg, q, e));
    assert IsNewMessage(cfg, e, b, |q.born|, code, q.queue[0].fromUser, RequestDestinationSipUrl);
  }

  // ---- Registration ----

  /** A REGISTER in the name of the sender, linked to the message that asked for it. */
  ghost predicate IsRegister(cfg: Config, sms: Msg, e: TickInput, id: nat, b: Msg) {
    && b.id == id && b.kind == Request(REGISTER) && b.fromUser == sms.fromUser && b.reqUser == None
    && b.dest == cfg.registrar && b.linktag == Some(sms.qtag) && b.state == RequestMsgDelivery
    && b.time == e.tInsert && OwnMessage(cfg, e, b)
  }

  function QueuedRegister(cfg: Config, sms: Msg, e: TickInput, id: nat): (b: Msg)
    ensures IsRegister(cfg, sms, e, id, b)
  {
    NewRegister(cfg, e, sms).(id := id, state := RequestMsgDelivery, time := e.tInsert)
  }

  /** The delay before the answer to a REGISTER is waited for: 2 seconds, but 50 minutes when a short
      code asked for it. */
  function RegisterWait(from: SmState): int {
    if from == RegisterHandset then 2000 else 3_000_000
  }

  lemma RegisterIs(cfg: Config, q: Q, i: nat, e: TickInput)
    requires i < |q.queue| && e.originateOk
    ensures RegisterStep(cfg, q, i, e)
            == SpawnSetState(cfg, q, i, NewRegister(cfg, e, q.queue[i]), RegistrationFor(q.queue[i].id),
                             RequestMsgDelivery, e.tInsert, AskedToRegisterHandset, e.tLast)
  {
  }

  lemma RegisterDelay(cfg: Config, from: SmState)
    requires from == RegisterHandset || from == Initial
    ensures Timeout(cfg, from, AskedToRegisterHandset) == RegisterWait(from)
    ensures Timeout(cfg, NoState, RequestMsgDelivery) == 0
  {
  }

  lemma RegisterStepSpawns(cfg: Config, q: Q, i: nat, e: TickInput)
    requires i < |q.queue| && e.originateOk && (q.queue[i].state == RegisterHandset || q.queue[i].state == Initial)
    ensures var m := q.queue[i];
            Spawned(q, i, QueuedRegister(cfg, m, e, |q.born|),
                    m.(state := AskedToRegisterHandset, time := e.tLast + RegisterWait(m.state)),
                    RegistrationFor(m.id), RegisterStep(cfg, q, i, e))
  {
    var m := q.queue[i];
    RegisterIs(cfg, q, i, e);
    RegisterDelay(cfg, m.state);
    SpawnTurns(cfg, q, i, m, NewRegister(cfg, e, m), RegistrationFor(m.id), RequestMsgDelivery, e.tInsert,
               AskedToRegisterHandset, e.tLast, e.tLast + RegisterWait(m.state), QueuedRegister(cfg, m, e, |q.born|),
               RegisterStep(cfg, q, i, e));
  }

  lemma RegisterTick(cfg: Config, q: Q, e: TickInput)
    requires DueIn(q, e, RegisterHandset)
    ensures Tick(cfg, q, e) == RegisterStep(cfg, ReadClock(q, e.now), 0, e)
  {
    DueTick(cfg, q, e);
    RegisterCase(cfg, ReadClock(q, e.now), e);
  }

  ghost predicate Registered(cfg: Config, q: Q, e: TickInput, wait: int, r: Q) {
    && q.queue != []
    && exists b :: && IsRegister(cfg, q.queue[0], e, |q.born|, b)
                   && Spawned(q, 0, b, q.queue[0].(state := AskedToRegisterHandset, time := e.tLast + wait),
                              RegistrationFor(q.queue[0].id), r)
  }

  lemma RegisteredBy(cfg: Config, q: Q, q0: Q, e: TickInput, b: Msg, wait: int, r: Q)
    requires q.queue == q0.queue && q.born == q0.born && q.sent == q0.sent && q.queue != []
    requires b == QueuedRegister(cfg, q.queue[0], e, |q.born|)
    requires Spawned(q0, 0, b, q.queue[0].(state := AskedToRegisterHandset, time := e.tLast + wait),
                     RegistrationFor(q.queue[0].id), r)
    ensures Registered(cfg, q, e, wait, r)
  {
    assert IsRegister(cfg, q.queue[0], e, |q.born|, b);
  }

  /** Registering: a REGISTER is queued, and the message looks again after two seconds. */
  lemma Registers(cfg: Config, q: Q, e: TickInput)
    requires DueIn(q, e, RegisterHandset) && e.originateOk
    ensures Registered(cfg, q, e, 2000, Tick(cfg, q, e))
  {
    var q0 := ReadClock(q, e.now);
    RegisterTick(cfg, q, e);
    RegisterStepSpawns(cfg, q0, 0, e);
    assert IsRegister(cfg, q.queue[0], e, |q.born|, QueuedRegister(cfg, q.queue[0], e, |q.born|));
  }

  /** A short code that registers waits 50 minutes. */
  lemma CodeRegisters(cfg: Config, q: Q, e: TickInput)
    requires DueRequest(q, e, MESSAGE) && e.shortCode == Some(Register) && e.originateOk
    ensures Registered(cfg, q, e, 3_000_000, Tick(cfg, q, e))
  {
    var q0 := ReadClock(q, e.now);
    CodeTick(cfg, q, e, Register);
    RegisterStepSpawns(cfg, q0, 0, e);
    assert IsRegister(cfg, q.queue[0], e, |q.born|, QueuedRegister(cfg, q.queue[0], e, |q.born|));
  }

  lemma NotRegisteredStep(cfg: Config, q: Q, e: TickInput)
    requires q.queue != [] && !e.originateOk
    ensures RegisterStep(cfg, q, 0, e) == SetState(cfg, q, 0, DeleteMe, e.tLast)
  {
  }

  /** A handset that cannot be registered loses its message. */
  lemma CannotRegister(cfg: Config, q: Q, e: TickInput)
    requires DueIn(q, e, RegisterHandset) && !e.originateOk
    ensures Turned(q, 0, q.queue[0].(state := DeleteMe, time := e.tLast), Tick(cfg, q, e))
  {
    var q0 := ReadClock(q, e.now);
    RegisterTick(cfg, q, e);
    NotRegisteredStep(cfg, q0, e);
    SetStateTurns(cfg, q, q0, 0, q.queue[0], DeleteMe, e.tLast, e.tLast, Tick(cfg, q, e));
  }

  /** The same when a short code asked for it. */
  lemma CodeCannotRegister(cfg: Config, q: Q, e: TickInput)
    requires DueRequest(q, e, MESSAGE) && e.shortCode == Some(Register) && !e.originateOk
    ensures Turned(q, 0, q.queue[0].(state := DeleteMe, time := e.tLast), Tick(cfg, q, e))
  {
    var q0 := ReadClock(q, e.now);
    CodeTick(cfg, q, e, Register);
    NotRegisteredStep(cfg, q0, e);
    SetStateTurns(cfg, q, q0, 0, q.queue[0], DeleteMe, e.tLast, e.tLast, Tick(cfg, q, e));
  }

  lemma WaitTick(cfg: Config, q: Q, e: TickInput)
    requires DueIn(q, e, AwaitingRegisterHandset) && e.clid.None?
    ensures Tick(cfg, q, e) == SetState(cfg, ReadClock(q, e.now), 0, AwaitingRegisterHandset, e.tLast)
  {
    DueTick(cfg, q, e);
    AwaitRegisterCase(cfg, ReadClock(q, e.now), e);
  }

  /** While the registry knows no caller id the message asks every second. */
  lemma AsksEverySecond(cfg: Config, q: Q, e: TickInput)
    requires DueIn(q, e, AwaitingRegisterHandset) && e.clid.None?
    ensures Turned(q, 0, q.queue[0].(state := AwaitingRegisterHandset, time := e.tLast + 1000), Tick(cfg, q, e))
  {
    WaitTick(cfg, q, e);
    SetStateTurns(cfg, q, ReadClock(q, e.now), 0, q.queue[0], AwaitingRegisterHandset, e.tLast, e.tLast + 1000,
                  Tick(cfg, q, e));
  }

  /** After a REGISTER without an answer it starts to ask, one second later. */
  lemma AsksAgain(cfg: Config, q: Q, e: TickInput)
    requires DueIn(q, e, AskedToRegisterHandset)
    ensures Turned(q, 0, q.queue[0].(state := AwaitingRegisterHandset, time := e.tLast + 1000), Tick(cfg, q, e))
  {
    DueTick(cfg, q, e);
    AskedToRegisterCase(cfg, ReadClock(q, e.now), e);
    SetStateTurns(cfg, q, ReadClock(q, e.now), 0, q.queue[0], AwaitingRegisterHandset, e.tLast, e.tLast + 1000,
                  Tick(cfg, q, e));
  }

  // ---- Delivery ----

  predicate TriesLeft(cfg: Config, m: Msg) {
    cfg.maxRetries == 0 || m.retries < cfg.maxRetries
  }

  predicate TooSoon(cfg: Config, e: TickInput) {
    0 < cfg.rateLimit && e.elapsed <= cfg.rateLimit
  }

  /** The try is counted, the message is handed to the network once, and its answer is waited for
      15 seconds. */
  ghost predicate HandedOver(q: Q, i: nat, t: int, r: Q)
    requires i < |q.queue|
  {
    var m := q.queue[i];
    && Became(q.queue, i, m.(retries := m.retries + 1, state := AskedForMsgDelivery, time := t + 15_000), r.queue)
    && r.born == q.born && r.sent == q.sent + multiset{m.id}
  }

  lemma DeliverStepSends(cfg: Config, q: Q, i: nat, e: TickInput)
    requires i < |q.queue| && q.queue[i].state == RequestMsgDelivery
    requires e.packOk && TriesLeft(cfg, q.queue[i]) && !TooSoon(cfg, e)
    ensures HandedOver(q, i, e.tLast, DeliverStep(cfg, q, i, e))
  {
    var q1 := CountTry(cfg, q, i);
    SendCase(cfg, q1, i, e);
    SentBecomes(cfg, q1, i, e.tLast, DeliverStep(cfg, q, i, e));
    assert Without(q1.queue, i) == Without(q.queue, i);
    BecameVia(q.queue, i, q1.queue, i, q1.queue[i].(state := AskedForMsgDelivery, time := e.tLast + 15_000),
              DeliverStep(cfg, q, i, e).queue);
  }

  lemma SentBecomes(cfg: Config, q: Q, i: nat, t: int, r: Q)
    requires i < |q.queue| && q.queue[i].state == RequestMsgDelivery
    requires r == SetState(cfg, Send(q, i), i, AskedForMsgDelivery, t)
    ensures Became(q.queue, i, q.queue[i].(state := AskedForMsgDelivery, time := t + 15_000), r.queue)
    ensures r.born == q.born && r.sent == q.sent + multiset{q.queue[i].id}
  {
    SetStateTurns(cfg, Send(q, i), Send(q, i), i, q.queue[i], AskedForMsgDelivery, t, t + 15_000, r);
  }

  lemma DeliverTick(cfg: Config, q: Q, e: TickInput)
    requires DueIn(q, e, RequestMsgDelivery)
    ensures Tick(cfg, q, e) == DeliverStep(cfg, ReadClock(q, e.now), 0, e)
  {
    DueTick(cfg, q, e);
    DeliverCase(cfg, ReadClock(q, e.now), e);
  }

  /** The delivery itself. */
  lemma Delivers(cfg: Config, q: Q, e: TickInput)
    requires DueIn(q, e, RequestMsgDelivery) && e.packOk && TriesLeft(cfg, q.queue[0]) && !TooSoon(cfg, e)
    ensures HandedOver(q, 0, e.tLast, Tick(cfg, q, e))
  {
    DeliverTick(cfg, q, e);
    DeliverStepSends(cfg, ReadClock(q, e.now), 0, e);
  }

  /** The try is counted, nothing is sent, and the message is in error or, if it was packed, deleted. */
  ghost predicate Failed(q: Q, i: nat, e: TickInput, r: Q)
    requires i < |q.queue|
  {
    var m, next := q.queue[i], if e.packOk then DeleteMe else NoState;
    Turned(q, i, m.(retries := m.retries + 1, state := next, time := e.tLast), r)
  }

  lemma DeliverStepFails(cfg: Config, q: Q, i: nat, e: TickInput)
    requires i < |q.queue| && q.queue[i].state == RequestMsgDelivery && (!e.packOk || !TriesLeft(cfg, q.queue[i]))
    ensures Failed(q, i, e, DeliverStep(cfg, q, i, e))
  {
    var q1, next := CountTry(cfg, q, i), if e.packOk then DeleteMe else NoState;
    var m := q1.queue[i];
    var r := DeliverStep(cfg, q, i, e);
    GiveUpCase(cfg, q1, i, e);
    SetStateTurns(cfg, q1, q1, i, m, next, e.tLast, e.tLast, r);
    assert Without(q1.queue, i) == Without(q.queue, i);
    BecameVia(q.queue, i, q1.queue, i, m.(state := next, time := e.tLast), r.queue);
  }

  /** A message that cannot be packed is in error, one that was tried often enough is deleted; neither
      is sent. */
  lemma DeliveryFails(cfg: Config, q: Q, e: TickInput)
    requires DueIn(q, e, RequestMsgDelivery) && (!e.packOk || !TriesLeft(cfg, q.queue[0]))
    ensures Failed(q, 0, e, Tick(cfg, q, e))
  {
    DeliverTick(cfg, q, e);
    DeliverStepFails(cfg, ReadClock(q, e.now), 0, e);
  }

  /** Within the rate limit the message is put off where it stands, and the try is counted. */
  lemma DeliveryPutOff(cfg: Config, q: Q, e: TickInput)
    requires DueIn(q, e, RequestMsgDelivery) && e.packOk && TriesLeft(cfg, q.queue[0]) && TooSoon(cfg, e)
    ensures var m, r := q.queue[0], Tick(cfg, q, e);
            && r.queue == q.queue[0 := m.(retries := m.retries + 1, time := m.time + cfg.rateLimit)]
            && r.born == q.born && r.sent == q.sent
  {
    DeliverTick(cfg, q, e);
    WaitCase(cfg, CountTry(cfg, ReadClock(q, e.now), 0), 0, e);
  }

  /** Without an answer the delivery is tried again 60 seconds later. */
  lemma Unanswered(cfg: Config, q: Q, e: TickInput)
    requires DueIn(q, e, AskedForMsgDelivery)
    ensures Turned(q, 0, q.queue[0].(state := AwaitingTryMsgDelivery, time := e.tLast + 60_000), Tick(cfg, q, e))
  {
    DueTick(cfg, q, e);
    AskedCase(cfg, ReadClock(q, e.now), e);
    SetStateBecomes(cfg, ReadClock(q, e.now), 0, AwaitingTryMsgDelivery, e.tLast);
  }

  // ---- Two moves in one call ----

  lemma BecameVia(was: seq<Msg>, i: nat, mid: seq<Msg>, p: nat, m: Msg, now: seq<Msg>)
    requires i < |was| && p < |mid| && Without(mid, p) == Without(was, i) && Became(mid, p, m, now)
    ensures Became(was, i, m, now)
  {
  }

  /** Entry i of q has been moved to p with nothing but its state and time changed. */
  ghost predicate MovedTo(q: Q, i: nat, q1: Q, p: nat) {
    && i < |q.queue| && p < |q1.queue| && Without(q1.queue, p) == Without(q.queue, i)
    && q1.queue[p] == q.queue[i].(state := q1.queue[p].state, time := q1.queue[p].time)
    && q1.born == q.born && q1.sent == q.sent
  }

  /** Where the first of two moves leaves the head. */
  function Landing(cfg: Config, q: Q, newState: SmState, t: int): nat
    requires q.queue != []
  {
    NewPos(q.queue, 0, ActionTime(cfg, q.queue[0], newState, t))
  }

  lemma FirstMove(cfg: Config, q: Q, newState: SmState, t: int)
    requires q.queue != []
    ensures var q1, p := SetState(cfg, q, 0, newState, t), Landing(cfg, q, newState, t);
            MovedTo(q, 0, q1, p) && q1.queue[p].state == newState
  {
    SetStateMovesOne(cfg, q, 0, newState, t);
  }

  lemma HandedOverVia(q: Q, i: nat, q1: Q, p: nat, t: int, r: Q)
    requires MovedTo(q, i, q1, p) && HandedOver(q1, p, t, r)
    ensures HandedOver(q, i, t, r)
  {
    var m := q.queue[i];
    BecameVia(q.queue, i, q1.queue, p,
              m.(retries := m.retries + 1, state := AskedForMsgDelivery, time := t + 15_000), r.queue);
  }

  lemma TurnedVia(q: Q, i: nat, q1: Q, p: nat, m: Msg, r: Q)
    requires MovedTo(q, i, q1, p) && Turned(q1, p, m, r)
    ensures Turned(q, i, m, r)
  {
    BecameVia(q.queue, i, q1.queue, p, m, r.queue);
  }

  lemma FailedVia(q: Q, i: nat, q1: Q, p: nat, e: TickInput, r: Q)
    requires MovedTo(q, i, q1, p) && Failed(q1, p, e, r)
    ensures Failed(q, i, e, r)
  {
    var m, next := q.queue[i], if e.packOk then DeleteMe else NoState;
    BecameVia(q.queue, i, q1.queue, p, m.(retries := m.retries + 1, state := next, time := e.tLast), r.queue);
  }

  lemma SpawnedVia(q: Q, i: nat, q1: Q, p: nat, b: Msg, m: Msg, origin: Origin, r: Q)
    requires MovedTo(q, i, q1, p) && Spawned(q1, p, b, m, origin, r)
    ensures Spawned(q, i, b, m, origin, r)
  {
    assert Without([b] + q1.queue, p + 1) == [b] + Without(q1.queue, p);
    assert Without([b] + q.queue, i + 1) == [b] + Without(q.queue, i);
    BecameVia([b] + q.queue, i + 1, [b] + q1.queue, p + 1, m, r.queue);
  }

  lemma RetryMoves(cfg: Config, q: Q, e: TickInput)
    requires q.queue != []
    ensures RetryStep(cfg, q, e)
            == DeliverStep(cfg, SetState(cfg, q, 0, RequestMsgDelivery, e.tFirst),
                           Landing(cfg, q, RequestMsgDelivery, e.tFirst), e)
  {
  }

  lemma RetryTick(cfg: Config, q: Q, e: TickInput)
    requires DueIn(q, e, AwaitingTryMsgDelivery)
    ensures Tick(cfg, q, e) == RetryStep(cfg, ReadClock(q, e.now), e)
  {
    DueTick(cfg, q, e);
    RetryCase(cfg, ReadClock(q, e.now), e);
  }

  lemma SendsFrom(cfg: Config, q: Q, q1: Q, p: nat, e: TickInput, r: Q)
    requires MovedTo(q, 0, q1, p) && q1.queue[p].state == RequestMsgDelivery && r == DeliverStep(cfg, q1, p, e)
    requires e.packOk && TriesLeft(cfg, q.queue[0]) && !TooSoon(cfg, e)
    ensures HandedOver(q, 0, e.tLast, r)
  {
    DeliverStepSends(cfg, q1, p, e);
    HandedOverVia(q, 0, q1, p, e.tLast, r);
  }

  lemma RetryStepSends(cfg: Config, q: Q, e: TickInput)
    requires q.queue != []
    requires e.packOk && TriesLeft(cfg, q.queue[0]) && !TooSoon(cfg, e)
    ensures HandedOver(q, 0, e.tLast, RetryStep(cfg, q, e))
  {
    RetryMoves(cfg, q, e);
    FirstMove(cfg, q, RequestMsgDelivery, e.tFirst);
    SendsFrom(cfg, q, SetState(cfg, q, 0, RequestMsgDelivery, e.tFirst),
              Landing(cfg, q, RequestMsgDelivery, e.tFirst), e,
              RetryStep(cfg, q, e));
  }

  /** A retry is a delivery in the same call. */
  lemma Retries(cfg: Config, q: Q, e: TickInput)
    requires DueIn(q, e, AwaitingTryMsgDelivery) && e.packOk && TriesLeft(cfg, q.queue[0]) && !TooSoon(cfg, e)
    ensures HandedOver(q, 0, e.tLast, Tick(cfg, q, e))
  {
    RetryTick(cfg, q, e);
    RetryStepSends(cfg, ReadClock(q, e.now), e);
  }

  lemma FailsFrom(cfg: Config, q: Q, q1: Q, p: nat, e: TickInput, r: Q)
    requires MovedTo(q, 0, q1, p) && q1.queue[p].state == RequestMsgDelivery && r == DeliverStep(cfg, q1, p, e)
    requires !e.packOk || !TriesLeft(cfg, q.queue[0])
    ensures Failed(q, 0, e, r)
  {
    DeliverStepFails(cfg, q1, p, e);
    FailedVia(q, 0, q1, p, e, r);
  }

  lemma RetryStepFails(cfg: Config, q: Q, e: TickInput)
    requires q.queue != [] && (!e.packOk || !TriesLeft(cfg, q.queue[0]))
    ensures Failed(q, 0, e, RetryStep(cfg, q, e))
  {
    RetryMoves(cfg, q, e);
    FirstMove(cfg, q, RequestMsgDelivery, e.tFirst);
    FailsFrom(cfg, q, SetState(cfg, q, 0, RequestMsgDelivery, e.tFirst),
              Landing(cfg, q, RequestMsgDelivery, e.tFirst), e, RetryStep(cfg, q, e));
  }

  /** A retry that fails like a delivery. */
  lemma RetryFails(cfg: Config, q: Q, e: TickInput)
    requires DueIn(q, e, AwaitingTryMsgDelivery) && (!e.packOk || !TriesLeft(cfg, q.queue[0]))
    ensures Failed(q, 0, e, Tick(cfg, q, e))
  {
    RetryTick(cfg, q, e);
    RetryStepFails(cfg, ReadClock(q, e.now), e);
  }

  lemma ReadyMoves(cfg: Config, q: Q, e: TickInput)
    requires q.queue != [] && e.clid.Some?
    ensures AwaitRegisterStep(cfg, q, e)
            == RegisterStep(cfg, SetState(cfg, q, 0, RegisterHandset, e.tFirst),
                            Landing(cfg, q, RegisterHandset, e.tFirst), e)
  {
  }

  lemma RegistersFrom(cfg: Config, q: Q, q1: Q, p: nat, e: TickInput, b: Msg, r: Q)
    requires MovedTo(q, 0, q1, p) && q1.queue[p].state == RegisterHandset && r == RegisterStep(cfg, q1, p, e)
    requires e.originateOk && b == QueuedRegister(cfg, q.queue[0], e, |q.born|)
    ensures Spawned(q, 0, b, q.queue[0].(state := AskedToRegisterHandset, time := e.tLast + 2000),
                    RegistrationFor(q.queue[0].id), r)
  {
    var m := q.queue[0];
    RegisterStepSpawns(cfg, q1, p, e);
    assert QueuedRegister(cfg, q1.queue[p], e, |q.born|) == b;
    SpawnedVia(q, 0, q1, p, b, m.(state := AskedToRegisterHandset, time := e.tLast + 2000), RegistrationFor(m.id), r);
  }

  lemma ReadyStepSpawns(cfg: Config, q: Q, e: TickInput, b: Msg)
    requires q.queue != [] && e.clid.Some? && e.originateOk
    requires b == QueuedRegister(cfg, q.queue[0], e, |q.born|)
    ensures Spawned(q, 0, b, q.queue[0].(state := AskedToRegisterHandset, time := e.tLast + 2000),
                    RegistrationFor(q.queue[0].id), AwaitRegisterStep(cfg, q, e))
  {
    ReadyMoves(cfg, q, e);
    FirstMove(cfg, q, RegisterHandset, e.tFirst);
    RegistersFrom(cfg, q, SetState(cfg, q, 0, RegisterHandset, e.tFirst),
                  Landing(cfg, q, RegisterHandset, e.tFirst), e, b,
                  AwaitRegisterStep(cfg, q, e));
  }

  lemma ReadyStepRegisters(cfg: Config, q: Q, q0: Q, e: TickInput, r: Q)
    requires q.queue == q0.queue && q.born == q0.born && q.sent == q0.sent && q.queue != []
    requires e.clid.Some? && e.originateOk
    requires r == AwaitRegisterStep(cfg, q0, e)
    ensures Registered(cfg, q, e, 2000, r)
  {
    var b := QueuedRegister(cfg, q.queue[0], e, |q.born|);
    ReadyStepSpawns(cfg, q0, e, b);
    RegisteredBy(cfg, q, q0, e, b, 2000, r);
  }

  lemma ReadyTick(cfg: Config, q: Q, e: TickInput)
    requires DueIn(q, e, AwaitingRegisterHandset)
    ensures Tick(cfg, q, e) == AwaitRegisterStep(cfg, ReadClock(q, e.now), e)
  {
    DueTick(cfg, q, e);
    AwaitRegisterCase(cfg, ReadClock(q, e.now), e);
  }

  /** Once the registry knows a caller id the message registers in the same call. */
  lemma RegistersWhenKnown(cfg: Config, q: Q, e: TickInput)
    requires DueIn(q, e, AwaitingRegisterHandset) && e.clid.Some? && e.originateOk
    ensures Registered(cfg, q, e, 2000, Tick(cfg, q, e))
  {
    ReadyTick(cfg, q, e);
    ReadyStepRegisters(cfg, q, ReadClock(q, e.now), e, Tick(cfg, q, e));
  }

  lemma NotRegisteredFrom(cfg: Config, q: Q, q1: Q, p: nat, e: TickInput, r: Q)
    requires MovedTo(q, 0, q1, p) && q1.queue[p].state == RegisterHandset && r == RegisterStep(cfg, q1, p, e)
    requires !e.originateOk
    ensures Turned(q, 0, q.queue[0].(state := DeleteMe, time := e.tLast), r)
  {
    SetStateTurns(cfg, q1, q1, p, q1.queue[p], DeleteMe, e.tLast, e.tLast, r);
    TurnedVia(q, 0, q1, p, q.queue[0].(state := DeleteMe, time := e.tLast), r);
  }

  lemma ReadyStepFails(cfg: Config, q: Q, e: TickInput)
    requires q.queue != [] && e.clid.Some? && !e.originateOk
    ensures Turned(q, 0, q.queue[0].(state := DeleteMe, time := e.tLast), AwaitRegisterStep(cfg, q, e))
  {
    ReadyMoves(cfg, q, e);
    FirstMove(cfg, q, RegisterHandset, e.tFirst);
    NotRegisteredFrom(cfg, q, SetState(cfg, q, 0, RegisterHandset, e.tFirst),
                  Landing(cfg, q, RegisterHandset, e.tFirst), e,
                      AwaitRegisterStep(cfg, q, e));
  }

  /** The same call when the REGISTER cannot be made. */
  lemma CannotRegisterWhenKnown(cfg: Config, q: Q, e: TickInput)
    requires DueIn(q, e, AwaitingRegisterHandset) && e.clid.Some? && !e.originateOk
    ensures Turned(q, 0, q.queue[0].(state := DeleteMe, time := e.tLast), Tick(cfg, q, e))
  {
    ReadyTick(cfg, q, e);
    ReadyStepFails(cfg, ReadClock(q, e.now), e);
  }

  // ---- States without a case of their own, and the end of a message ----

  lemma RestartMoves(cfg: Config, q: Q, e: TickInput)
    requires q.queue != []
    ensures RestartStep(cfg, q, e)
            == LookupFromStep(cfg, SetState(cfg, q, 0, Initial, e.tFirst), Landing(cfg, q, Initial, e.tFirst), e)
  {
  }

  lemma LookedUpFrom(cfg: Config, q: Q, q1: Q, p: nat, e: TickInput, newState: SmState, from: string, r: Q)
    requires MovedTo(q, 0, q1, p) && q1.queue[p].state == Initial && r == LookupFromStep(cfg, q1, p, e)
    requires LookupFromAddress(q.queue[0].fromUser, e.headerOk, e.clid) == (newState, from)
    ensures Turned(q, 0, q.queue[0].(fromUser := from, state := newState,
                                     time := e.tLast + Timeout(cfg, Initial, newState)), r)
  {
    EditSetStateBecomes(cfg, q1, p, q1.queue[p].(fromUser := from), newState, e.tLast);
    TurnedVia(q, 0, q1, p, q.queue[0].(fromUser := from, state := newState,
                                       time := e.tLast + Timeout(cfg, Initial, newState)), r);
  }

  lemma RestartStepTurns(cfg: Config, q: Q, e: TickInput, newState: SmState, from: string)
    requires q.queue != []
    requires LookupFromAddress(q.queue[0].fromUser, e.headerOk, e.clid) == (newState, from)
    ensures Turned(q, 0, q.queue[0].(fromUser := from, state := newState,
                                     time := e.tLast + Timeout(cfg, Initial, newState)), RestartStep(cfg, q, e))
  {
    RestartMoves(cfg, q, e);
    FirstMove(cfg, q, Initial, e.tFirst);
    LookedUpFrom(cfg, q, SetState(cfg, q, 0, Initial, e.tFirst), Landing(cfg, q, Initial, e.tFirst), e, newState, from,
                 RestartStep(cfg, q, e));
  }

  lemma RestartTick(cfg: Config, q: Q, e: TickInput, state: SmState)
    requires DueIn(q, e, state) && IsOther(state)
    ensures Tick(cfg, q, e) == RestartStep(cfg, ReadClock(q, e.now), e)
  {
    DueTick(cfg, q, e);
    RestartCase(cfg, ReadClock(q, e.now), e);
  }

  /** The destination is looked up 50 minutes later, an error is dealt with at once. */
  function AfterRestart(m: Msg, e: TickInput, d: string): Msg {
    var from := SenderFound(m, e, d);
    if from.Some? then m.(fromUser := from.value, state := RequestDestinationImsi, time := e.tLast + 3_000_000)
    else m.(state := NoState, time := e.tLast)
  }

  lemma RestartDelay(cfg: Config)
    ensures Timeout(cfg, Initial, RequestDestinationImsi) == 3_000_000 && Timeout(cfg, Initial, NoState) == 0
  {
  }

  lemma RestartedIs(cfg: Config, m: Msg, e: TickInput, d: string, newState: SmState, from: string)
    requires ImsiOf(m.fromUser, d) && LookupFromAddress(m.fromUser, e.headerOk, e.clid) == (newState, from)
    ensures m.(fromUser := from, state := newState, time := e.tLast + Timeout(cfg, Initial, newState))
            == AfterRestart(m, e, d)
  {
    SenderFoundIs(m, e, d);
    RestartDelay(cfg);
  }

  /** A message in one of the states that nothing waits in has its sender looked up in the same
      call. */
  lemma OthersRestart(cfg: Config, q: Q, e: TickInput, state: SmState, d: string)
    requires DueIn(q, e, state) && IsOther(state) && ImsiOf(q.queue[0].fromUser, d)
    ensures Turned(q, 0, AfterRestart(q.queue[0], e, d), Tick(cfg, q, e))
  {
    var q0, m := ReadClock(q, e.now), q.queue[0];
    var (newState, from) := LookupFromAddress(m.fromUser, e.headerOk, e.clid);
    var turned := m.(fromUser := from, state := newState, time := e.tLast + Timeout(cfg, Initial, newState));
    RestartedIs(cfg, m, e, d, newState, from);
    RestartTick(cfg, q, e, state);
    RestartStepTurns(cfg, q0, e, newState, from);
    SameTurned(q, q0, 0, turned, AfterRestart(m, e, d), RestartStep(cfg, q0, e), Tick(cfg, q, e));
  }

  /** A message in error and a finished one leave the queue. */
  lemma Leaves(cfg: Config, q: Q, e: TickInput)
    requires DueIn(q, e, NoState) || DueIn(q, e, DeleteMe)
    ensures var r := Tick(cfg, q, e);
            r.queue == q.queue[1..] && r.born == q.born && r.sent == q.sent
  {
    DueTick(cfg, q, e);
    assert Process(cfg, ReadClock(q, e.now), e) == Drop(ReadClock(q, e.now), 0);
  }

  /** Nothing happens before the head is due. */
  lemma NotDueYet(cfg: Config, q: Q, e: TickInput)
    requires q.queue == [] || e.now < q.queue[0].time
    ensures var r := Tick(cfg, q, e);
            r.queue == q.queue && r.born == q.born && r.sent == q.sent
  {
  }
}
