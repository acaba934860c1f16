/** The steps of the queue as functions on its state: arrivals, restored entries and
    process_timeout with everything it calls. */
module QueueSteps {
  import opened Wrappers
  import opened Messages
  import opened Tags
  import opened Lookups
  import opened QueueOps

  /** A message that passed validate_short_msg and set_qtag, before it is queued. */
  function Incoming(kind: Kind, cseq: string, fromTag: string, fromUser: string, reqUser: Option<string>,
                    dest: HostPort, callId: CallId, linktag: Option<string>): (m: Msg)
    ensures Tagged(m) && m.retries == 0
  {
    var tag := Qtag(cseq, fromTag);
    Msg(0, kind, cseq, fromTag, fromUser, reqUser, dest, callId, false, NoState, 0, 0, tag, TagHash(tag), linktag)
  }

  /** originate_sm builds a MESSAGE whose from-tag is its own CSeq number. */
  function NewMessage(cfg: Config, e: TickInput, from: string, to: string): (m: Msg)
    ensures Tagged(m) && m.retries == 0
  {
    Incoming(Request(MESSAGE), e.newCseq, e.newCseq, from, Some(to), HostPort(cfg.myHost, cfg.defaultPort),
             CallId(e.callNumber, Some(cfg.myHost)), None)
  }

  /** register_handset builds a REGISTER linked to the SMS that asked for it. */
  function NewRegister(cfg: Config, e: TickInput, sms: Msg): (m: Msg)
    ensures Tagged(m) && m.retries == 0
  {
    Incoming(Request(REGISTER), e.newCseq, e.newCseq, sms.fromUser, None, cfg.registrar,
             CallId(e.callNumber, Some(cfg.myHost)), Some(sms.qtag))
  }

  function UserOf(m: Msg): string {
    if m.reqUser.Some? then m.reqUser.value else ""
  }

  /** bounce_message spawns an error text unless the sender is the bounce code itself. */
  predicate Bounces(cfg: Config, e: TickInput, m: Msg) {
    m.fromUser != cfg.bounceCode && e.originateOk
  }

  function BounceMessage(cfg: Config, e: TickInput, m: Msg): (b: Msg)
    ensures Tagged(b) && b.retries == 0
  {
    NewMessage(cfg, e, cfg.bounceCode, m.fromUser)
  }

  /** A bounce starts with the lookup that fits the sender it goes back to. */
  function BounceState(m: Msg): SmState {
    if NamesImsi(m.fromUser) then RequestDestinationSipUrl else RequestDestinationImsi
  }

  /** register_handset, then set_state on the SMS. */
  function RegisterStep(cfg: Config, q: Q, i: nat, e: TickInput): (r: Q)
    requires i < |q.queue|
    ensures Extends(q, r)
    ensures r.codeKept == q.codeKept
  {
    if e.originateOk then
      SpawnSetState(cfg, q, i, NewRegister(cfg, e, q.queue[i]), RegistrationFor(q.queue[i].id), RequestMsgDelivery,
                    e.tInsert, AskedToRegisterHandset, e.tLast)
    else
      SetState(cfg, q, i, DeleteMe, e.tLast)
  }

  /** Next state after the short-code actions that only set one. */
  function AnswerState(action: ShortCodeAction): SmState {
    match action
    case Done => DeleteMe
    case QuitSmqueue => DeleteMe
    case ExecSmqueue => DeleteMe
    case AwaitRegister => AwaitingRegisterHandset
    case TreatAsOrdinary => RequestFromAddress
    case RetryAfterDelay => RequestFromAddress
    case RestartProcessing(_) => Initial
    case _ => NoState
  }

  /** What the action itself changes in the message. */
  function AfterAction(m: Msg, action: ShortCodeAction): Msg {
    match action
    case RetryAfterDelay => m.(retries := m.retries + 1)
    case RestartProcessing(user) => m.(reqUser := Some(user))
    case _ => m
  }

  /** handle_short_code: the action of the short-code function for the head, then set_state. */
  function ShortCodeStep(cfg: Config, q: Q, action: ShortCodeAction, e: TickInput): (r: Q)
    requires q.queue != []
    ensures Extends(q, r)
    ensures r.codeKept == q.codeKept
  {
    var m := q.queue[0];
    if action == Register then RegisterStep(cfg, q, 0, e)
    else if action == Reply && e.originateOk then
      SpawnSetState(cfg, q, 0, NewMessage(cfg, e, UserOf(m), m.fromUser), ReplyTo(m.id), RequestDestinationSipUrl,
                    e.tInsert, DeleteMe, e.tLast)
    else
      EditSetState(cfg, q, 0, AfterAction(m, action), AnswerState(action), e.tLast)
  }

  lemma SimpleAction(cfg: Config, q: Q, action: ShortCodeAction, e: TickInput)
    requires q.queue != [] && action != Register && action != Reply
    ensures ShortCodeStep(cfg, q, action, e)
            == EditSetState(cfg, q, 0, AfterAction(q.queue[0], action), AnswerState(action), e.tLast)
  {
  }

  /** INITIAL_STATE, request: only MESSAGE is supported, short codes come first. */
  function StartRequest(cfg: Config, q: Q, e: TickInput): (r: Q)
    requires q.queue != [] && q.queue[0].kind.Request?
    ensures Extends(q, r)
    ensures r.codeKept == q.codeKept
  {
    if q.queue[0].kind.verb != MESSAGE then SetState(cfg, q, 0, NoState, e.tLast)
    else if e.shortCode.None? then SetState(cfg, q, 0, RequestFromAddress, e.tLast)
    else ShortCodeStep(cfg, q, e.shortCode.value, e)
  }

  lemma RejectedCase(cfg: Config, q: Q, e: TickInput)
    requires q.queue != [] && q.queue[0].kind.Request? && q.queue[0].kind.verb != MESSAGE
    ensures StartRequest(cfg, q, e) == SetState(cfg, q, 0, NoState, e.tLast)
  {
  }

  lemma TreatedCase(cfg: Config, q: Q, e: TickInput)
    requires q.queue != [] && q.queue[0].kind == Request(MESSAGE) && e.shortCode == Some(TreatAsOrdinary)
    ensures StartRequest(cfg, q, e) == EditSetState(cfg, q, 0, q.queue[0], RequestFromAddress, e.tLast)
  {
    SimpleAction(cfg, q, TreatAsOrdinary, e);
  }

  lemma OrdinaryCase(cfg: Config, q: Q, e: TickInput)
    requires q.queue != [] && q.queue[0].kind.Request? && q.queue[0].kind.verb == MESSAGE && e.shortCode.None?
    ensures StartRequest(cfg, q, e) == SetState(cfg, q, 0, RequestFromAddress, e.tLast)
  {
  }

  /** lookup_from_address on entry i, then set_state. */
  function LookupFromStep(cfg: Config, q: Q, i: nat, e: TickInput): (r: Q)
    requires i < |q.queue|
    ensures Extends(q, r)
    ensures StartsLikeNumber(cfg.bounceCode) ==> r.codeKept == q.codeKept
  {
    var (newState, from) := LookupFromAddress(q.queue[i].fromUser, e.headerOk, e.clid);
    EditSetState(cfg, q, i, q.queue[i].(fromUser := from), newState, e.tLast)
  }

  /** lookup_uri_imsi on the head, then set_state. */
  function LookupImsiStep(cfg: Config, q: Q, e: TickInput): (r: Q)
    requires q.queue != []
    ensures Extends(q, r)
    ensures q.queue[0].fromUser != cfg.bounceCode || e.globalClid in {None, Some(cfg.bounceCode)} ==>
              r.codeKept == q.codeKept
  {
    var m := q.queue[0];
    match LookupUriImsi(cfg, m.fromUser, m.reqUser, e.headerOk, e.imsi, e.globalClid)
    case NotRoutable => SetState(cfg, q, 0, NoState, e.tLast)
    case Routed(user) =>
      EditSetState(cfg, q, 0, m.(reqUser := Some(user)), RequestDestinationSipUrl, e.tLast)
    case Relayed(from) =>
      EditSetState(cfg, q, 0, m.(fromUser := from, forRelay := true), RequestDestinationSipUrl, e.tLast)
    case Undeliverable =>
      if Bounces(cfg, e, m) then
        SpawnSetState(cfg, q, 0, BounceMessage(cfg, e, m), BounceOf(m.id), BounceState(m), e.tInsert, DeleteMe, e.tLast)
      else SetState(cfg, q, 0, NoState, e.tLast)
  }

  /** What lookup_uri_hostport changes in a message: its destination and its Call-ID are new, and then
      the tag is set again. */
  function Located(cfg: Config, m: Msg, user: string, e: TickInput): Msg {
    var tag := Qtag(m.cseq, m.fromTag);
    m.(dest := Destination(cfg, user, e.registration),
       forRelay := m.forRelay || IsNumber(user),
       callId := CallId(e.callNumber, if m.callId.host.Some? then Some(cfg.myHost) else None),
       qtag := tag, qtaghash := TagHash(tag))
  }

  /** lookup_uri_hostport on the head, then set_state. */
  function LookupHostStep(cfg: Config, q: Q, e: TickInput): (r: Q)
    requires q.queue != []
    ensures Extends(q, r)
    ensures r.codeKept == q.codeKept
  {
    var m := q.queue[0];
    if m.reqUser.None? then SetState(cfg, q, 0, NoState, e.tLast)
    else EditSetState(cfg, q, 0, Located(cfg, m, m.reqUser.value, e), RequestMsgDelivery, e.tLast)
  }

  /** Entry i, already counted as tried: give up, wait, or send. */
  function Attempt(cfg: Config, q: Q, i: nat, e: TickInput): (r: Q)
    requires i < |q.queue|
    ensures Extends(q, r)
    ensures r.codeKept == q.codeKept
  {
    var m := q.queue[i];
    if !e.packOk then SetState(cfg, q, i, NoState, e.tLast)
    else if cfg.maxRetries > 0 && m.retries > cfg.maxRetries then SetState(cfg, q, i, DeleteMe, e.tLast)
    else if cfg.rateLimit > 0 && cfg.rateLimit >= e.elapsed then
      Touch(q, i, m.state, m.time + cfg.rateLimit, q.clock)
    else SetState(cfg, Send(q, i), i, AskedForMsgDelivery, e.tLast)
  }

  lemma GiveUpCase(cfg: Config, q: Q, i: nat, e: TickInput)
    requires i < |q.queue| && (!e.packOk || (cfg.maxRetries > 0 && q.queue[i].retries > cfg.maxRetries))
    ensures Attempt(cfg, q, i, e) == SetState(cfg, q, i, if e.packOk then DeleteMe else NoState, e.tLast)
  {
  }

  lemma WaitCase(cfg: Config, q: Q, i: nat, e: TickInput)
    requires i < |q.queue| && e.packOk && !(cfg.maxRetries > 0 && q.queue[i].retries > cfg.maxRetries)
    requires cfg.rateLimit > 0 && cfg.rateLimit >= e.elapsed
    ensures Attempt(cfg, q, i, e) == Touch(q, i, q.queue[i].state, q.queue[i].time + cfg.rateLimit, q.clock)
  {
  }

  lemma SendCase(cfg: Config, q: Q, i: nat, e: TickInput)
    requires i < |q.queue| && e.packOk && !(cfg.maxRetries > 0 && q.queue[i].retries > cfg.maxRetries)
    requires !(cfg.rateLimit > 0 && cfg.rateLimit >= e.elapsed)
    ensures Attempt(cfg, q, i, e) == SetState(cfg, Send(q, i), i, AskedForMsgDelivery, e.tLast)
  {
  }

  /** One more try for entry i. */
  function CountTry(cfg: Config, q: Q, i: nat): (r: Q)
    requires i < |q.queue|
    ensures |r.queue| == |q.queue|
    ensures Extends(q, r)
    ensures r.codeKept == q.codeKept
  {
    Edit(cfg, q, i, q.queue[i].(retries := q.queue[i].retries + 1))
  }

  /** REQUEST_MSG_DELIVERY on entry i. */
  function DeliverStep(cfg: Config, q: Q, i: nat, e: TickInput): (r: Q)
    requires i < |q.queue|
    ensures Extends(q, r)
    ensures r.codeKept == q.codeKept
  {
    Attempt(cfg, CountTry(cfg, q, i), i, e)
  }

  /** An acknowledged REGISTER lets its SMS start again, if that SMS still waits for it. */
  function FreeLinkedSms(cfg: Config, q: Q, i: nat, e: TickInput): (r: Q)
    requires i < |q.queue|
    ensures |r.queue| == |q.queue|
    ensures Extends(q, r)
    ensures r.codeKept == q.codeKept
  {
    var link := q.queue[i].linktag;
    if link.None? then q
    else
      var j := FirstWithTag(q.queue, link.value);
      if j < |q.queue| && IsRegistrationState(q.queue[j].state) then
        Touch(q, j, Initial, ActionTime(cfg, q.queue[j], Initial, e.tLast), e.tLast)
      else q
  }

  /** increase_acked_msg_timeout */
  function IncreaseTimeout(cfg: Config, q: Q, i: nat, e: TickInput): (r: Q)
    requires i < |q.queue|
    ensures Extends(q, r)
    ensures r.codeKept == q.codeKept
  {
    Touch(q, i, q.queue[i].state, e.tLast + cfg.ackTimeout, e.tLast)
  }

  /** 3xx and 6xx: look the destination up again. */
  function Redirected(cfg: Config, q: Q, i: nat, e: TickInput): (r: Q)
    requires i < |q.queue|
    ensures Extends(q, r)
    ensures r.codeKept == q.codeKept
  {
    Touch(q, i, RequestDestinationImsi, ActionTime(cfg, q.queue[i], RequestDestinationImsi, e.tLast), e.tLast)
  }

  /** 2xx: entry i is done. */
  function Acknowledged(cfg: Config, q: Q, i: nat, e: TickInput): (r: Q)
    requires i < |q.queue|
    ensures Extends(q, r)
    ensures r.codeKept == q.codeKept
  {
    Drop(if q.queue[i].kind == Request(REGISTER) then FreeLinkedSms(cfg, q, i, e) else q, i)
  }

  /** Other 4xx: entry i bounces where it stands. */
  function Refused(cfg: Config, q: Q, i: nat, e: TickInput): (r: Q)
    requires i < |q.queue|
    ensures Extends(q, r)
    ensures r.codeKept == q.codeKept
  {
    var m := q.queue[i];
    if Bounces(cfg, e, m) then
      Touch(PushFront(cfg, q, BounceMessage(cfg, e, m), BounceOf(m.id), BounceState(m), e.tInsert),
            i + 1, DeleteMe, ActionTime(cfg, m, DeleteMe, e.tLast), e.tLast)
    else
      Touch(q, i, NoState, ActionTime(cfg, m, NoState, e.tLast), e.tLast)
  }

  /** A response with this status code has arrived for entry i. */
  function Answered(cfg: Config, q: Q, i: nat, status: nat, e: TickInput): (r: Q)
    requires i < |q.queue|
    ensures Extends(q, r)
    ensures r.codeKept == q.codeKept
  {
    match status / 100
    case 1 => IncreaseTimeout(cfg, q, i, e)
    case 2 => Acknowledged(cfg, q, i, e)
    case 4 => if status == 480 || status == 486 then IncreaseTimeout(cfg, q, i, e) else Refused(cfg, q, i, e)
    case 5 => IncreaseTimeout(cfg, q, i, e)
    case 3 => Redirected(cfg, q, i, e)
    case 6 => Redirected(cfg, q, i, e)
    case _ => q
  }

  /** handle_response on the head: it leaves the queue and its request is looked up. */
  function HandleResponse(cfg: Config, q: Q, e: TickInput): (r: Q)
    requires q.queue != [] && q.queue[0].kind.Response?
    ensures Extends(q, r)
    ensures r.codeKept == q.codeKept
  {
    var response := q.queue[0];
    var q1 := Drop(q, 0);
    var i := FirstWithTag(q1.queue, response.qtag);
    if i == |q1.queue| then q1 else Answered(cfg, q1, i, response.kind.status, e)
  }

  // Three states set an intermediate state and fall through into the next case; the entry
  // has then already moved to its new place.

  function RetryStep(cfg: Config, q: Q, e: TickInput): (r: Q)
    requires q.queue != []
    ensures Extends(q, r)
    ensures r.codeKept == q.codeKept
  {
    DeliverStep(cfg, SetState(cfg, q, 0, RequestMsgDelivery, e.tFirst),
                NewPos(q.queue, 0, ActionTime(cfg, q.queue[0], RequestMsgDelivery, e.tFirst)), e)
  }

  /** ready_to_register asks whether the HLR knows a caller id yet. */
  function AwaitRegisterStep(cfg: Config, q: Q, e: TickInput): (r: Q)
    requires q.queue != []
    ensures Extends(q, r)
    ensures r.codeKept == q.codeKept
  {
    if e.clid.None? then SetState(cfg, q, 0, AwaitingRegisterHandset, e.tLast)
    else RegisterStep(cfg, SetState(cfg, q, 0, RegisterHandset, e.tFirst),
                      NewPos(q.queue, 0, ActionTime(cfg, q.queue[0], RegisterHandset, e.tFirst)), e)
  }

  function RestartStep(cfg: Config, q: Q, e: TickInput): (r: Q)
    requires q.queue != []
    ensures Extends(q, r)
    ensures StartsLikeNumber(cfg.bounceCode) ==> r.codeKept == q.codeKept
  {
    LookupFromStep(cfg, SetState(cfg, q, 0, Initial, e.tFirst),
                   NewPos(q.queue, 0, ActionTime(cfg, q.queue[0], Initial, e.tFirst)), e)
  }

  /** process_timeout looks at the head only. */
  predicate Due(q: Q, now: int) {
    q.queue != [] && q.queue[0].time <= now
  }

  /** What process_timeout does with a due head, by its state. */
  function Process(cfg: Config, q: Q, e: TickInput): (r: Q)
    requires q.queue != []
    ensures Extends(q, r)
  {
    match q.queue[0].state
    case Initial => if q.queue[0].kind.Response? then HandleResponse(cfg, q, e) else StartRequest(cfg, q, e)
    case NoState => Drop(q, 0)
    case DeleteMe => Drop(q, 0)
    case RequestFromAddress => LookupFromStep(cfg, q, 0, e)
    case RequestDestinationImsi => LookupImsiStep(cfg, q, e)
    case RequestDestinationSipUrl => LookupHostStep(cfg, q, e)
    case AwaitingTryMsgDelivery => RetryStep(cfg, q, e)
    case RequestMsgDelivery => DeliverStep(cfg, q, 0, e)
    case AskedForMsgDelivery => SetState(cfg, q, 0, AwaitingTryMsgDelivery, e.tLast)
    case AwaitingRegisterHandset => AwaitRegisterStep(cfg, q, e)
    case RegisterHandset => RegisterStep(cfg, q, 0, e)
    case AskedToRegisterHandset => SetState(cfg, q, 0, AwaitingRegisterHandset, e.tLast)
    // The remaining states have no case of their own: back to INITIAL_STATE and on into the lookup.
    case _ => RestartStep(cfg, q, e)
  }

  // The branches of the switch, one at a time.

  lemma LookupFromCase(cfg: Config, q: Q, e: TickInput)
    requires q.queue != [] && q.queue[0].state == RequestFromAddress
    ensures Process(cfg, q, e) == LookupFromStep(cfg, q, 0, e)
  {
  }

  lemma LookupImsiCase(cfg: Config, q: Q, e: TickInput)
    requires q.queue != [] && q.queue[0].state == RequestDestinationImsi
    ensures Process(cfg, q, e) == LookupImsiStep(cfg, q, e)
  {
  }

  lemma LookupHostCase(cfg: Config, q: Q, e: TickInput)
    requires q.queue != [] && q.queue[0].state == RequestDestinationSipUrl
    ensures Process(cfg, q, e) == LookupHostStep(cfg, q, e)
  {
  }

  lemma AwaitRegisterCase(cfg: Config, q: Q, e: TickInput)
    requires q.queue != [] && q.queue[0].state == AwaitingRegisterHandset
    ensures Process(cfg, q, e) == AwaitRegisterStep(cfg, q, e)
  {
  }

  lemma RegisterCase(cfg: Config, q: Q, e: TickInput)
    requires q.queue != [] && q.queue[0].state == RegisterHandset
    ensures Process(cfg, q, e) == RegisterStep(cfg, q, 0, e)
  {
  }

  lemma AskedToRegisterCase(cfg: Config, q: Q, e: TickInput)
    requires q.queue != [] && q.queue[0].state == AskedToRegisterHandset
    ensures Process(cfg, q, e) == SetState(cfg, q, 0, AwaitingRegisterHandset, e.tLast)
  {
  }

  lemma RetryCase(cfg: Config, q: Q, e: TickInput)
    requires q.queue != [] && q.queue[0].state == AwaitingTryMsgDelivery
    ensures Process(cfg, q, e) == RetryStep(cfg, q, e)
  {
  }

  lemma DeliverCase(cfg: Config, q: Q, e: TickInput)
    requires q.queue != [] && q.queue[0].state == RequestMsgDelivery
    ensures Process(cfg, q, e) == DeliverStep(cfg, q, 0, e)
  {
  }

  /** States without a case of their own. */
  predicate IsOther(s: SmState) {
    s == AskedForFromAddress || s == AwaitingTryDestinationImsi || s == AskedForDestinationImsi
    || s == AwaitingTryDestinationSipUrl || s == AskedForDestinationSipUrl
  }

  lemma RestartCase(cfg: Config, q: Q, e: TickInput)
    requires q.queue != [] && IsOther(q.queue[0].state)
    ensures Process(cfg, q, e) == RestartStep(cfg, q, e)
  {
  }

  lemma AskedCase(cfg: Config, q: Q, e: TickInput)
    requires q.queue != [] && q.queue[0].state == AskedForMsgDelivery
    ensures Process(cfg, q, e) == SetState(cfg, q, 0, AwaitingTryMsgDelivery, e.tLast)
  {
  }

  /** One call of process_timeout. */
  function Tick(cfg: Config, q: Q, e: TickInput): (r: Q)
    ensures Extends(q, r)
  {
    var q0 := ReadClock(q, e.now);
    if Due(q0, e.now) then Process(cfg, q0, e) else q0
  }

  /** Steps of a run; each is one section under the list lock. */
  datatype Step =
    | Arrive(m: Msg, t: int)                        // main_loop queues a valid datagram
    | ReadBack(m: Msg, state: SmState, time: int)   // read_queue_from_file queues a saved entry
    | Timer(e: TickInput)

  /** Only messages that set_qtag tagged are queued; they have not been tried yet. */
  ghost predicate StepOk(s: Step) {
    match s
    case Arrive(m, _) => Tagged(m) && m.retries == 0
    case ReadBack(m, _, _) => Tagged(m) && m.retries == 0
    case Timer(_) => true
  }

  function Apply(cfg: Config, q: Q, s: Step): Q {
    match s
    case Arrive(m, t) => PushFront(cfg, q, m, FromNetwork, Initial, t)
    case ReadBack(m, state, time) => Restore(q, m, state, time)
    case Timer(e) => Tick(cfg, q, e)
  }

  function Run(cfg: Config, q: Q, steps: seq<Step>): Q
    decreases |steps|
  {
    if steps == [] then q else Apply(cfg, Run(cfg, q, steps[..|steps| - 1]), steps[|steps| - 1])
  }
}
