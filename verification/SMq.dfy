/** The queue object as the program runs it: fields updated step by step, proved equal to the
    step functions, so that everything proved about runs holds of it. */
module SmQueue {
  import opened Wrappers
  import opened Messages
  import opened Tags
  import opened Lookups
  import opened QueueOps
  import Steps = QueueSteps
  import Ops = QueueOps
  import opened QueueInvariants

  lemma Placed(cfg: Config, q: Q, i: nat, newState: SmState, t: int, sm: Msg, p: nat)
    requires i < |q.queue|
    requires sm == q.queue[i].(state := newState, time := ActionTime(cfg, q.queue[i], newState, t))
    requires p == InsertPos(Without(q.queue, i), sm.time)
    ensures p == NewPos(q.queue, i, ActionTime(cfg, q.queue[i], newState, t))
    ensures Ops.SetState(cfg, q, i, newState, t)
            == q.(queue := InsertAt(Without(q.queue, i), p, sm), clock := Max(q.clock, t))
  {
  }

  class SMq {
    const cfg: Config
    var list: seq<Msg>        // time_sorted_list
    var nextId: nat           // identity of the next list node

    // History
    ghost var born: seq<Birth>
    ghost var sent: multiset<nat>
    ghost var codeKept: bool
    ghost var clock: int
    ghost var horizon: int
    ghost var touched: int
    ghost var inPlace: bool
    ghost var restored: bool

    ghost function State(): Q
      reads this
    {
      Q(list, born, sent, codeKept, clock, horizon, touched, inPlace, restored)
    }

    ghost predicate Numbered()
      reads this
    {
      nextId == |born|
    }

    /** The invariant that every public method keeps. */
    ghost predicate Ok()
      reads this
    {
      Numbered() && Valid(cfg, State())
    }

    constructor (cfg: Config, ghost start: int)
      ensures this.cfg == cfg && State() == Empty(start) && Ok()
    {
      this.cfg := cfg;
      list, nextId := [], 0;
      born, sent, codeKept := [], multiset{}, true;
      clock, horizon, touched := start, start, start;
      inPlace, restored := false, false;
      new;
      forall id: nat
        ensures SentOk(cfg, 0, id, sent[id])
      {
      }
    }

    /** The scan of SMq::set_state: the first entry that is not earlier. */
    method FindPlace(time: int) returns (p: nat)
      ensures p == InsertPos(list, time)
    {
      p := 0;
      while p != |list| && list[p].time < time
        invariant p <= |list|
        invariant forall k :: 0 <= k < p ==> list[k].time < time
        decreases |list| - p
      {
        p := p + 1;
      }
    }

    /** SMq::set_state: takes the entry out, gives it its new state and time, and puts it in front of
        the first entry that is not earlier. Returns where the entry now stands. */
    method SetState(i: nat, newState: SmState, t: int) returns (p: nat)
      requires i < |list|
      modifies this
      ensures State() == old(Ops.SetState(cfg, State(), i, newState, t))
      ensures p == old(NewPos(list, i, ActionTime(cfg, list[i], newState, t)))
      ensures nextId == old(nextId)
    {
      ghost var q := State();
      var sm := list[i];
      list := list[..i] + list[i + 1..];
      sm := sm.(time := t + Timeout(cfg, sm.state, newState));
      sm := sm.(state := newState);
      p := FindPlace(sm.time);
      list := list[..p] + [sm] + list[p..];
      clock := Max(clock, t);
      Placed(cfg, q, i, newState, t, sm, p);
    }

    /** short_msg_pending::set_state with a time: the entry stays where it is. */
    method SetStateInPlace(i: nat, newState: SmState, time: int, ghost t: int)
      requires i < |list|
      modifies this
      ensures State() == old(Touch(State(), i, newState, time, t)) && nextId == old(nextId)
    {
      horizon := Max(horizon, Max(list[i].time, time));
      list := list[i := list[i].(state := newState, time := time)];
      clock := Max(clock, t);
      touched := clock;
      inPlace := true;
    }

    /** Changes other fields of an entry. */
    method Update(i: nat, m: Msg)
      requires i < |list|
      modifies this
      ensures State() == old(Edit(cfg, State(), i, m)) && nextId == old(nextId)
    {
      codeKept := codeKept && (list[i].fromUser == cfg.bounceCode ==> m.fromUser == cfg.bounceCode);
      list := list[i := m];
    }

    /** Changes other fields of an entry, then re-queues it. */
    method UpdateSetState(i: nat, m: Msg, newState: SmState, t: int)
      requires i < |list|
      modifies this
      ensures State() == old(EditSetState(cfg, State(), i, m, newState, t)) && nextId == old(nextId)
    {
      Update(i, m);
      var _ := SetState(i, newState, t);
    }

    /** splice(begin(), time_sorted_list, it) followed by pop_front. */
    method Remove(i: nat)
      requires i < |list|
      modifies this
      ensures State() == old(Drop(State(), i)) && nextId == old(nextId)
    {
      list := list[..i] + list[i + 1..];
    }

    method Splice(m: Msg, ghost origin: Origin, state: SmState, time: int, ghost t: int)
      requires Numbered()
      modifies this
      ensures State() == old(Enroll(State(), m, origin, state, time, t)) && Numbered()
    {
      list := [m.(id := nextId, state := state, time := time)] + list;
      nextId := nextId + 1;
      born := born + [Birth(m.qtag, origin)];
      clock := Max(clock, t);
      horizon := Max(horizon, time);
      touched := clock;
    }

    /** insert_new_message with a state: the message comes in NO_STATE. */
    method InsertNewMessage(m: Msg, ghost origin: Origin, state: SmState, t: int)
      requires Numbered()
      modifies this
      ensures State() == old(PushFront(cfg, State(), m, origin, state, t)) && Numbered()
    {
      Splice(m, origin, state, t + Timeout(cfg, NoState, state), t);
    }

    /** A message spawned by entry i is queued, then entry i is re-queued one place further back. */
    method Spawn(i: nat, m: Msg, ghost origin: Origin, state: SmState, tInsert: int, newState: SmState, t: int)
      requires Numbered() && i < |list|
      modifies this
      ensures State() == old(SpawnSetState(cfg, State(), i, m, origin, state, tInsert, newState, t)) && Numbered()
    {
      InsertNewMessage(m, origin, state, tInsert);
      var _ := SetState(i + 1, newState, t);
    }

    /** A datagram that passed validation is queued (main_loop). */
    method Receive(m: Msg, t: int)
      requires Ok() && Tagged(m) && m.retries == 0
      modifies this
      ensures State() == old(Steps.Apply(cfg, State(), Steps.Arrive(m, t))) && Ok()
    {
      InsertNewMessage(m, FromNetwork, Initial, t);
      StepKeeps(cfg, old(State()), Steps.Arrive(m, t));
    }

    /** An entry read back from the queue file is queued (read_queue_from_file). */
    method ReadBack(m: Msg, state: SmState, time: int)
      requires Ok() && Tagged(m) && m.retries == 0
      modifies this
      ensures State() == old(Steps.Apply(cfg, State(), Steps.ReadBack(m, state, time))) && Ok()
    {
      Splice(m, FromFile, state, time, clock);
      restored := true;
      StepKeeps(cfg, old(State()), Steps.ReadBack(m, state, time));
    }

    /** bounce_message: returns the next state of the bounced message, and whether a bounce was
        queued in front of everything. */
    method BounceMessage(m: Msg, e: TickInput) returns (newState: SmState, queued: bool)
      requires Numbered()
      modifies this
      ensures Numbered() && queued == Steps.Bounces(cfg, e, m)
      ensures newState == if queued then DeleteMe else NoState
      ensures State() == old(if Steps.Bounces(cfg, e, m)
                             then PushFront(cfg, State(), Steps.BounceMessage(cfg, e, m), BounceOf(m.id),
                                            Steps.BounceState(m), e.tInsert)
                             else State())
    {
      queued := false;
      newState := NoState;
      if cfg.bounceCode != m.fromUser {
        var toImsi := StartsWith(m.fromUser, "IMSI") || StartsWith(m.fromUser, "imsi");
        if e.originateOk {
          InsertNewMessage(Steps.NewMessage(cfg, e, cfg.bounceCode, m.fromUser), BounceOf(m.id),
                           if toImsi then RequestDestinationSipUrl else RequestDestinationImsi, e.tInsert);
          newState, queued := DeleteMe, true;
        }
      }
    }

    /** register_handset and the set_state that follows it. */
    method RegisterHandset(i: nat, e: TickInput)
      requires Numbered() && i < |list|
      modifies this
      ensures State() == old(Steps.RegisterStep(cfg, State(), i, e)) && Numbered()
    {
      if e.originateOk {
        Spawn(i, Steps.NewRegister(cfg, e, list[i]), RegistrationFor(list[i].id), RequestMsgDelivery, e.tInsert,
              AskedToRegisterHandset, e.tLast);
      } else {
        var _ := SetState(i, DeleteMe, e.tLast);
      }
    }

    /** The SCA_REPLY case of handle_short_code: the answer is queued as a new message. */
    method Reply(e: TickInput)
      requires Numbered() && list != []
      modifies this
      ensures State() == old(Steps.ShortCodeStep(cfg, State(), ShortCodeAction.Reply, e)) && Numbered()
    {
      var m := list[0];
      if e.originateOk {
        Spawn(0, Steps.NewMessage(cfg, e, Steps.UserOf(m), m.fromUser), ReplyTo(m.id), RequestDestinationSipUrl,
              e.tInsert, DeleteMe, e.tLast);
      } else {
        UpdateSetState(0, m, NoState, e.tLast);
      }
    }

    /** The cases of handle_short_code that queue nothing new. */
    method SimpleAction(action: ShortCodeAction, e: TickInput)
      requires list != [] && action != ShortCodeAction.Register && action != ShortCodeAction.Reply
      modifies this
      ensures State() == old(EditSetState(cfg, State(), 0, Steps.AfterAction(list[0], action),
                                          Steps.AnswerState(action), e.tLast))
      ensures nextId == old(nextId)
    {
      var m := list[0];
      match action {
        case RetryAfterDelay => m := m.(retries := m.retries + 1);
        case RestartProcessing(user) => m := m.(reqUser := Some(user));
        case _ =>
      }
      UpdateSetState(0, m, Steps.AnswerState(action), e.tLast);
    }

    /** handle_short_code and the set_state that follows it. */
    method HandleShortCode(action: ShortCodeAction, e: TickInput)
      requires Numbered() && list != []
      modifies this
      ensures State() == old(Steps.ShortCodeStep(cfg, State(), action, e)) && Numbered()
    {
      if action == ShortCodeAction.Register {
        RegisterHandset(0, e);
      } else if action == ShortCodeAction.Reply {
        Reply(e);
      } else {
        Steps.SimpleAction(cfg, State(), action, e);
        SimpleAction(action, e);
      }
    }

    /** lookup_from_address and the set_state that follows it. */
    method LookupFrom(i: nat, e: TickInput)
      requires i < |list|
      modifies this
      ensures State() == old(Steps.LookupFromStep(cfg, State(), i, e)) && nextId == old(nextId)
    {
      var m := list[i];
      var newState, from := NoState, m.fromUser;
      if e.headerOk {
        if StartsLikeNumber(from) {
          newState := RequestDestinationImsi;
        } else if ImsiLength(|from| - ImsiPrefix(from)) {
          newState := RequestDestinationImsi;
          if e.clid.Some? {
            from := e.clid.value;
          }
        }
      }
      UpdateSetState(i, m.(fromUser := from), newState, e.tLast);
    }

    /** lookup_uri_imsi on the head and the set_state that follows it. */
    method LookupImsi(e: TickInput)
      requires Numbered() && list != []
      modifies this
      ensures State() == old(Steps.LookupImsiStep(cfg, State(), e)) && Numbered()
    {
      var m := list[0];
      match LookupUriImsi(cfg, m.fromUser, m.reqUser, e.headerOk, e.imsi, e.globalClid) {
        case NotRoutable =>
          var _ := SetState(0, NoState, e.tLast);
        case Routed(user) =>
          UpdateSetState(0, m.(reqUser := Some(user)), RequestDestinationSipUrl, e.tLast);
        case Relayed(from) =>
          UpdateSetState(0, m.(fromUser := from, forRelay := true), RequestDestinationSipUrl, e.tLast);
        case Undeliverable =>
          var newState, queued := BounceMessage(m, e);
          var _ := SetState(if queued then 1 else 0, newState, e.tLast);
      }
    }

    /** lookup_uri_hostport on the head and the set_state that follows it. */
    method LookupHost(e: TickInput)
      requires list != []
      modifies this
      ensures State() == old(Steps.LookupHostStep(cfg, State(), e)) && nextId == old(nextId)
    {
      var m := list[0];
      if m.reqUser.None? {
        var _ := SetState(0, NoState, e.tLast);
      } else {
        var user := m.reqUser.value;
        var host, port := "127.0.0.1", cfg.defaultPort;
        if StartsWith(user, "+") || (!StartsWith(user, "imsi") && !StartsWith(user, "IMSI")) {
          host, port := cfg.globalRelay.host, cfg.globalRelay.port;
          m := m.(forRelay := true);
        } else if e.registration.Some? {
          var colon := ColonAt(e.registration.value);
          host := e.registration.value[..colon];
          if colon < |e.registration.value| {
            port := e.registration.value[colon + 1..];
          }
        }
        var callHost := if m.callId.host.Some? then Some(cfg.myHost) else None;
        m := m.(dest := HostPort(host, port), callId := CallId(e.callNumber, callHost));
        var tag := Qtag(m.cseq, m.fromTag);
        m := m.(qtag := tag, qtaghash := TagHash(tag));
        assert m == Steps.Located(cfg, list[0], user, e);
        UpdateSetState(0, m, RequestMsgDelivery, e.tLast);
      }
    }

    /** The REQUEST_MSG_DELIVERY case, after the try was counted. */
    method Attempt(i: nat, e: TickInput)
      requires i < |list|
      modifies this
      ensures State() == old(Steps.Attempt(cfg, State(), i, e)) && nextId == old(nextId)
    {
      var m := list[i];
      if !e.packOk {
        var _ := SetState(i, NoState, e.tLast);
      } else if cfg.maxRetries > 0 && m.retries > cfg.maxRetries {
        var _ := SetState(i, DeleteMe, e.tLast);
      } else if cfg.rateLimit > 0 && cfg.rateLimit >= e.elapsed {
        SetStateInPlace(i, m.state, m.time + cfg.rateLimit, clock);
      } else {
        sent := sent + multiset{m.id};
        var _ := SetState(i, AskedForMsgDelivery, e.tLast);
      }
    }

    /** The REQUEST_MSG_DELIVERY case. */
    method Deliver(i: nat, e: TickInput)
      requires i < |list|
      modifies this
      ensures State() == old(Steps.DeliverStep(cfg, State(), i, e)) && nextId == old(nextId)
    {
      Update(i, list[i].(retries := list[i].retries + 1));
      assert State() == old(Steps.CountTry(cfg, State(), i));
      Attempt(i, e);
    }

    /** An acknowledged REGISTER restarts its SMS. */
    method FreeLinked(i: nat, e: TickInput)
      requires i < |list|
      requires forall m :: m in list ==> Tagged(m)
      modifies this
      ensures State() == old(Steps.FreeLinkedSms(cfg, State(), i, e)) && nextId == old(nextId)
    {
      if list[i].linktag.Some? {
        var link := list[i].linktag.value;
        var oldsms := FindQueuedMsgByTag(list, link, TagHash(link));
        if oldsms < |list| && IsRegistrationState(list[oldsms].state) {
          SetStateInPlace(oldsms, Initial, e.tLast + Timeout(cfg, list[oldsms].state, Initial), e.tLast);
        }
      }
    }

    /** The 2xx case of handle_response. */
    method Acknowledge(i: nat, e: TickInput)
      requires i < |list|
      requires forall m :: m in list ==> Tagged(m)
      modifies this
      ensures State() == old(Steps.Acknowledged(cfg, State(), i, e)) && nextId == old(nextId)
    {
      if list[i].kind == Request(REGISTER) {
        FreeLinked(i, e);
      }
      Remove(i);
    }

    /** increase_acked_msg_timeout */
    method IncreaseAckedMsgTimeout(i: nat, e: TickInput)
      requires i < |list|
      modifies this
      ensures State() == old(Steps.IncreaseTimeout(cfg, State(), i, e)) && nextId == old(nextId)
    {
      SetStateInPlace(i, list[i].state, e.tLast + cfg.ackTimeout, e.tLast);
    }

    /** The 3xx and 6xx cases of handle_response. */
    method Redirect(i: nat, e: TickInput)
      requires i < |list|
      modifies this
      ensures State() == old(Steps.Redirected(cfg, State(), i, e)) && nextId == old(nextId)
    {
      SetStateInPlace(i, RequestDestinationImsi, e.tLast + Timeout(cfg, list[i].state, RequestDestinationImsi),
                      e.tLast);
    }

    /** The other 4xx of handle_response. */
    method Refuse(i: nat, e: TickInput)
      requires Numbered() && i < |list|
      modifies this
      ensures State() == old(Steps.Refused(cfg, State(), i, e)) && Numbered()
    {
      var m := list[i];
      var newState, queued := BounceMessage(m, e);
      SetStateInPlace(if queued then i + 1 else i, newState, e.tLast + Timeout(cfg, m.state, newState), e.tLast);
    }

    /** The status code switch of handle_response. */
    method Answer(i: nat, status: nat, e: TickInput)
      requires Numbered() && i < |list|
      requires forall m :: m in list ==> Tagged(m)
      modifies this
      ensures State() == old(Steps.Answered(cfg, State(), i, status, e)) && Numbered()
    {
      match status / 100 {
        case 1 => IncreaseAckedMsgTimeout(i, e);
        case 2 => Acknowledge(i, e);
        case 4 =>
          if status == 480 || status == 486 {
            IncreaseAckedMsgTimeout(i, e);
          } else {
            Refuse(i, e);
          }
        case 5 => IncreaseAckedMsgTimeout(i, e);
        case 3 => Redirect(i, e);
        case 6 => Redirect(i, e);
        case _ =>
      }
    }

    /** handle_response on the head: the response leaves the queue, then its request is looked up
        by tag and answered. */
    method HandleResponse(e: TickInput)
      requires Numbered() && list != [] && list[0].kind.Response?
      requires forall m :: m in list ==> Tagged(m)
      modifies this
      ensures State() == old(Steps.HandleResponse(cfg, State(), e)) && Numbered()
    {
      var response := list[0];
      assert response in list;
      Remove(0);
      assert forall m :: m in list ==> m in old(list);
      var i := FindQueuedMsgByTag(list, response.qtag, response.qtaghash);
      if i < |list| {
        Answer(i, response.kind.status, e);
      }
    }

    /** process_timeout: looks at the head, and if it is due acts on it by its state. */
    method ProcessTimeout(e: TickInput)
      requires Ok()
      modifies this
      ensures State() == old(Steps.Apply(cfg, State(), Steps.Timer(e))) && Ok()
    {
      StepKeeps(cfg, State(), Steps.Timer(e));
      clock := Max(clock, e.now);
      if list == [] || list[0].time > e.now {
        return;
      }
      Dispatch(e);
    }

    /** The INITIAL_STATE case: a response, an unsupported method, a short code, or a message. */
    method Start(e: TickInput)
      requires Numbered() && list != [] && list[0].state == Initial
      requires EntriesOk(cfg, born, sent, codeKept, list)
      modifies this
      ensures State() == old(Steps.Process(cfg, State(), e)) && Numbered()
    {
      if list[0].kind.Response? {
        forall m | m in list
          ensures Tagged(m)
        {
          var k :| 0 <= k < |list| && list[k] == m;
          assert EntryOk(cfg, born, sent, codeKept, list[k]);
        }
        HandleResponse(e);
      } else if list[0].kind.verb != MESSAGE {
        var _ := SetState(0, NoState, e.tLast);
      } else if e.shortCode.None? {
        var _ := SetState(0, RequestFromAddress, e.tLast);
      } else {
        HandleShortCode(e.shortCode.value, e);
      }
    }

    // The cases that fall through from one state into the next.

    method Retry(e: TickInput)
      requires Numbered() && list != []
      modifies this
      ensures State() == old(Steps.RetryStep(cfg, State(), e)) && Numbered()
    {
      var i := SetState(0, RequestMsgDelivery, e.tFirst);
      Deliver(i, e);
    }

    method AwaitRegister(e: TickInput)
      requires Numbered() && list != []
      modifies this
      ensures State() == old(Steps.AwaitRegisterStep(cfg, State(), e)) && Numbered()
    {
      if e.clid.None? {
        var _ := SetState(0, AwaitingRegisterHandset, e.tLast);
      } else {
        var i := SetState(0, SmState.RegisterHandset, e.tFirst);
        RegisterHandset(i, e);
      }
    }

    method Restart(e: TickInput)
      requires Numbered() && list != []
      modifies this
      ensures State() == old(Steps.RestartStep(cfg, State(), e)) && Numbered()
    {
      var i := SetState(0, Initial, e.tFirst);
      LookupFrom(i, e);
    }

    /** The lookup states of the switch of process_timeout. */
    method Lookup(e: TickInput)
      requires Numbered() && list != []
      requires list[0].state in {RequestFromAddress, RequestDestinationImsi, RequestDestinationSipUrl}
      modifies this
      ensures State() == old(Steps.Process(cfg, State(), e)) && Numbered()
    {
      match list[0].state {
        case RequestFromAddress =>
          Steps.LookupFromCase(cfg, State(), e);
          LookupFrom(0, e);
        case RequestDestinationImsi =>
          Steps.LookupImsiCase(cfg, State(), e);
          LookupImsi(e);
        case RequestDestinationSipUrl =>
          Steps.LookupHostCase(cfg, State(), e);
          LookupHost(e);
      }
    }

    /** Its delivery states. */
    method Delivery(e: TickInput)
      requires Numbered() && list != []
      requires list[0].state in {AwaitingTryMsgDelivery, RequestMsgDelivery, AskedForMsgDelivery}
      modifies this
      ensures State() == old(Steps.Process(cfg, State(), e)) && Numbered()
    {
      match list[0].state {
        case AwaitingTryMsgDelivery =>
          Steps.RetryCase(cfg, State(), e);
          Retry(e);
        case RequestMsgDelivery =>
          Steps.DeliverCase(cfg, State(), e);
          Deliver(0, e);
        case AskedForMsgDelivery =>
          Steps.AskedCase(cfg, State(), e);
          var _ := SetState(0, AwaitingTryMsgDelivery, e.tLast);
      }
    }

    /** Its registration states. */
    method Registration(e: TickInput)
      requires Numbered() && list != [] && IsRegistrationState(list[0].state)
      modifies this
      ensures State() == old(Steps.Process(cfg, State(), e)) && Numbered()
    {
      match list[0].state {
        case AwaitingRegisterHandset =>
          Steps.AwaitRegisterCase(cfg, State(), e);
          AwaitRegister(e);
        case RegisterHandset =>
          Steps.RegisterCase(cfg, State(), e);
          RegisterHandset(0, e);
        case AskedToRegisterHandset =>
          Steps.AskedToRegisterCase(cfg, State(), e);
          var _ := SetState(0, AwaitingRegisterHandset, e.tLast);
      }
    }

    /** The switch of process_timeout. */
    method Dispatch(e: TickInput)
      requires Numbered() && list != []
      requires EntriesOk(cfg, born, sent, codeKept, list)
      modifies this
      ensures State() == old(Steps.Process(cfg, State(), e)) && Numbered()
    {
      var state := list[0].state;
      if state == Initial {
        Start(e);
      } else if state == NoState || state == DeleteMe {
        Remove(0);
      } else if state in {RequestFromAddress, RequestDestinationImsi, RequestDestinationSipUrl} {
        Lookup(e);
      } else if state in {AwaitingTryMsgDelivery, RequestMsgDelivery, AskedForMsgDelivery} {
        Delivery(e);
      } else if IsRegistrationState(state) {
        Registration(e);
      } else {
        Restart(e);
      }
    }
  }
}
