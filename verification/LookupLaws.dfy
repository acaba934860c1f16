/** What the address look-ups decide about a message, outcome by outcome. */
module LookupLaws {
  import opened Wrappers
  import opened Characters
  import Tags
  import opened Messages
  import opened Lookups
  import opened QueueOps
  import opened QueueSteps
  import opened Outcomes

  /** A user name with "imsi" or "IMSI" in front; any other one is taken for a number. */
  predicate SaysImsi(user: string) {
    |user| >= 4 && (user[..4] == "imsi" || user[..4] == "IMSI")
  }

  lemma SaysImsiNames(user: string)
    ensures SaysImsi(user) <==> NamesImsi(user)
    ensures SaysImsi(user) <==> !IsNumber(user)
  {
    if |user| >= 4 {
      assert user[..4][0] == user[..1][0];
    }
  }

  /** The head is due in this state. */
  ghost predicate DueIn(q: Q, e: TickInput, state: SmState) {
    q.queue != [] && q.queue[0].time <= e.now && q.queue[0].state == state
  }

  /** What the step function makes of the head, the call makes of it. */
  lemma ImsiTick(cfg: Config, q: Q, e: TickInput)
    requires DueIn(q, e, RequestDestinationImsi)
    ensures Tick(cfg, q, e) == LookupImsiStep(cfg, ReadClock(q, e.now), e)
  {
    DueTick(cfg, q, e);
    LookupImsiCase(cfg, ReadClock(q, e.now), e);
  }

  lemma FoundStep(cfg: Config, q: Q, e: TickInput, user: string, imsi: string)
    requires q.queue != [] && e.headerOk && q.queue[0].reqUser == Some(user)
    requires !SaysImsi(user) && e.imsi == Some(imsi) && SaysImsi(imsi)
    ensures LookupImsiStep(cfg, q, e)
            == EditSetState(cfg, q, 0, q.queue[0].(reqUser := Some(imsi)), RequestDestinationSipUrl, e.tLast)
  {
    SaysImsiNames(user);
    SaysImsiNames(imsi);
  }

  /** A number that the registry knows is replaced by its IMSI, and the host is looked up next, at once. */
  lemma NumberFound(cfg: Config, q: Q, e: TickInput, user: string, imsi: string)
    requires DueIn(q, e, RequestDestinationImsi) && e.headerOk && q.queue[0].reqUser == Some(user)
    requires !SaysImsi(user) && e.imsi == Some(imsi) && SaysImsi(imsi)
    ensures Turned(q, 0, q.queue[0].(reqUser := Some(imsi), state := RequestDestinationSipUrl, time := e.tLast),
                   Tick(cfg, q, e))
  {
    var q0 := ReadClock(q, e.now);
    ImsiTick(cfg, q, e);
    FoundStep(cfg, q0, e, user, imsi);
    EditTurns(cfg, q, q0, 0, q.queue[0].(reqUser := Some(imsi)), RequestDestinationSipUrl, e.tLast, e.tLast,
              Tick(cfg, q, e));
  }

  lemma RelayedStep(cfg: Config, q: Q, e: TickInput, user: string)
    requires q.queue != [] && e.headerOk && q.queue[0].reqUser == Some(user)
    requires !SaysImsi(user) && !(e.imsi.Some? && SaysImsi(e.imsi.value)) && cfg.globalRelay.host != ""
    ensures var m := q.queue[0];
            var from := if e.globalClid.Some? then e.globalClid.value else m.fromUser;
            LookupImsiStep(cfg, q, e)
            == EditSetState(cfg, q, 0, m.(fromUser := from, forRelay := true), RequestDestinationSipUrl, e.tLast)
  {
    SaysImsiNames(user);
    if e.imsi.Some? {
      SaysImsiNames(e.imsi.value);
    }
  }

  /** A number that the registry does not know goes to the relay: it stays in the Request-URI, the
      sender becomes the global number if there is one, and the content is to be converted. */
  lemma NumberRelayed(cfg: Config, q: Q, e: TickInput, user: string)
    requires DueIn(q, e, RequestDestinationImsi) && e.headerOk && q.queue[0].reqUser == Some(user)
    requires !SaysImsi(user) && !(e.imsi.Some? && SaysImsi(e.imsi.value)) && cfg.globalRelay.host != ""
    ensures var m := q.queue[0];
            var from := if e.globalClid.Some? then e.globalClid.value else m.fromUser;
            Turned(q, 0, m.(fromUser := from, forRelay := true, state := RequestDestinationSipUrl, time := e.tLast),
                   Tick(cfg, q, e))
  {
    var q0, m := ReadClock(q, e.now), q.queue[0];
    var from := if e.globalClid.Some? then e.globalClid.value else m.fromUser;
    ImsiTick(cfg, q, e);
    RelayedStep(cfg, q0, e, user);
    EditTurns(cfg, q, q0, 0, m.(fromUser := from, forRelay := true), RequestDestinationSipUrl, e.tLast, e.tLast,
              Tick(cfg, q, e));
  }

  /** The user with one "imsi" and one "IMSI" taken off its front, as far as they are there. */
  ghost predicate Stripped(user: string, d: string) {
    || user == "IMSI" + d
    || user == "imsiIMSI" + d
    || (user == "imsi" + d && !(|d| >= 4 && d[..4] == "IMSI"))
  }

  lemma StrippedIs(user: string, d: string)
    requires Stripped(user, d)
    ensures StripImsi(user) == d && SaysImsi(user)
  {
    if user == "IMSI" + d {
      assert user[..4] == "IMSI" && user[4..] == d && user[0] == 'I';
      assert user[..4][0] == user[0];
    } else if user == "imsiIMSI" + d {
      assert user[..4] == "imsi" && user[4..] == "IMSI" + d;
      assert user[4..][..4] == "IMSI" && user[4..][4..] == d;
    } else {
      assert user[..4] == "imsi" && user[4..] == d;
    }
  }

  lemma KeptStep(cfg: Config, q: Q, e: TickInput, user: string, d: string)
    requires q.queue != [] && e.headerOk && q.queue[0].reqUser == Some(user) && Stripped(user, d)
    ensures LookupImsiStep(cfg, q, e)
            == if |d| == 14 || |d| == 15 then EditSetState(cfg, q, 0, q.queue[0], RequestDestinationSipUrl, e.tLast)
               else SetState(cfg, q, 0, NoState, e.tLast)
  {
    StrippedIs(user, d);
    SaysImsiNames(user);
    assert q.queue[0].(reqUser := Some(user)) == q.queue[0];
  }

  /** An IMSI has 14 or 15 characters: then it is kept and the host is looked up next. */
  lemma ImsiKept(cfg: Config, q: Q, e: TickInput, user: string, d: string)
    requires DueIn(q, e, RequestDestinationImsi) && e.headerOk && q.queue[0].reqUser == Some(user)
    requires Stripped(user, d) && (|d| == 14 || |d| == 15)
    ensures Turned(q, 0, q.queue[0].(state := RequestDestinationSipUrl, time := e.tLast), Tick(cfg, q, e))
  {
    var q0 := ReadClock(q, e.now);
    ImsiTick(cfg, q, e);
    KeptStep(cfg, q0, e, user, d);
    EditTurns(cfg, q, q0, 0, q.queue[0], RequestDestinationSipUrl, e.tLast, e.tLast, Tick(cfg, q, e));
  }

  /** An IMSI of any other length is an error. */
  lemma ImsiRejected(cfg: Config, q: Q, e: TickInput, user: string, d: string)
    requires DueIn(q, e, RequestDestinationImsi) && e.headerOk && q.queue[0].reqUser == Some(user)
    requires Stripped(user, d) && |d| != 14 && |d| != 15
    ensures Turned(q, 0, q.queue[0].(state := NoState, time := e.tLast), Tick(cfg, q, e))
  {
    var q0 := ReadClock(q, e.now);
    ImsiTick(cfg, q, e);
    KeptStep(cfg, q0, e, user, d);
    SetStateTurns(cfg, q, q0, 0, q.queue[0], NoState, e.tLast, e.tLast, Tick(cfg, q, e));
  }

  /** Without a sip Request-URI with a user the message is in error. */
  lemma NoAddress(cfg: Config, q: Q, e: TickInput)
    requires DueIn(q, e, RequestDestinationImsi) && (!e.headerOk || q.queue[0].reqUser.None?)
    ensures Turned(q, 0, q.queue[0].(state := NoState, time := e.tLast), Tick(cfg, q, e))
  {
    ImsiTick(cfg, q, e);
    SetStateTurns(cfg, q, ReadClock(q, e.now), 0, q.queue[0], NoState, e.tLast, e.tLast, Tick(cfg, q, e));
  }

  // ---- Bounces ----

  /** A number that cannot be reached at all. */
  ghost predicate Unreachable(cfg: Config, m: Msg, e: TickInput) {
    && e.headerOk && m.reqUser.Some? && !SaysImsi(m.reqUser.value)
    && !(e.imsi.Some? && SaysImsi(e.imsi.value)) && cfg.globalRelay.host == ""
  }

  lemma UnreachableStep(cfg: Config, q: Q, e: TickInput)
    requires q.queue != [] && Unreachable(cfg, q.queue[0], e)
    ensures var m, r := q.queue[0], LookupImsiStep(cfg, q, e);
            if m.fromUser != cfg.bounceCode && e.originateOk then
              r == SpawnSetState(cfg, q, 0, BounceMessage(cfg, e, m), BounceOf(m.id), BounceState(m), e.tInsert,
                                 DeleteMe, e.tLast)
            else r == SetState(cfg, q, 0, NoState, e.tLast)
  {
    var m := q.queue[0];
    SaysImsiNames(m.reqUser.value);
    if e.imsi.Some? {
      SaysImsiNames(e.imsi.value);
    }
  }

  /** A bounce goes back to the sender, in the state that fits how the sender is named. */
  ghost predicate IsBounce(cfg: Config, m: Msg, e: TickInput, id: nat, b: Msg) {
    IsNewMessage(cfg, e, b, id, cfg.bounceCode, m.fromUser,
                 if SaysImsi(m.fromUser) then RequestDestinationSipUrl else RequestDestinationImsi)
  }

  /** The bounce of a message as it stands in the queue. */
  function QueuedBounce(cfg: Config, m: Msg, e: TickInput, id: nat): Msg {
    BounceMessage(cfg, e, m).(id := id, state := BounceState(m), time := e.tInsert)
  }

  lemma BounceFields(cfg: Config, m: Msg, e: TickInput, id: nat)
    ensures IsBounce(cfg, m, e, id, QueuedBounce(cfg, m, e, id))
    ensures QueuedBounce(cfg, m, e, id).qtag == BounceMessage(cfg, e, m).qtag
  {
    SaysImsiNames(m.fromUser);
  }

  lemma NoWait(cfg: Config, m: Msg)
    ensures Timeout(cfg, NoState, BounceState(m)) == 0
  {
  }

  lemma BounceStands(cfg: Config, q: Q, e: TickInput)
    requires q.queue != [] && q.queue[0].state == RequestDestinationImsi
    ensures var m := q.queue[0];
            var r := SpawnSetState(cfg, q, 0, BounceMessage(cfg, e, m), BounceOf(m.id), BounceState(m), e.tInsert,
                                   DeleteMe, e.tLast);
            Spawned(q, 0, QueuedBounce(cfg, m, e, |q.born|),
                    m.(state := DeleteMe, time := e.tLast + cfg.bounceDelay), BounceOf(m.id), r)
  {
    var m := q.queue[0];
    NoWait(cfg, m);
    SpawnBecomes(cfg, q, 0, BounceMessage(cfg, e, m), BounceOf(m.id), BounceState(m), e.tInsert, DeleteMe, e.tLast,
                 QueuedBounce(cfg, m, e, |q.born|));
  }

  /** An unreachable message comes back to its sender: a message from the bounce code stands in the
      queue, and the message itself waits for its deletion. */
  lemma NumberBounced(cfg: Config, q: Q, e: TickInput)
    requires DueIn(q, e, RequestDestinationImsi) && Unreachable(cfg, q.queue[0], e)
    requires q.queue[0].fromUser != cfg.bounceCode && e.originateOk
    ensures var m, r := q.queue[0], Tick(cfg, q, e);
            exists b :: && IsBounce(cfg, m, e, |q.born|, b)
                        && Spawned(q, 0, b, m.(state := DeleteMe, time := e.tLast + cfg.bounceDelay), BounceOf(m.id), r)
  {
    var q0, m := ReadClock(q, e.now), q.queue[0];
    ImsiTick(cfg, q, e);
    UnreachableStep(cfg, q0, e);
    BounceStands(cfg, q0, e);
    BounceFields(cfg, m, e, |q.born|);
    assert IsBounce(cfg, m, e, |q.born|, QueuedBounce(cfg, m, e, |q.born|));
  }

  /** A message from the bounce code itself, or whose bounce cannot be made, is in error and nothing is
      born. */
  lemma NotBounced(cfg: Config, q: Q, e: TickInput)
    requires DueIn(q, e, RequestDestinationImsi) && Unreachable(cfg, q.queue[0], e)
    requires q.queue[0].fromUser == cfg.bounceCode || !e.originateOk
    ensures Turned(q, 0, q.queue[0].(state := NoState, time := e.tLast), Tick(cfg, q, e))
  {
    var q0 := ReadClock(q, e.now);
    ImsiTick(cfg, q, e);
    UnreachableStep(cfg, q0, e);
    SetStateTurns(cfg, q, q0, 0, q.queue[0], NoState, e.tLast, e.tLast, Tick(cfg, q, e));
  }

  // ---- The host ----

  /** Without a user in the Request-URI the message is in error. */
  lemma NoUser(cfg: Config, q: Q, e: TickInput)
    requires DueIn(q, e, RequestDestinationSipUrl) && q.queue[0].reqUser.None?
    ensures Turned(q, 0, q.queue[0].(state := NoState, time := e.tLast), Tick(cfg, q, e))
  {
    HostTick(cfg, q, e);
    SetStateTurns(cfg, q, ReadClock(q, e.now), 0, q.queue[0], NoState, e.tLast, e.tLast, Tick(cfg, q, e));
  }

  lemma HostTick(cfg: Config, q: Q, e: TickInput)
    requires DueIn(q, e, RequestDestinationSipUrl)
    ensures Tick(cfg, q, e) == LookupHostStep(cfg, ReadClock(q, e.now), e)
  {
    DueTick(cfg, q, e);
    LookupHostCase(cfg, ReadClock(q, e.now), e);
  }

  /** The message is sent on to a host at once, with a new Call-ID and otherwise as it was. */
  ghost predicate SentOn(cfg: Config, q: Q, e: TickInput, dest: HostPort, forRelay: bool, r: Q)
    requires q.queue != []
  {
    var m := q.queue[0];
    var host := if m.callId.host.Some? then Some(cfg.myHost) else None;
    Turned(q, 0, m.(dest := dest, forRelay := forRelay, callId := CallId(e.callNumber, host),
                    state := RequestMsgDelivery, time := e.tLast), r)
  }

  lemma LocatedFields(cfg: Config, m: Msg, user: string, e: TickInput)
    requires Tags.Tagged(m)
    ensures Located(cfg, m, user, e)
            == m.(dest := Destination(cfg, user, e.registration), forRelay := m.forRelay || IsNumber(user),
                  callId := CallId(e.callNumber, if m.callId.host.Some? then Some(cfg.myHost) else None))
  {
  }

  lemma HostStep(cfg: Config, q: Q, e: TickInput, user: string)
    requires q.queue != [] && q.queue[0].reqUser == Some(user)
    ensures LookupHostStep(cfg, q, e)
            == EditSetState(cfg, q, 0, Located(cfg, q.queue[0], user, e), RequestMsgDelivery, e.tLast)
  {
  }

  lemma HostLookedUp(cfg: Config, q: Q, e: TickInput, user: string)
    requires DueIn(q, e, RequestDestinationSipUrl) && q.queue[0].reqUser == Some(user) && Tags.Tagged(q.queue[0])
    ensures SentOn(cfg, q, e, Destination(cfg, user, e.registration), q.queue[0].forRelay || IsNumber(user),
                   Tick(cfg, q, e))
  {
    var q0 := ReadClock(q, e.now);
    HostTick(cfg, q, e);
    HostStep(cfg, q0, e, user);
    LocatedFields(cfg, q.queue[0], user, e);
    EditTurns(cfg, q, q0, 0, Located(cfg, q.queue[0], user, e), RequestMsgDelivery, e.tLast, e.tLast,
              Tick(cfg, q, e));
  }

  /** A number goes to the relay and is converted for it. */
  lemma RelayHost(cfg: Config, q: Q, e: TickInput, user: string)
    requires DueIn(q, e, RequestDestinationSipUrl) && q.queue[0].reqUser == Some(user) && Tags.Tagged(q.queue[0])
    requires !SaysImsi(user)
    ensures SentOn(cfg, q, e, cfg.globalRelay, true, Tick(cfg, q, e))
  {
    HostLookedUp(cfg, q, e, user);
    SaysImsiNames(user);
  }

  /** An IMSI goes to where it registered from, or to the local base station if that is not known. */
  lemma SubscriberHost(cfg: Config, q: Q, e: TickInput, imsi: string, host: string, port: string)
    requires DueIn(q, e, RequestDestinationSipUrl) && q.queue[0].reqUser == Some(imsi) && Tags.Tagged(q.queue[0])
    requires SaysImsi(imsi) && forall i :: 0 <= i < |host| ==> host[i] != ':'
    ensures e.registration == Some(host + (":" + port)) ==>
              SentOn(cfg, q, e, HostPort(host, port), q.queue[0].forRelay, Tick(cfg, q, e))
    ensures e.registration == Some(host) ==>
              SentOn(cfg, q, e, HostPort(host, cfg.defaultPort), q.queue[0].forRelay, Tick(cfg, q, e))
    ensures e.registration == None ==>
              SentOn(cfg, q, e, HostPort("127.0.0.1", cfg.defaultPort), q.queue[0].forRelay, Tick(cfg, q, e))
  {
    HostLookedUp(cfg, q, e, imsi);
    SaysImsiNames(imsi);
    RegisteredAddress(cfg, imsi, host, port);
  }

  /** Both look-ups: a number that the registry knows leads to the place where its IMSI registered
      from, whatever the queue did in between. */
  lemma NumberReachesSubscriber(cfg: Config, q1: Q, e1: TickInput, q2: Q, e2: TickInput, user: string, imsi: string,
                                host: string, port: string)
    requires DueIn(q1, e1, RequestDestinationImsi) && e1.headerOk && q1.queue[0].reqUser == Some(user)
    requires !SaysImsi(user) && e1.imsi == Some(imsi) && SaysImsi(imsi)
    requires DueIn(q2, e2, RequestDestinationSipUrl) && Tags.Tagged(q2.queue[0])
    requires exists p: nat :: p < |Tick(cfg, q1, e1).queue| && Tick(cfg, q1, e1).queue[p].id == q1.queue[0].id
                              && q2.queue[0] == Tick(cfg, q1, e1).queue[p]
    requires forall p: nat, k: nat ::
               p < k < |Tick(cfg, q1, e1).queue| ==> Tick(cfg, q1, e1).queue[p].id != Tick(cfg, q1, e1).queue[k].id
    requires e2.registration == Some(host + (":" + port)) && forall i :: 0 <= i < |host| ==> host[i] != ':'
    ensures q2.queue[0].reqUser == Some(imsi)
    ensures SentOn(cfg, q2, e2, HostPort(host, port), q1.queue[0].forRelay, Tick(cfg, q2, e2))
  {
    var r, m := Tick(cfg, q1, e1).queue, q1.queue[0];
    NumberFound(cfg, q1, e1, user, imsi);
    var found := m.(reqUser := Some(imsi), state := RequestDestinationSipUrl, time := e1.tLast);
    var k: nat :| StandsAt(r, k, found) && Without(r, k) == Without(q1.queue, 0);
    var p: nat :| p < |r| && r[p].id == m.id && q2.queue[0] == r[p];
    assert p == k;
    SubscriberHost(cfg, q2, e2, imsi, host, port);
  }

  // ---- The sender ----

  lemma FromTick(cfg: Config, q: Q, e: TickInput)
    requires DueIn(q, e, RequestFromAddress)
    ensures Tick(cfg, q, e) == LookupFromStep(cfg, ReadClock(q, e.now), 0, e)
  {
    DueTick(cfg, q, e);
    LookupFromCase(cfg, ReadClock(q, e.now), e);
  }

  /** "imsi" in any mix of cases, and what follows it. */
  ghost predicate ImsiOf(from: string, d: string) {
    || (|from| >= 4 && from[0] in "iI" && from[1] in "mM" && from[2] in "sS" && from[3] in "iI" && from[4..] == d)
    || (!(|from| >= 4 && from[0] in "iI" && from[1] in "mM" && from[2] in "sS" && from[3] in "iI") && from == d)
  }

  /** The sender that the look-up leaves: one that starts like a number is kept, an IMSI of 14 or 15
      characters becomes its number if the registry knows one, everything else is an error. */
  function SenderFound(m: Msg, e: TickInput, d: string): Option<string> {
    if !e.headerOk then None
    else if m.fromUser != "" && (m.fromUser[0] == '+' || IsDigit(m.fromUser[0])) then Some(m.fromUser)
    else if |d| != 14 && |d| != 15 then None
    else if e.clid.Some? then e.clid
    else Some(m.fromUser)
  }

  lemma SenderFoundIs(m: Msg, e: TickInput, d: string)
    requires ImsiOf(m.fromUser, d)
    ensures var from := SenderFound(m, e, d);
            LookupFromAddress(m.fromUser, e.headerOk, e.clid)
            == if from.Some? then (RequestDestinationImsi, from.value) else (NoState, m.fromUser)
  {
    assert |m.fromUser| - ImsiPrefix(m.fromUser) == |d|;
  }

  lemma SenderStep(cfg: Config, q: Q, e: TickInput, newState: SmState, from: string)
    requires q.queue != [] && LookupFromAddress(q.queue[0].fromUser, e.headerOk, e.clid) == (newState, from)
    ensures LookupFromStep(cfg, q, 0, e) == EditSetState(cfg, q, 0, q.queue[0].(fromUser := from), newState, e.tLast)
  {
  }

  lemma SenderTick(cfg: Config, q: Q, e: TickInput, newState: SmState, from: string)
    requires DueIn(q, e, RequestFromAddress)
    requires LookupFromAddress(q.queue[0].fromUser, e.headerOk, e.clid) == (newState, from)
    requires newState == RequestDestinationImsi || newState == NoState
    ensures Turned(q, 0, q.queue[0].(fromUser := from, state := newState, time := e.tLast), Tick(cfg, q, e))
  {
    var q0 := ReadClock(q, e.now);
    FromTick(cfg, q, e);
    SenderStep(cfg, q0, e, newState, from);
    EditTurns(cfg, q, q0, 0, q.queue[0].(fromUser := from), newState, e.tLast, e.tLast, Tick(cfg, q, e));
  }

  /** The destination is looked up next, at once. */
  lemma SenderLookedUp(cfg: Config, q: Q, e: TickInput, d: string)
    requires DueIn(q, e, RequestFromAddress) && ImsiOf(q.queue[0].fromUser, d)
    ensures var m, r := q.queue[0], Tick(cfg, q, e);
            var from := SenderFound(m, e, d);
            Turned(q, 0, if from.Some? then m.(fromUser := from.value, state := RequestDestinationImsi, time := e.tLast)
                         else m.(state := NoState, time := e.tLast), r)
  {
    var m, from := q.queue[0], SenderFound(q.queue[0], e, d);
    SenderFoundIs(m, e, d);
    if from.Some? {
      SenderTick(cfg, q, e, RequestDestinationImsi, from.value);
    } else {
      assert m.(fromUser := m.fromUser, state := NoState, time := e.tLast) == m.(state := NoState, time := e.tLast);
      SenderTick(cfg, q, e, NoState, m.fromUser);
    }
  }
}
