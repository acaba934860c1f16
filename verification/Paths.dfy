/** Whole ways of a message through the timers, with the clock readings spelled out. */
module Paths {
  import opened Wrappers
  import opened Characters
  import Tags
  import opened Messages
  import opened Lookups
  import opened QueueOps
  import opened QueueSteps
  import opened Conservation
  import opened Outcomes
  import opened LookupLaws
  import opened TimerLaws

  lemma WithoutKeepsFront(queue: seq<Msg>, p: nat)
    requires 0 < p < |queue|
    ensures Without(queue, p)[0] == queue[0]
  {
  }

  lemma FirstPlace(now: seq<Msg>, p: nat, m: Msg, rest: seq<Msg>)
    requires StandsAt(now, p, m) && Without(now, p) == rest && forall k :: 0 <= k < |rest| ==> m.time <= rest[k].time
    ensures p == 0
  {
    if p > 0 {
      WithoutKeepsFront(now, p);
    }
  }

  /** A changed head that is due before all other entries stays in front. */
  lemma FrontStays(was: seq<Msg>, m: Msg, rest: seq<Msg>, now: seq<Msg>)
    requires Became(was, 0, m, now) && was[1..] == rest && forall k :: 0 <= k < |rest| ==> m.time <= rest[k].time
    ensures now == [m] + rest
  {
    var p: nat :| StandsAt(now, p, m) && Without(now, p) == Without(was, 0);
    assert Without(was, 0) == rest;
    FirstPlace(now, p, m, rest);
    assert now[1..] == Without(now, 0) == rest;
  }

  /** No entry is due before t. */
  ghost predicate NoneBefore(queue: seq<Msg>, t: int) {
    forall k :: 0 <= k < |queue| ==> t <= queue[k].time
  }

  /** A call that reads clock t throughout. */
  ghost predicate CallAt(e: TickInput, t: int) {
    e.now == t && e.tInsert == t && e.tFirst == t && e.tLast == t
  }

  /** Message m stands in front of these entries, in this state and due at t. */
  ghost predicate InFront(q: Q, m: Msg, state: SmState, t: int, rest: seq<Msg>) {
    q.queue == [m.(state := state, time := t)] + rest
  }

  lemma FrontDue(q: Q, e: TickInput, m: Msg, state: SmState, t: int, rest: seq<Msg>)
    requires InFront(q, m, state, t, rest) && e.now == t
    ensures DueIn(q, e, state) && q.queue[0] == m.(state := state, time := t) && q.queue[1..] == rest
  {
  }

  /** A message that turns while it is due before all others stays in front. */
  lemma Advances(q: Q, m: Msg, state: SmState, t: int, rest: seq<Msg>, r: Q)
    requires q.queue != [] && q.queue[1..] == rest && NoneBefore(rest, t)
    requires Turned(q, 0, m.(state := state, time := t), r)
    ensures InFront(r, m, state, t, rest) && r.sent == q.sent
  {
    FrontStays(q.queue, m.(state := state, time := t), rest, r.queue);
  }

  // ---- The calls for a text message, one lemma each ----

  /** An arriving message is due at once. */
  lemma Arrives(cfg: Config, q: Q, m: Msg, t: int)
    ensures var r := Apply(cfg, q, Arrive(m, t));
            InFront(r, m.(id := |q.born|), Initial, t, q.queue) && r.sent == q.sent
  {
    FrontIs(cfg, q, m, FromNetwork, Initial, t);
  }

  lemma Starts(cfg: Config, q: Q, e: TickInput, m: Msg, t: int, rest: seq<Msg>)
    requires InFront(q, m, Initial, t, rest) && NoneBefore(rest, t) && CallAt(e, t)
    requires m.kind == Request(MESSAGE) && e.shortCode.None?
    ensures var r := Tick(cfg, q, e);
            InFront(r, m, RequestFromAddress, t, rest) && r.sent == q.sent
  {
    FrontDue(q, e, m, Initial, t, rest);
    OrdinaryStarts(cfg, q, e);
    Advances(q, m, RequestFromAddress, t, rest, Tick(cfg, q, e));
  }

  lemma FindsSender(cfg: Config, q: Q, e: TickInput, m: Msg, t: int, rest: seq<Msg>, d: string, from: string)
    requires InFront(q, m, RequestFromAddress, t, rest) && NoneBefore(rest, t) && CallAt(e, t)
    requires ImsiOf(m.fromUser, d) && SenderFound(m, e, d) == Some(from)
    ensures var r := Tick(cfg, q, e);
            InFront(r, m.(fromUser := from), RequestDestinationImsi, t, rest) && r.sent == q.sent
  {
    FrontDue(q, e, m, RequestFromAddress, t, rest);
    SenderLookedUp(cfg, q, e, d);
    Advances(q, m.(fromUser := from), RequestDestinationImsi, t, rest, Tick(cfg, q, e));
  }

  lemma FindsImsi(cfg: Config, q: Q, e: TickInput, m: Msg, t: int, rest: seq<Msg>, user: string, imsi: string)
    requires InFront(q, m, RequestDestinationImsi, t, rest) && NoneBefore(rest, t) && CallAt(e, t)
    requires e.headerOk && m.reqUser == Some(user) && !SaysImsi(user) && e.imsi == Some(imsi) && SaysImsi(imsi)
    ensures var r := Tick(cfg, q, e);
            InFront(r, m.(reqUser := Some(imsi)), RequestDestinationSipUrl, t, rest) && r.sent == q.sent
  {
    FrontDue(q, e, m, RequestDestinationImsi, t, rest);
    NumberFound(cfg, q, e, user, imsi);
    Advances(q, m.(reqUser := Some(imsi)), RequestDestinationSipUrl, t, rest, Tick(cfg, q, e));
  }

  /** The message once its host is known. */
  function Addressed(cfg: Config, m: Msg, e: TickInput, dest: HostPort): Msg {
    m.(dest := dest, callId := CallId(e.callNumber, if m.callId.host.Some? then Some(cfg.myHost) else None))
  }

  lemma FindsHost(cfg: Config, q: Q, e: TickInput, m: Msg, t: int, rest: seq<Msg>, imsi: string, host: string,
                  port: string)
    requires InFront(q, m, RequestDestinationSipUrl, t, rest) && NoneBefore(rest, t) && CallAt(e, t)
    requires m.reqUser == Some(imsi) && SaysImsi(imsi) && Tags.Tagged(m)
    requires e.registration == Some(host + (":" + port)) && forall i :: 0 <= i < |host| ==> host[i] != ':'
    ensures var r := Tick(cfg, q, e);
            InFront(r, Addressed(cfg, m, e, HostPort(host, port)), RequestMsgDelivery, t, rest) && r.sent == q.sent
  {
    FrontDue(q, e, m, RequestDestinationSipUrl, t, rest);
    SubscriberHost(cfg, q, e, imsi, host, port);
    Advances(q, Addressed(cfg, m, e, HostPort(host, port)), RequestMsgDelivery, t, rest, Tick(cfg, q, e));
  }

  /** Message m has been handed over at clock t, and the other entries are these. */
  ghost predicate SentOff(q: Q, m: Msg, t: int, rest: seq<Msg>, r: Q) {
    && (exists p: nat :: StandsAt(r.queue, p, m.(retries := m.retries + 1, state := AskedForMsgDelivery,
                                                 time := t + 15_000)) && Without(r.queue, p) == rest)
    && r.sent == q.sent + multiset{m.id}
  }

  lemma HandedOverFront(q: Q, m: Msg, state: SmState, t: int, rest: seq<Msg>, r: Q)
    requires InFront(q, m, state, t, rest) && HandedOver(q, 0, t, r)
    ensures SentOff(q, m, t, rest, r)
  {
    assert Without(q.queue, 0) == rest;
  }

  lemma Sends(cfg: Config, q: Q, e: TickInput, m: Msg, t: int, rest: seq<Msg>)
    requires InFront(q, m, RequestMsgDelivery, t, rest) && CallAt(e, t)
    requires e.packOk && TriesLeft(cfg, m) && !TooSoon(cfg, e)
    ensures SentOff(q, m, t, rest, Tick(cfg, q, e))
  {
    FrontDue(q, e, m, RequestMsgDelivery, t, rest);
    Delivers(cfg, q, e);
    HandedOverFront(q, m, RequestMsgDelivery, t, rest, Tick(cfg, q, e));
  }

  lemma Waits(cfg: Config, q: Q, e: TickInput, m: Msg, t: int, rest: seq<Msg>)
    requires InFront(q, m, AskedForMsgDelivery, t, rest) && NoneBefore(rest, t + 60_000) && CallAt(e, t)
    ensures var r := Tick(cfg, q, e);
            InFront(r, m, AwaitingTryMsgDelivery, t + 60_000, rest) && r.sent == q.sent
  {
    FrontDue(q, e, m, AskedForMsgDelivery, t, rest);
    Unanswered(cfg, q, e);
    Advances(q, m, AwaitingTryMsgDelivery, t + 60_000, rest, Tick(cfg, q, e));
  }

  lemma SendsAgain(cfg: Config, q: Q, e: TickInput, m: Msg, t: int, rest: seq<Msg>)
    requires InFront(q, m, AwaitingTryMsgDelivery, t, rest) && CallAt(e, t)
    requires e.packOk && TriesLeft(cfg, m) && !TooSoon(cfg, e)
    ensures SentOff(q, m, t, rest, Tick(cfg, q, e))
  {
    FrontDue(q, e, m, AwaitingTryMsgDelivery, t, rest);
    Retries(cfg, q, e);
    HandedOverFront(q, m, AwaitingTryMsgDelivery, t, rest, Tick(cfg, q, e));
  }

  // ---- The whole way ----

  /** What the five calls learn: no short code, a sender, an IMSI for the number, the place it
      registered from, and that the message may be sent. */
  ghost predicate AllFound(cfg: Config, m: Msg, es: seq<TickInput>, from: string, imsi: string, host: string,
                           port: string) {
    && |es| == 5
    && es[0].shortCode.None?
    && (exists d :: ImsiOf(m.fromUser, d) && SenderFound(m, es[1], d) == Some(from))
    && m.reqUser.Some? && !SaysImsi(m.reqUser.value)
    && es[2].headerOk && es[2].imsi == Some(imsi) && SaysImsi(imsi)
    && es[3].registration == Some(host + (":" + port)) && (forall i :: 0 <= i < |host| ==> host[i] != ':')
    && es[4].packOk && !TooSoon(cfg, es[4])
  }

  /** Queue after a message has arrived and the first n timer calls were made. */
  function After(cfg: Config, q: Q, m: Msg, t: int, es: seq<TickInput>, n: nat): Q
    requires n <= |es|
  {
    if n == 0 then Apply(cfg, q, Arrive(m, t)) else Tick(cfg, After(cfg, q, m, t, es, n - 1), es[n - 1])
  }

  /** The first four calls find everything out without any delay. */
  lemma TextAddressed(cfg: Config, q: Q, m: Msg, t: int, es: seq<TickInput>, from: string, imsi: string,
                      host: string, port: string)
    requires NoneBefore(q.queue, t) && m.kind == Request(MESSAGE) && Tags.Tagged(m)
    requires AllFound(cfg, m, es, from, imsi, host, port) && forall n :: 0 <= n < 5 ==> CallAt(es[n], t)
    ensures var m1 := m.(id := |q.born|, fromUser := from, reqUser := Some(imsi));
            var r := After(cfg, q, m, t, es, 4);
            && InFront(r, Addressed(cfg, m1, es[3], HostPort(host, port)), RequestMsgDelivery, t, q.queue)
            && r.sent == q.sent
  {
    var d :| ImsiOf(m.fromUser, d) && SenderFound(m, es[1], d) == Some(from);
    var m0 := m.(id := |q.born|);
    Arrives(cfg, q, m, t);
    Starts(cfg, After(cfg, q, m, t, es, 0), es[0], m0, t, q.queue);
    FindsSender(cfg, After(cfg, q, m, t, es, 1), es[1], m0, t, q.queue, d, from);
    FindsImsi(cfg, After(cfg, q, m, t, es, 2), es[2], m0.(fromUser := from), t, q.queue, m.reqUser.value, imsi);
    FindsHost(cfg, After(cfg, q, m, t, es, 3), es[3], m0.(fromUser := from, reqUser := Some(imsi)), t, q.queue, imsi,
              host, port);
  }

  /** A text that arrives at clock t, when nothing else is due earlier, is handed to the network by five
      timer calls that all read clock t: from the number of its sender, to the IMSI of its recipient, at
      the place that IMSI registered from. It then waits 15 seconds for its answer, and everything else
      in the queue is untouched. */
  lemma TextReachesSubscriber(cfg: Config, q: Q, m: Msg, t: int, es: seq<TickInput>, from: string, imsi: string,
                              host: string, port: string)
    requires NoneBefore(q.queue, t) && m.kind == Request(MESSAGE) && Tags.Tagged(m) && m.retries == 0
    requires AllFound(cfg, m, es, from, imsi, host, port) && forall n :: 0 <= n < 5 ==> CallAt(es[n], t)
    ensures var m1 := m.(id := |q.born|, fromUser := from, reqUser := Some(imsi));
            SentOff(q, Addressed(cfg, m1, es[3], HostPort(host, port)), t, q.queue, After(cfg, q, m, t, es, 5))
  {
    var m1 := Addressed(cfg, m.(id := |q.born|, fromUser := from, reqUser := Some(imsi)), es[3], HostPort(host, port));
    TextAddressed(cfg, q, m, t, es, from, imsi, host, port);
    Sends(cfg, After(cfg, q, m, t, es, 4), es[4], m1, t, q.queue);
  }

  /** A text without an answer that is due in front at clock t is due for its retry at t + 60000, and is
      then handed to the network once more. */
  lemma TextRetried(cfg: Config, q: Q, m: Msg, t: int, rest: seq<Msg>, e1: TickInput, e2: TickInput)
    requires InFront(q, m, AskedForMsgDelivery, t, rest) && NoneBefore(rest, t + 60_000)
    requires CallAt(e1, t) && CallAt(e2, t + 60_000)
    requires e2.packOk && TriesLeft(cfg, m) && !TooSoon(cfg, e2)
    ensures InFront(Tick(cfg, q, e1), m, AwaitingTryMsgDelivery, t + 60_000, rest)
    ensures SentOff(q, m, t + 60_000, rest, Tick(cfg, Tick(cfg, q, e1), e2))
  {
    Waits(cfg, q, e1, m, t, rest);
    SendsAgain(cfg, Tick(cfg, q, e1), e2, m, t + 60_000, rest);
  }
}
