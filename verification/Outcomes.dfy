/** What a queue looks like after an entry was changed and moved, said without the operations. */
module Outcomes {
  import opened Wrappers
  import opened Messages
  import opened Lookups
  import opened QueueOps
  import opened QueueSteps
  import opened QueueInvariants
  import opened Conservation

  /** Entry i of `was` has become m and stands in front of the first entry that is not due before it;
      all other entries are as they were and in the same order. */
  ghost predicate Became(was: seq<Msg>, i: nat, m: Msg, now: seq<Msg>) {
    i < |was| && exists p: nat :: StandsAt(now, p, m) && Without(now, p) == Without(was, i)
  }

  ghost predicate StandsAt(now: seq<Msg>, p: nat, m: Msg) {
    && p < |now| && now[p] == m
    && (forall k :: 0 <= k < p ==> now[k].time < m.time)
    && (p + 1 < |now| ==> m.time <= now[p + 1].time)
  }

  /** The same, and nothing was born or sent. */
  ghost predicate Turned(q: Q, i: nat, m: Msg, r: Q) {
    Became(q.queue, i, m, r.queue) && r.born == q.born && r.sent == q.sent
  }

  lemma SetStateBecomes(cfg: Config, q: Q, i: nat, newState: SmState, t: int)
    requires i < |q.queue|
    ensures Turned(q, i, q.queue[i].(state := newState, time := t + Timeout(cfg, q.queue[i].state, newState)),
                   SetState(cfg, q, i, newState, t))
  {
    SetStateMovesOne(cfg, q, i, newState, t);
    var time := ActionTime(cfg, q.queue[i], newState, t);
    assert StandsAt(SetState(cfg, q, i, newState, t).queue, NewPos(q.queue, i, time),
                    q.queue[i].(state := newState, time := time));
  }

  lemma EditSetStateBecomes(cfg: Config, q: Q, i: nat, m: Msg, newState: SmState, t: int)
    requires i < |q.queue|
    ensures Turned(q, i, m.(state := newState, time := t + Timeout(cfg, m.state, newState)),
                   EditSetState(cfg, q, i, m, newState, t))
  {
    var q1 := Edit(cfg, q, i, m);
    SetStateBecomes(cfg, q1, i, newState, t);
    assert Without(q1.queue, i) == Without(q.queue, i);
  }

  lemma FrontIs(cfg: Config, q: Q, m: Msg, origin: Origin, state: SmState, t: int)
    ensures var r := PushFront(cfg, q, m, origin, state, t);
            && r.queue == [m.(id := |q.born|, state := state, time := t + Timeout(cfg, NoState, state))] + q.queue
            && r.born == q.born + [Birth(m.qtag, origin)] && r.sent == q.sent
  {
  }

  lemma SpawnIs(cfg: Config, q: Q, i: nat, m: Msg, origin: Origin, state: SmState, tInsert: int,
                newState: SmState, t: int)
    requires i < |q.queue|
    ensures SpawnSetState(cfg, q, i, m, origin, state, tInsert, newState, t)
            == SetState(cfg, PushFront(cfg, q, m, origin, state, tInsert), i + 1, newState, t)
  {
  }

  /** The new entry b stands in front when entry i turns into m. */
  ghost predicate Spawned(q: Q, i: nat, b: Msg, m: Msg, origin: Origin, r: Q) {
    && Became([b] + q.queue, i + 1, m, r.queue)
    && r.born == q.born + [Birth(b.qtag, origin)] && r.sent == q.sent
  }

  lemma SpawnBecomes(cfg: Config, q: Q, i: nat, m: Msg, origin: Origin, state: SmState, tInsert: int,
                     newState: SmState, t: int, b: Msg)
    requires i < |q.queue|
    requires b == m.(id := |q.born|, state := state, time := tInsert + Timeout(cfg, NoState, state))
    ensures Spawned(q, i, b,
                    q.queue[i].(state := newState, time := t + Timeout(cfg, q.queue[i].state, newState)), origin,
                    SpawnSetState(cfg, q, i, m, origin, state, tInsert, newState, t))
  {
    var q1 := PushFront(cfg, q, m, origin, state, tInsert);
    var r := SpawnSetState(cfg, q, i, m, origin, state, tInsert, newState, t);
    FrontIs(cfg, q, m, origin, state, tInsert);
    SpawnIs(cfg, q, i, m, origin, state, tInsert, newState, t);
    NamedBecomes(cfg, q1, [b] + q.queue, i + 1, q.queue[i], newState, t, r);
  }

  lemma NamedBecomes(cfg: Config, q: Q, queue: seq<Msg>, i: nat, m: Msg, newState: SmState, t: int, r: Q)
    requires q.queue == queue && i < |queue| && queue[i] == m && r == SetState(cfg, q, i, newState, t)
    ensures Became(queue, i, m.(state := newState, time := t + Timeout(cfg, m.state, newState)), r.queue)
    ensures r.born == q.born && r.sent == q.sent
  {
    SetStateBecomes(cfg, q, i, newState, t);
  }

  lemma SameTurned(q: Q, q0: Q, i: nat, m: Msg, m2: Msg, r: Q, r2: Q)
    requires q.queue == q0.queue && q.born == q0.born && q.sent == q0.sent && m == m2 && r == r2
    requires Turned(q0, i, m, r)
    ensures Turned(q, i, m2, r2)
  {
  }

  lemma SetStateTurns(cfg: Config, q: Q, q0: Q, i: nat, m: Msg, newState: SmState, t: int, time: int, r: Q)
    requires q.queue == q0.queue && q.born == q0.born && q.sent == q0.sent && i < |q.queue| && q.queue[i] == m
    requires r == SetState(cfg, q0, i, newState, t) && time == t + Timeout(cfg, m.state, newState)
    ensures Turned(q, i, m.(state := newState, time := time), r)
  {
    SetStateBecomes(cfg, q0, i, newState, t);
  }

  lemma EditTurns(cfg: Config, q: Q, q0: Q, i: nat, m: Msg, newState: SmState, t: int, time: int, r: Q)
    requires q.queue == q0.queue && q.born == q0.born && q.sent == q0.sent && i < |q.queue|
    requires r == EditSetState(cfg, q0, i, m, newState, t) && time == t + Timeout(cfg, m.state, newState)
    ensures Turned(q, i, m.(state := newState, time := time), r)
  {
    EditSetStateBecomes(cfg, q0, i, m, newState, t);
  }

  lemma SpawnTurns(cfg: Config, q: Q, i: nat, was: Msg, m: Msg, origin: Origin, state: SmState, tInsert: int,
                   newState: SmState, t: int, time: int, b: Msg, r: Q)
    requires i < |q.queue| && q.queue[i] == was
    requires r == SpawnSetState(cfg, q, i, m, origin, state, tInsert, newState, t)
    requires time == t + Timeout(cfg, was.state, newState)
    requires b == m.(id := |q.born|, state := state, time := tInsert + Timeout(cfg, NoState, state))
    ensures Spawned(q, i, b, was.(state := newState, time := time), origin, r)
  {
    SpawnBecomes(cfg, q, i, m, origin, state, tInsert, newState, t, b);
  }

  /** A text message made by the program itself: sent from its own address, its tag made of its CSeq
      number twice, not tried yet, and due at once. */
  ghost predicate IsNewMessage(cfg: Config, e: TickInput, b: Msg, id: nat, from: string, to: string, state: SmState) {
    && b.id == id && b.kind == Request(MESSAGE) && b.fromUser == from && b.reqUser == Some(to)
    && b.state == state && b.time == e.tInsert && OwnMessage(cfg, e, b) && b.linktag == None
    && b.dest == HostPort(cfg.myHost, cfg.defaultPort)
  }

  ghost predicate OwnMessage(cfg: Config, e: TickInput, b: Msg) {
    && b.cseq == e.newCseq && b.fromTag == e.newCseq && b.qtag == e.newCseq + "--" + e.newCseq
    && b.callId == CallId(e.callNumber, Some(cfg.myHost))
    && b.retries == 0 && !b.forRelay
  }

  /** A call of process_timeout that finds the head due acts on it. */
  lemma DueTick(cfg: Config, q: Q, e: TickInput)
    requires Due(q, e.now)
    ensures Tick(cfg, q, e) == Process(cfg, ReadClock(q, e.now), e)
    ensures ReadClock(q, e.now).queue == q.queue && ReadClock(q, e.now).born == q.born
    ensures ReadClock(q, e.now).sent == q.sent
  {
  }
}
