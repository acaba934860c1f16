/** What every step keeps: the horizon order, distinct identities, stable tags, linked
    registrations, and the bound on delivery attempts. */
module QueueInvariants {
  import opened Wrappers
  import opened Messages
  import opened Tags
  import opened Lookups
  import opened QueueOps
  import opened QueueSteps

  // The quantified invariants name the fact about one pair, entry or id, so that a proof
  // can ask for the instance it needs.

  /** Two entries, the first nearer the head: different messages, and in order if the first
      lies beyond the horizon. */
  ghost predicate PairOk(a: Msg, b: Msg, horizon: int) {
    a.id != b.id && (a.time > horizon ==> a.time <= b.time)
  }

  ghost predicate OrderOk(queue: seq<Msg>, horizon: int) {
    forall i, j {:trigger PairOk(queue[i], queue[j], horizon)} ::
      0 <= i < j < |queue| ==> PairOk(queue[i], queue[j], horizon)
  }

  /** A birth record names an older parent, and a bounce is no bounce of a bounce. */
  ghost predicate BirthOk(born: seq<Birth>, codeKept: bool, c: nat, b: Birth) {
    match b.origin
    case FromNetwork => true
    case FromFile => true
    case ReplyTo(parent) => parent < c
    case BounceOf(parent) => parent < c && (codeKept && parent < |born| ==> !born[parent].origin.BounceOf?)
    case RegistrationFor(parent) => parent < c
  }

  /** An entry against the history: its tag is the one it was born with, a REGISTER made here is
      linked to its SMS, a bounce comes from the bounce code, and no delivery is uncounted. */
  ghost predicate EntryOk(cfg: Config, born: seq<Birth>, sent: multiset<nat>, codeKept: bool, m: Msg) {
    && m.id < |born|
    && Tagged(m)
    && m.qtag == born[m.id].tag
    && (born[m.id].origin.RegistrationFor? && born[m.id].origin.parent < |born| ==>
          m.linktag == Some(born[born[m.id].origin.parent].tag))
    && (codeKept && born[m.id].origin.BounceOf? ==> m.fromUser == cfg.bounceCode)
    && sent[m.id] <= m.retries
  }

  ghost predicate EntriesOk(cfg: Config, born: seq<Birth>, sent: multiset<nat>, codeKept: bool, queue: seq<Msg>) {
    forall i {:trigger EntryOk(cfg, born, sent, codeKept, queue[i])} ::
      0 <= i < |queue| ==> EntryOk(cfg, born, sent, codeKept, queue[i])
  }

  ghost predicate SentOk(cfg: Config, total: nat, id: nat, count: nat) {
    (cfg.maxRetries > 0 ==> count <= cfg.maxRetries) && (id >= total ==> count == 0)
  }

  ghost predicate HistoryOk(cfg: Config, born: seq<Birth>, sent: multiset<nat>, codeKept: bool) {
    && (forall c {:trigger BirthOk(born, codeKept, c, born[c])} ::
          0 <= c < |born| ==> BirthOk(born, codeKept, c, born[c]))
    && (forall id: nat {:trigger SentOk(cfg, |born|, id, sent[id])} :: SentOk(cfg, |born|, id, sent[id]))
  }

  ghost predicate TimerOk(m: Msg, latest: int) {
    m.time <= latest
  }

  ghost predicate TimersOk(queue: seq<Msg>, latest: int) {
    forall i {:trigger TimerOk(queue[i], latest)} :: 0 <= i < |queue| ==> TimerOk(queue[i], latest)
  }

  /** No timer runs past the last clock reading by more than the longest delay, and the horizon
      stays that close to the last front insert or in-place change. */
  ghost predicate ClockOk(cfg: Config, q: Q) {
    && TimersOk(q.queue, q.clock + MaxDelay(cfg))
    && q.horizon <= q.touched + MaxDelay(cfg)
    && q.touched <= q.clock
    && (!q.inPlace ==> q.horizon <= q.clock)
  }

  /** The invariant. Clock bounds are lost once an entry is read back from a file. */
  ghost predicate Valid(cfg: Config, q: Q) {
    && OrderOk(q.queue, q.horizon)
    && EntriesOk(cfg, q.born, q.sent, q.codeKept, q.queue)
    && HistoryOk(cfg, q.born, q.sent, q.codeKept)
    && (!q.restored ==> ClockOk(cfg, q))
  }

  // ---- Each list operation keeps the invariant ----

  lemma WithoutAt(queue: seq<Msg>, i: nat, k: nat)
    requires i < |queue| && k < |queue| - 1
    ensures Without(queue, i)[k] == queue[if k < i then k else k + 1]
  {
  }

  lemma InsertedAt(rest: seq<Msg>, p: nat, m: Msg, k: nat)
    requires p <= |rest| && k <= |rest|
    ensures InsertAt(rest, p, m)[k] == if k < p then rest[k] else if k == p then m else rest[k - 1]
  {
    var front := rest[..p] + [m];
    assert InsertAt(rest, p, m)[k] == if k < |front| then front[k] else rest[p..][k - |front|];
  }

  /** Taking an entry out and putting another one back in its place. */
  lemma Reinserted(queue: seq<Msg>, i: nat, m: Msg)
    requires i < |queue|
    ensures InsertAt(Without(queue, i), i, m) == queue[i := m]
    ensures InsertAt(Without(queue, i), i, queue[i]) == queue
  {
    assert Without(queue, i)[..i] == queue[..i] && Without(queue, i)[i..] == queue[i + 1..];
  }

  /** Where the entry at position k stood before the entry at i moved to p. */
  function Source(i: nat, p: nat, k: nat): nat {
    if k == p then i
    else
      var r := if k < p then k else k - 1;
      if r < i then r else r + 1
  }

  lemma MovedAt(queue: seq<Msg>, i: nat, p: nat, m: Msg, k: nat)
    requires i < |queue| && p < |queue| && k < |queue|
    ensures InsertAt(Without(queue, i), p, m)[k] == if k == p then m else queue[Source(i, p, k)]
  {
    InsertedAt(Without(queue, i), p, m, k);
    if k != p {
      WithoutAt(queue, i, if k < p then k else k - 1);
    }
  }

  lemma DropKeepsOrder(queue: seq<Msg>, i: nat, horizon: int)
    requires OrderOk(queue, horizon) && i < |queue|
    ensures OrderOk(Without(queue, i), horizon)
  {
    var rest := Without(queue, i);
    forall k, l | 0 <= k < l < |rest|
      ensures PairOk(rest[k], rest[l], horizon)
    {
      WithoutAt(queue, i, k);
      WithoutAt(queue, i, l);
      assert PairOk(queue[if k < i then k else k + 1], queue[if l < i then l else l + 1], horizon);
    }
  }

  lemma DropKeeps(cfg: Config, q: Q, i: nat)
    requires Valid(cfg, q) && i < |q.queue|
    ensures Valid(cfg, Drop(q, i))
  {
    var rest := Without(q.queue, i);
    DropKeepsOrder(q.queue, i, q.horizon);
    forall k | 0 <= k < |rest|
      ensures EntryOk(cfg, q.born, q.sent, q.codeKept, rest[k])
      ensures !q.restored ==> TimerOk(rest[k], q.clock + MaxDelay(cfg))
    {
      WithoutAt(q.queue, i, k);
      assert EntryOk(cfg, q.born, q.sent, q.codeKept, q.queue[if k < i then k else k + 1]);
      assert !q.restored ==> TimerOk(q.queue[if k < i then k else k + 1], q.clock + MaxDelay(cfg));
    }
  }

  /** Moving an entry to its place by time keeps the order, whatever its new time is. */
  lemma MoveKeepsOrder(queue: seq<Msg>, i: nat, m: Msg, horizon: int)
    requires OrderOk(queue, horizon) && i < |queue| && m.id == queue[i].id
    ensures OrderOk(InsertAt(Without(queue, i), NewPos(queue, i, m.time), m), horizon)
  {
    var rest := Without(queue, i);
    var p := NewPos(queue, i, m.time);
    var moved := InsertAt(rest, p, m);
    DropKeepsOrder(queue, i, horizon);
    forall k, l | 0 <= k < l < |moved|
      ensures PairOk(moved[k], moved[l], horizon)
    {
      MovedAt(queue, i, p, m, k);
      MovedAt(queue, i, p, m, l);
      InsertedAt(rest, p, m, k);
      InsertedAt(rest, p, m, l);
      var a, b := Source(i, p, k), Source(i, p, l);
      assert a < b ==> PairOk(queue[a], queue[b], horizon);
      assert b < a ==> PairOk(queue[b], queue[a], horizon);
      if k == p && l > p + 1 {
        assert PairOk(rest[p], rest[l - 1], horizon);
      }
    }
  }

  lemma RequeueKeeps(cfg: Config, q: Q, i: nat, newState: SmState, time: int, t: int)
    requires Valid(cfg, q) && i < |q.queue|
    requires time <= Max(q.clock, t) + MaxDelay(cfg)
    ensures Valid(cfg, Requeue(q, i, newState, time, t))
  {
    var m := q.queue[i].(state := newState, time := time);
    var p := NewPos(q.queue, i, time);
    var r := Requeue(q, i, newState, time, t);
    MoveKeepsOrder(q.queue, i, m, q.horizon);
    assert EntryOk(cfg, q.born, q.sent, q.codeKept, q.queue[i]);
    forall k | 0 <= k < |r.queue|
      ensures EntryOk(cfg, q.born, q.sent, q.codeKept, r.queue[k])
      ensures !q.restored ==> TimerOk(r.queue[k], r.clock + MaxDelay(cfg))
    {
      MovedAt(q.queue, i, p, m, k);
      assert EntryOk(cfg, q.born, q.sent, q.codeKept, q.queue[Source(i, p, k)]);
      assert !q.restored ==> TimerOk(q.queue[Source(i, p, k)], q.clock + MaxDelay(cfg));
    }
  }

  lemma SetStateKeeps(cfg: Config, q: Q, i: nat, newState: SmState, t: int)
    requires Valid(cfg, q) && i < |q.queue|
    ensures Valid(cfg, SetState(cfg, q, i, newState, t))
  {
    RequeueKeeps(cfg, q, i, newState, ActionTime(cfg, q.queue[i], newState, t), t);
  }

  lemma TouchKeeps(cfg: Config, q: Q, i: nat, newState: SmState, time: int, t: int)
    requires Valid(cfg, q) && i < |q.queue|
    requires time <= Max(q.clock, t) + MaxDelay(cfg)
    ensures Valid(cfg, Touch(q, i, newState, time, t))
  {
    var r := Touch(q, i, newState, time, t);
    assert EntryOk(cfg, q.born, q.sent, q.codeKept, q.queue[i]);
    assert !q.restored ==> TimerOk(q.queue[i], q.clock + MaxDelay(cfg));
    forall k, l | 0 <= k < l < |r.queue|
      ensures PairOk(r.queue[k], r.queue[l], r.horizon)
    {
      assert PairOk(q.queue[k], q.queue[l], q.horizon);
    }
    forall k | 0 <= k < |r.queue|
      ensures EntryOk(cfg, q.born, q.sent, q.codeKept, r.queue[k])
      ensures !q.restored ==> TimerOk(r.queue[k], r.clock + MaxDelay(cfg))
    {
      assert EntryOk(cfg, q.born, q.sent, q.codeKept, q.queue[k]);
      assert !q.restored ==> TimerOk(q.queue[k], q.clock + MaxDelay(cfg));
    }
  }

  lemma EnrollKeepsHistory(cfg: Config, born: seq<Birth>, sent: multiset<nat>, codeKept: bool, b: Birth)
    requires HistoryOk(cfg, born, sent, codeKept) && BirthOk(born, codeKept, |born|, b)
    ensures HistoryOk(cfg, born + [b], sent, codeKept)
  {
    forall c | 0 <= c < |born + [b]|
      ensures BirthOk(born + [b], codeKept, c, (born + [b])[c])
    {
      assert c < |born| ==> BirthOk(born, codeKept, c, born[c]);
    }
    forall id: nat
      ensures SentOk(cfg, |born + [b]|, id, sent[id])
    {
      assert SentOk(cfg, |born|, id, sent[id]);
    }
  }

  lemma EnrollKeepsEntry(cfg: Config, born: seq<Birth>, sent: multiset<nat>, codeKept: bool, b: Birth, m: Msg)
    requires HistoryOk(cfg, born, sent, codeKept) && EntryOk(cfg, born, sent, codeKept, m)
    ensures EntryOk(cfg, born + [b], sent, codeKept, m)
  {
    assert BirthOk(born, codeKept, m.id, born[m.id]);
  }

  lemma EnrollKeeps(cfg: Config, q: Q, m: Msg, origin: Origin, state: SmState, time: int, t: int)
    requires Valid(cfg, q) && Tagged(m)
    requires BirthOk(q.born, q.codeKept, |q.born|, Birth(m.qtag, origin))
    requires origin.BounceOf? ==> m.fromUser == cfg.bounceCode
    requires origin.RegistrationFor? ==> m.linktag == Some(q.born[origin.parent].tag)
    requires q.restored || time <= Max(q.clock, t)
    ensures Valid(cfg, Enroll(q, m, origin, state, time, t))
  {
    var r := Enroll(q, m, origin, state, time, t);
    EnrollKeepsHistory(cfg, q.born, q.sent, q.codeKept, Birth(m.qtag, origin));
    assert SentOk(cfg, |q.born|, |q.born|, q.sent[|q.born|]);
    forall k, l | 0 <= k < l < |r.queue|
      ensures PairOk(r.queue[k], r.queue[l], r.horizon)
    {
      assert EntryOk(cfg, q.born, q.sent, q.codeKept, q.queue[l - 1]);
      assert k > 0 ==> PairOk(q.queue[k - 1], q.queue[l - 1], q.horizon);
    }
    forall k | 0 <= k < |r.queue|
      ensures EntryOk(cfg, r.born, q.sent, q.codeKept, r.queue[k])
      ensures !q.restored ==> TimerOk(r.queue[k], r.clock + MaxDelay(cfg))
    {
      if k > 0 {
        EnrollKeepsEntry(cfg, q.born, q.sent, q.codeKept, Birth(m.qtag, origin), q.queue[k - 1]);
        assert !q.restored ==> TimerOk(q.queue[k - 1], q.clock + MaxDelay(cfg));
      }
    }
  }

  /** The states a message starts in have no delay. */
  lemma StartsAtOnce(cfg: Config, state: SmState)
    requires state in {Initial, RequestDestinationImsi, RequestDestinationSipUrl, RequestMsgDelivery}
    ensures Timeout(cfg, NoState, state) == 0
  {
  }

  /** What an edit may change: neither identity, time, tag nor link; tries only grow. */
  ghost predicate Edited(was: Msg, m: Msg) {
    && m.id == was.id && m.time == was.time && m.linktag == was.linktag && m.retries >= was.retries
    && m.qtag == was.qtag && m.qtaghash == was.qtaghash && m.cseq == was.cseq && m.fromTag == was.fromTag
  }

  lemma EditKeeps(cfg: Config, q: Q, i: nat, m: Msg)
    requires Valid(cfg, q) && i < |q.queue| && Edited(q.queue[i], m)
    ensures Valid(cfg, Edit(cfg, q, i, m))
  {
    var r := Edit(cfg, q, i, m);
    forall k, l | 0 <= k < l < |r.queue|
      ensures PairOk(r.queue[k], r.queue[l], r.horizon)
    {
      assert PairOk(q.queue[k], q.queue[l], q.horizon);
    }
    forall k | 0 <= k < |r.queue|
      ensures EntryOk(cfg, r.born, r.sent, r.codeKept, r.queue[k])
      ensures !q.restored ==> TimerOk(r.queue[k], r.clock + MaxDelay(cfg))
    {
      assert EntryOk(cfg, q.born, q.sent, q.codeKept, q.queue[k]);
      assert !q.restored ==> TimerOk(q.queue[k], q.clock + MaxDelay(cfg));
    }
    forall c | 0 <= c < |r.born|
      ensures BirthOk(r.born, r.codeKept, c, r.born[c])
    {
      assert BirthOk(q.born, q.codeKept, c, q.born[c]);
    }
  }

  lemma SendKeeps(cfg: Config, q: Q, i: nat)
    requires Valid(cfg, q) && i < |q.queue|
    requires q.sent[q.queue[i].id] < q.queue[i].retries
    requires cfg.maxRetries > 0 ==> q.queue[i].retries <= cfg.maxRetries
    ensures Valid(cfg, Send(q, i))
  {
    var r := Send(q, i);
    assert EntryOk(cfg, q.born, q.sent, q.codeKept, q.queue[i]);
    forall id: nat
      ensures SentOk(cfg, |q.born|, id, r.sent[id])
    {
      assert SentOk(cfg, |q.born|, id, q.sent[id]);
    }
    forall k | 0 <= k < |r.queue|
      ensures EntryOk(cfg, r.born, r.sent, r.codeKept, r.queue[k])
    {
      assert EntryOk(cfg, q.born, q.sent, q.codeKept, q.queue[k]);
      assert k < i ==> PairOk(q.queue[k], q.queue[i], q.horizon);
      assert i < k ==> PairOk(q.queue[i], q.queue[k], q.horizon);
    }
  }

  // ---- Each part of process_timeout keeps it ----

  lemma SpawnKeeps(cfg: Config, q: Q, m: Msg, origin: Origin, state: SmState, t: int)
    requires Valid(cfg, q) && Tagged(m)
    requires BirthOk(q.born, q.codeKept, |q.born|, Birth(m.qtag, origin))
    requires origin.BounceOf? ==> m.fromUser == cfg.bounceCode
    requires origin.RegistrationFor? ==> m.linktag == Some(q.born[origin.parent].tag)
    requires state in {Initial, RequestDestinationImsi, RequestDestinationSipUrl, RequestMsgDelivery}
    ensures Valid(cfg, PushFront(cfg, q, m, origin, state, t))
  {
    StartsAtOnce(cfg, state);
    EnrollKeeps(cfg, q, m, origin, state, t + Timeout(cfg, NoState, state), t);
  }

  lemma SameValid(cfg: Config, r: Q, s: Q)
    requires r == s && Valid(cfg, s)
    ensures Valid(cfg, r)
  {
  }

  lemma SpawnSetStateKeeps(cfg: Config, q: Q, i: nat, m: Msg, origin: Origin, state: SmState, tInsert: int,
                           newState: SmState, t: int)
    requires Valid(cfg, q) && Tagged(m) && i < |q.queue|
    requires BirthOk(q.born, q.codeKept, |q.born|, Birth(m.qtag, origin))
    requires origin.BounceOf? ==> m.fromUser == cfg.bounceCode
    requires origin.RegistrationFor? ==> m.linktag == Some(q.born[origin.parent].tag)
    requires state in {Initial, RequestDestinationImsi, RequestDestinationSipUrl, RequestMsgDelivery}
    ensures Valid(cfg, SpawnSetState(cfg, q, i, m, origin, state, tInsert, newState, t))
  {
    var q1 := PushFront(cfg, q, m, origin, state, tInsert);
    SpawnKeeps(cfg, q, m, origin, state, tInsert);
    SetStateKeeps(cfg, q1, i + 1, newState, t);
    SameValid(cfg, SpawnSetState(cfg, q, i, m, origin, state, tInsert, newState, t),
              SetState(cfg, q1, i + 1, newState, t));
  }

  lemma EditSetStateKeeps(cfg: Config, q: Q, i: nat, m: Msg, newState: SmState, t: int)
    requires Valid(cfg, q) && i < |q.queue| && Edited(q.queue[i], m)
    ensures Valid(cfg, EditSetState(cfg, q, i, m, newState, t))
  {
    EditKeeps(cfg, q, i, m);
    SetStateKeeps(cfg, Edit(cfg, q, i, m), i, newState, t);
  }

  lemma RegisterStepKeeps(cfg: Config, q: Q, i: nat, e: TickInput)
    requires Valid(cfg, q) && i < |q.queue|
    ensures Valid(cfg, RegisterStep(cfg, q, i, e))
  {
    assert EntryOk(cfg, q.born, q.sent, q.codeKept, q.queue[i]);
    if e.originateOk {
      SpawnSetStateKeeps(cfg, q, i, NewRegister(cfg, e, q.queue[i]), RegistrationFor(q.queue[i].id), RequestMsgDelivery,
                         e.tInsert, AskedToRegisterHandset, e.tLast);
    } else {
      SetStateKeeps(cfg, q, i, DeleteMe, e.tLast);
    }
  }

  lemma ShortCodeStepKeeps(cfg: Config, q: Q, action: ShortCodeAction, e: TickInput)
    requires Valid(cfg, q) && q.queue != []
    ensures Valid(cfg, ShortCodeStep(cfg, q, action, e))
  {
    var m := q.queue[0];
    assert EntryOk(cfg, q.born, q.sent, q.codeKept, m);
    if action == Register {
      RegisterStepKeeps(cfg, q, 0, e);
    } else if action == Reply && e.originateOk {
      SpawnSetStateKeeps(cfg, q, 0, NewMessage(cfg, e, UserOf(m), m.fromUser), ReplyTo(m.id), RequestDestinationSipUrl,
                         e.tInsert, DeleteMe, e.tLast);
    } else {
      EditSetStateKeeps(cfg, q, 0, AfterAction(m, action), AnswerState(action), e.tLast);
    }
  }

  lemma StartRequestKeeps(cfg: Config, q: Q, e: TickInput)
    requires Valid(cfg, q) && q.queue != [] && q.queue[0].kind.Request?
    ensures Valid(cfg, StartRequest(cfg, q, e))
  {
    if q.queue[0].kind.verb != MESSAGE {
      SetStateKeeps(cfg, q, 0, NoState, e.tLast);
    } else if e.shortCode.None? {
      SetStateKeeps(cfg, q, 0, RequestFromAddress, e.tLast);
    } else {
      ShortCodeStepKeeps(cfg, q, e.shortCode.value, e);
    }
  }

  lemma LookupFromStepKeeps(cfg: Config, q: Q, i: nat, e: TickInput)
    requires Valid(cfg, q) && i < |q.queue|
    ensures Valid(cfg, LookupFromStep(cfg, q, i, e))
  {
    assert EntryOk(cfg, q.born, q.sent, q.codeKept, q.queue[i]);
    var (newState, from) := LookupFromAddress(q.queue[i].fromUser, e.headerOk, e.clid);
    EditSetStateKeeps(cfg, q, i, q.queue[i].(fromUser := from), newState, e.tLast);
  }

  lemma LookupImsiStepKeeps(cfg: Config, q: Q, e: TickInput)
    requires Valid(cfg, q) && q.queue != []
    ensures Valid(cfg, LookupImsiStep(cfg, q, e))
  {
    var m := q.queue[0];
    assert EntryOk(cfg, q.born, q.sent, q.codeKept, m);
    match LookupUriImsi(cfg, m.fromUser, m.reqUser, e.headerOk, e.imsi, e.globalClid)
    case NotRoutable => SetStateKeeps(cfg, q, 0, NoState, e.tLast);
    case Routed(user) =>
      EditSetStateKeeps(cfg, q, 0, m.(reqUser := Some(user)), RequestDestinationSipUrl, e.tLast);
    case Relayed(from) =>
      EditSetStateKeeps(cfg, q, 0, m.(fromUser := from, forRelay := true), RequestDestinationSipUrl, e.tLast);
    case Undeliverable =>
      if Bounces(cfg, e, m) {
        SpawnSetStateKeeps(cfg, q, 0, BounceMessage(cfg, e, m), BounceOf(m.id), BounceState(m), e.tInsert,
                           DeleteMe, e.tLast);
      } else {
        SetStateKeeps(cfg, q, 0, NoState, e.tLast);
      }
  }

  lemma LocatedIsEdit(cfg: Config, m: Msg, user: string, e: TickInput)
    requires Tagged(m)
    ensures Edited(m, Located(cfg, m, user, e))
  {
  }

  lemma LookupHostStepKeeps(cfg: Config, q: Q, e: TickInput)
    requires Valid(cfg, q) && q.queue != []
    ensures Valid(cfg, LookupHostStep(cfg, q, e))
  {
    var m := q.queue[0];
    assert EntryOk(cfg, q.born, q.sent, q.codeKept, m);
    if m.reqUser.None? {
      SetStateKeeps(cfg, q, 0, NoState, e.tLast);
      SameValid(cfg, LookupHostStep(cfg, q, e), SetState(cfg, q, 0, NoState, e.tLast));
    } else {
      var found := Located(cfg, m, m.reqUser.value, e);
      LocatedIsEdit(cfg, m, m.reqUser.value, e);
      EditSetStateKeeps(cfg, q, 0, found, RequestMsgDelivery, e.tLast);
      SameValid(cfg, LookupHostStep(cfg, q, e), EditSetState(cfg, q, 0, found, RequestMsgDelivery, e.tLast));
    }
  }

  lemma AttemptKeeps(cfg: Config, q: Q, i: nat, e: TickInput)
    requires Valid(cfg, q) && i < |q.queue|
    requires q.queue[i].time <= q.clock && q.sent[q.queue[i].id] < q.queue[i].retries
    ensures Valid(cfg, Attempt(cfg, q, i, e))
  {
    var m := q.queue[i];
    if !e.packOk {
      SetStateKeeps(cfg, q, i, NoState, e.tLast);
    } else if cfg.maxRetries > 0 && m.retries > cfg.maxRetries {
      SetStateKeeps(cfg, q, i, DeleteMe, e.tLast);
    } else if cfg.rateLimit > 0 && cfg.rateLimit >= e.elapsed {
      TouchKeeps(cfg, q, i, m.state, m.time + cfg.rateLimit, q.clock);
    } else {
      SendKeeps(cfg, q, i);
      SetStateKeeps(cfg, Send(q, i), i, AskedForMsgDelivery, e.tLast);
    }
  }

  lemma CountTryKeeps(cfg: Config, q: Q, i: nat)
    requires Valid(cfg, q) && i < |q.queue|
    ensures var r := CountTry(cfg, q, i);
            Valid(cfg, r) && r.clock == q.clock && r.queue[i].time == q.queue[i].time
            && r.sent[r.queue[i].id] < r.queue[i].retries
  {
    assert EntryOk(cfg, q.born, q.sent, q.codeKept, q.queue[i]);
    EditKeeps(cfg, q, i, q.queue[i].(retries := q.queue[i].retries + 1));
  }

  lemma DeliverStepKeeps(cfg: Config, q: Q, i: nat, e: TickInput)
    requires Valid(cfg, q) && i < |q.queue|
    requires q.queue[i].time <= q.clock
    ensures Valid(cfg, DeliverStep(cfg, q, i, e))
  {
    CountTryKeeps(cfg, q, i);
    AttemptKeeps(cfg, CountTry(cfg, q, i), i, e);
  }

  lemma TouchNowKeeps(cfg: Config, q: Q, i: nat, newState: SmState, delay: nat, t: int)
    requires Valid(cfg, q) && i < |q.queue| && delay <= MaxDelay(cfg)
    ensures Valid(cfg, Touch(q, i, newState, t + delay, t))
  {
    TouchKeeps(cfg, q, i, newState, t + delay, t);
  }

  lemma AcknowledgedKeeps(cfg: Config, q: Q, i: nat, e: TickInput)
    requires Valid(cfg, q) && i < |q.queue|
    ensures Valid(cfg, Acknowledged(cfg, q, i, e))
  {
    var link := q.queue[i].linktag;
    if link.Some? {
      var j := FirstWithTag(q.queue, link.value);
      if j < |q.queue| {
        TouchNowKeeps(cfg, q, j, Initial, Timeout(cfg, q.queue[j].state, Initial), e.tLast);
      }
    }
    assert Valid(cfg, FreeLinkedSms(cfg, q, i, e));
    var r := if q.queue[i].kind == Request(REGISTER) then FreeLinkedSms(cfg, q, i, e) else q;
    DropKeeps(cfg, r, i);
    SameValid(cfg, Acknowledged(cfg, q, i, e), Drop(r, i));
  }

  lemma BouncedKeeps(cfg: Config, q: Q, i: nat, e: TickInput)
    requires Valid(cfg, q) && i < |q.queue| && Bounces(cfg, e, q.queue[i])
    ensures Valid(cfg, Refused(cfg, q, i, e))
  {
    var m := q.queue[i];
    assert EntryOk(cfg, q.born, q.sent, q.codeKept, m);
    var q1 := PushFront(cfg, q, BounceMessage(cfg, e, m), BounceOf(m.id), BounceState(m), e.tInsert);
    SpawnKeeps(cfg, q, BounceMessage(cfg, e, m), BounceOf(m.id), BounceState(m), e.tInsert);
    assert q1.queue[i + 1] == m;
    TouchNowKeeps(cfg, q1, i + 1, DeleteMe, Timeout(cfg, m.state, DeleteMe), e.tLast);
    SameValid(cfg, Refused(cfg, q, i, e),
              Touch(q1, i + 1, DeleteMe, e.tLast + Timeout(cfg, m.state, DeleteMe), e.tLast));
  }

  lemma RefusedKeeps(cfg: Config, q: Q, i: nat, e: TickInput)
    requires Valid(cfg, q) && i < |q.queue|
    ensures Valid(cfg, Refused(cfg, q, i, e))
  {
    var m := q.queue[i];
    if Bounces(cfg, e, m) {
      BouncedKeeps(cfg, q, i, e);
    } else {
      TouchNowKeeps(cfg, q, i, NoState, Timeout(cfg, m.state, NoState), e.tLast);
      SameValid(cfg, Refused(cfg, q, i, e), Touch(q, i, NoState, e.tLast + Timeout(cfg, m.state, NoState), e.tLast));
    }
  }

  lemma IncreaseTimeoutKeeps(cfg: Config, q: Q, i: nat, e: TickInput)
    requires Valid(cfg, q) && i < |q.queue|
    ensures Valid(cfg, IncreaseTimeout(cfg, q, i, e))
  {
    TouchNowKeeps(cfg, q, i, q.queue[i].state, cfg.ackTimeout, e.tLast);
  }

  lemma RedirectedKeeps(cfg: Config, q: Q, i: nat, e: TickInput)
    requires Valid(cfg, q) && i < |q.queue|
    ensures Valid(cfg, Redirected(cfg, q, i, e))
  {
    TouchNowKeeps(cfg, q, i, RequestDestinationImsi, Timeout(cfg, q.queue[i].state, RequestDestinationImsi), e.tLast);
  }

  lemma AnsweredKeeps(cfg: Config, q: Q, i: nat, status: nat, e: TickInput)
    requires Valid(cfg, q) && i < |q.queue|
    ensures Valid(cfg, Answered(cfg, q, i, status, e))
  {
    match status / 100
    case 2 => AcknowledgedKeeps(cfg, q, i, e);
    case 3 => RedirectedKeeps(cfg, q, i, e);
    case 6 => RedirectedKeeps(cfg, q, i, e);
    case _ =>
      IncreaseTimeoutKeeps(cfg, q, i, e);
      RefusedKeeps(cfg, q, i, e);
  }

  lemma HandleResponseKeeps(cfg: Config, q: Q, e: TickInput)
    requires Valid(cfg, q) && q.queue != [] && q.queue[0].kind.Response?
    ensures Valid(cfg, HandleResponse(cfg, q, e))
  {
    DropKeeps(cfg, q, 0);
    var q1 := Drop(q, 0);
    var i := FirstWithTag(q1.queue, q.queue[0].qtag);
    if i < |q1.queue| {
      AnsweredKeeps(cfg, q1, i, q.queue[0].kind.status, e);
    }
  }

  /** SetState puts the entry where NewPos says. */
  lemma SetStateAt(cfg: Config, q: Q, i: nat, newState: SmState, t: int)
    requires i < |q.queue|
    ensures var time := ActionTime(cfg, q.queue[i], newState, t);
            SetState(cfg, q, i, newState, t).queue[NewPos(q.queue, i, time)]
            == q.queue[i].(state := newState, time := time)
  {
  }

  lemma RetryStepKeeps(cfg: Config, q: Q, e: TickInput)
    requires Valid(cfg, q) && q.queue != [] && q.queue[0].state == AwaitingTryMsgDelivery
    ensures Valid(cfg, RetryStep(cfg, q, e))
  {
    SetStateKeeps(cfg, q, 0, RequestMsgDelivery, e.tFirst);
    SetStateAt(cfg, q, 0, RequestMsgDelivery, e.tFirst);
    DeliverStepKeeps(cfg, SetState(cfg, q, 0, RequestMsgDelivery, e.tFirst),
                     NewPos(q.queue, 0, ActionTime(cfg, q.queue[0], RequestMsgDelivery, e.tFirst)), e);
  }

  lemma AwaitRegisterStepKeeps(cfg: Config, q: Q, e: TickInput)
    requires Valid(cfg, q) && q.queue != []
    ensures Valid(cfg, AwaitRegisterStep(cfg, q, e))
  {
    SetStateKeeps(cfg, q, 0, if e.clid.None? then AwaitingRegisterHandset else RegisterHandset,
                  if e.clid.None? then e.tLast else e.tFirst);
    if e.clid.Some? {
      RegisterStepKeeps(cfg, SetState(cfg, q, 0, RegisterHandset, e.tFirst),
                        NewPos(q.queue, 0, ActionTime(cfg, q.queue[0], RegisterHandset, e.tFirst)), e);
    }
  }

  lemma RestartStepKeeps(cfg: Config, q: Q, e: TickInput)
    requires Valid(cfg, q) && q.queue != []
    ensures Valid(cfg, RestartStep(cfg, q, e))
  {
    SetStateKeeps(cfg, q, 0, Initial, e.tFirst);
    LookupFromStepKeeps(cfg, SetState(cfg, q, 0, Initial, e.tFirst),
                        NewPos(q.queue, 0, ActionTime(cfg, q.queue[0], Initial, e.tFirst)), e);
  }

  lemma LookupKeeps(cfg: Config, q: Q, e: TickInput)
    requires Valid(cfg, q) && q.queue != []
    requires q.queue[0].state in {RequestFromAddress, RequestDestinationImsi, RequestDestinationSipUrl}
    ensures Valid(cfg, Process(cfg, q, e))
  {
    match q.queue[0].state
    case RequestFromAddress =>
      LookupFromCase(cfg, q, e);
      LookupFromStepKeeps(cfg, q, 0, e);
      SameValid(cfg, Process(cfg, q, e), LookupFromStep(cfg, q, 0, e));
    case RequestDestinationImsi =>
      LookupImsiCase(cfg, q, e);
      LookupImsiStepKeeps(cfg, q, e);
      SameValid(cfg, Process(cfg, q, e), LookupImsiStep(cfg, q, e));
    case RequestDestinationSipUrl =>
      LookupHostCase(cfg, q, e);
      LookupHostStepKeeps(cfg, q, e);
      SameValid(cfg, Process(cfg, q, e), LookupHostStep(cfg, q, e));
  }

  lemma DeliveryKeeps(cfg: Config, q: Q, e: TickInput)
    requires Valid(cfg, q) && q.queue != [] && q.queue[0].time <= q.clock
    requires q.queue[0].state in {AwaitingTryMsgDelivery, RequestMsgDelivery, AskedForMsgDelivery}
    ensures Valid(cfg, Process(cfg, q, e))
  {
    match q.queue[0].state
    case AwaitingTryMsgDelivery =>
      RetryCase(cfg, q, e);
      RetryStepKeeps(cfg, q, e);
      SameValid(cfg, Process(cfg, q, e), RetryStep(cfg, q, e));
    case RequestMsgDelivery =>
      DeliverCase(cfg, q, e);
      DeliverStepKeeps(cfg, q, 0, e);
      SameValid(cfg, Process(cfg, q, e), DeliverStep(cfg, q, 0, e));
    case AskedForMsgDelivery =>
      AskedCase(cfg, q, e);
      SetStateKeeps(cfg, q, 0, AwaitingTryMsgDelivery, e.tLast);
      SameValid(cfg, Process(cfg, q, e), SetState(cfg, q, 0, AwaitingTryMsgDelivery, e.tLast));
  }

  lemma RegistrationKeeps(cfg: Config, q: Q, e: TickInput)
    requires Valid(cfg, q) && q.queue != [] && IsRegistrationState(q.queue[0].state)
    ensures Valid(cfg, Process(cfg, q, e))
  {
    match q.queue[0].state
    case AwaitingRegisterHandset =>
      AwaitRegisterCase(cfg, q, e);
      AwaitRegisterStepKeeps(cfg, q, e);
      SameValid(cfg, Process(cfg, q, e), AwaitRegisterStep(cfg, q, e));
    case RegisterHandset =>
      RegisterCase(cfg, q, e);
      RegisterStepKeeps(cfg, q, 0, e);
      SameValid(cfg, Process(cfg, q, e), RegisterStep(cfg, q, 0, e));
    case AskedToRegisterHandset =>
      AskedToRegisterCase(cfg, q, e);
      SetStateKeeps(cfg, q, 0, AwaitingRegisterHandset, e.tLast);
      SameValid(cfg, Process(cfg, q, e), SetState(cfg, q, 0, AwaitingRegisterHandset, e.tLast));
  }

  lemma ProcessKeeps(cfg: Config, q: Q, e: TickInput)
    requires Valid(cfg, q) && q.queue != [] && q.queue[0].time <= q.clock
    ensures Valid(cfg, Process(cfg, q, e))
  {
    var s := q.queue[0].state;
    if s == Initial {
      if q.queue[0].kind.Response? {
        HandleResponseKeeps(cfg, q, e);
        SameValid(cfg, Process(cfg, q, e), HandleResponse(cfg, q, e));
      } else {
        StartRequestKeeps(cfg, q, e);
        SameValid(cfg, Process(cfg, q, e), StartRequest(cfg, q, e));
      }
    } else if s == NoState || s == DeleteMe {
      DropKeeps(cfg, q, 0);
      SameValid(cfg, Process(cfg, q, e), Drop(q, 0));
    } else if s in {RequestFromAddress, RequestDestinationImsi, RequestDestinationSipUrl} {
      LookupKeeps(cfg, q, e);
    } else if s in {AwaitingTryMsgDelivery, RequestMsgDelivery, AskedForMsgDelivery} {
      DeliveryKeeps(cfg, q, e);
    } else if IsRegistrationState(s) {
      RegistrationKeeps(cfg, q, e);
    } else {
      RestartCase(cfg, q, e);
      RestartStepKeeps(cfg, q, e);
      SameValid(cfg, Process(cfg, q, e), RestartStep(cfg, q, e));
    }
  }

  lemma ReadClockKeeps(cfg: Config, q: Q, t: int)
    requires Valid(cfg, q)
    ensures Valid(cfg, ReadClock(q, t))
  {
    forall k | 0 <= k < |q.queue|
      ensures !q.restored ==> TimerOk(q.queue[k], ReadClock(q, t).clock + MaxDelay(cfg))
    {
      assert !q.restored ==> TimerOk(q.queue[k], q.clock + MaxDelay(cfg));
    }
  }

  /** Every step keeps the invariant. */
  lemma StepKeeps(cfg: Config, q: Q, s: Step)
    requires Valid(cfg, q) && StepOk(s)
    ensures Valid(cfg, Apply(cfg, q, s))
  {
    match s
    case Arrive(m, t) => SpawnKeeps(cfg, q, m, FromNetwork, Initial, t);
    case ReadBack(m, state, time) =>
      var r := q.(restored := true);
      assert Valid(cfg, r);
      EnrollKeeps(cfg, r, m, FromFile, state, time, q.clock);
    case Timer(e) =>
      ReadClockKeeps(cfg, q, e.now);
      var q0 := ReadClock(q, e.now);
      if Due(q0, e.now) {
        ProcessKeeps(cfg, q0, e);
      }
  }
}
