/** The queue and the list operations every step is made of, with the history that
    the run properties speak about. */
module QueueOps {
  import opened Wrappers
  import opened Messages
  import opened Tags

  /** Where a message came from. */
  datatype Origin =
    | FromNetwork
    | FromFile
    | ReplyTo(parent: nat)
    | BounceOf(parent: nat)
    | RegistrationFor(parent: nat)

  datatype Birth = Birth(tag: string, origin: Origin)

  /** `queue` is time_sorted_list; everything else is history:
      born      birth record of every message ever queued, indexed by id
      sent      how often each id was handed to the network for delivery
      codeKept  whether every entry sent by the bounce code has kept that sender
      clock     latest clock reading so far
      horizon   times at or below it may be out of order
      touched   clock at the last front insert or in-place change of a time
      inPlace   whether a time was ever changed without moving the entry
      restored  whether an entry was ever read back from a file */
  datatype Q = Q(
    queue: seq<Msg>,
    born: seq<Birth>,
    sent: multiset<nat>,
    codeKept: bool,
    clock: int,
    horizon: int,
    touched: int,
    inPlace: bool,
    restored: bool
  )

  /** How every operation on the list extends the history. */
  ghost predicate Extends(q: Q, r: Q) {
    && q.born <= r.born
    && q.clock <= r.clock
    && q.horizon <= r.horizon
    && q.restored == r.restored
    && (r.codeKept ==> q.codeKept)
    && (q.inPlace ==> r.inPlace)
  }

  function Empty(start: int): Q {
    Q([], [], multiset{}, true, start, start, start, false, false)
  }

  function Without(queue: seq<Msg>, i: nat): (rest: seq<Msg>)
    requires i < |queue|
    ensures |rest| == |queue| - 1
  {
    queue[..i] + queue[i + 1..]
  }

  /** First position whose time is not before t. */
  function InsertPos(rest: seq<Msg>, t: int): (p: nat)
    ensures p <= |rest|
    ensures forall k :: 0 <= k < p ==> rest[k].time < t
    ensures p < |rest| ==> t <= rest[p].time
  {
    if rest == [] || t <= rest[0].time then 0 else 1 + InsertPos(rest[1..], t)
  }

  function InsertAt(rest: seq<Msg>, p: nat, m: Msg): (queue: seq<Msg>)
    requires p <= |rest|
    ensures |queue| == |rest| + 1
  {
    rest[..p] + [m] + rest[p..]
  }

  /** Position of entry i once it carries this time. */
  function NewPos(queue: seq<Msg>, i: nat, time: int): (p: nat)
    requires i < |queue|
    ensures p < |queue|
  {
    InsertPos(Without(queue, i), time)
  }

  /** SMq::set_state with a time: new state and time, moved to its place. */
  function Requeue(q: Q, i: nat, newState: SmState, time: int, t: int): (r: Q)
    requires i < |q.queue|
    ensures |r.queue| == |q.queue|
    ensures Extends(q, r)
  {
    q.(queue := InsertAt(Without(q.queue, i), NewPos(q.queue, i, time),
                         q.queue[i].(state := newState, time := time)),
       clock := Max(q.clock, t))
  }

  /** The time a set_state without one computes, at clock t. */
  function ActionTime(cfg: Config, m: Msg, newState: SmState, t: int): int {
    t + Timeout(cfg, m.state, newState)
  }

  /** SMq::set_state with the timer from the table. */
  function SetState(cfg: Config, q: Q, i: nat, newState: SmState, t: int): (r: Q)
    requires i < |q.queue|
    ensures |r.queue| == |q.queue|
    ensures Extends(q, r)
  {
    Requeue(q, i, newState, ActionTime(cfg, q.queue[i], newState, t), t)
  }

  /** short_msg_pending::set_state on a queued entry: new state and time, same place. */
  function Touch(q: Q, i: nat, newState: SmState, time: int, t: int): (r: Q)
    requires i < |q.queue|
    ensures |r.queue| == |q.queue|
    ensures Extends(q, r)
  {
    q.(queue := q.queue[i := q.queue[i].(state := newState, time := time)],
       clock := Max(q.clock, t),
       horizon := Max(q.horizon, Max(q.queue[i].time, time)),
       touched := Max(q.clock, t),
       inPlace := true)
  }

  /** A new message gets the next identity. */
  function Enroll(q: Q, m: Msg, origin: Origin, state: SmState, time: int, t: int): (r: Q)
    ensures Extends(q, r)
  {
    q.(queue := [m.(id := |q.born|, state := state, time := time)] + q.queue,
       born := q.born + [Birth(m.qtag, origin)],
       clock := Max(q.clock, t),
       horizon := Max(q.horizon, time),
       touched := Max(q.clock, t))
  }

  /** insert_new_message with a state: spliced in at the front, timer from NO_STATE. */
  function PushFront(cfg: Config, q: Q, m: Msg, origin: Origin, state: SmState, t: int): (r: Q)
    ensures |r.queue| == |q.queue| + 1
    ensures Extends(q, r)
  {
    Enroll(q, m, origin, state, t + Timeout(cfg, NoState, state), t)
  }

  /** insert_new_message with a state and a time, as read_queue_from_file calls it. */
  function Restore(q: Q, m: Msg, state: SmState, time: int): Q {
    Enroll(q, m, FromFile, state, time, q.clock).(restored := true)
  }

  function Drop(q: Q, i: nat): (r: Q)
    requires i < |q.queue|
    ensures Extends(q, r)
  {
    q.(queue := Without(q.queue, i))
  }

  /** Fields other than state and time change where the entry stands. */
  function Edit(cfg: Config, q: Q, i: nat, m: Msg): (r: Q)
    requires i < |q.queue|
    ensures |r.queue| == |q.queue|
    ensures Extends(q, r)
  {
    q.(queue := q.queue[i := m],
       codeKept := q.codeKept && (q.queue[i].fromUser == cfg.bounceCode ==> m.fromUser == cfg.bounceCode))
  }

  /** The entry is changed where it stands and then re-queued by set_state. */
  function EditSetState(cfg: Config, q: Q, i: nat, m: Msg, newState: SmState, t: int): (r: Q)
    requires i < |q.queue|
    ensures |r.queue| == |q.queue|
    ensures Extends(q, r)
  {
    SetState(cfg, Edit(cfg, q, i, m), i, newState, t)
  }

  /** A message spawned by entry i is queued at the front, then entry i is re-queued. */
  function SpawnSetState(cfg: Config, q: Q, i: nat, m: Msg, origin: Origin, state: SmState, tInsert: int,
                         newState: SmState, t: int): (r: Q)
    requires i < |q.queue|
    ensures |r.queue| == |q.queue| + 1
    ensures Extends(q, r)
  {
    SetState(cfg, PushFront(cfg, q, m, origin, state, tInsert), i + 1, newState, t)
  }

  /** deliver_msg_datagram was called for entry i. */
  function Send(q: Q, i: nat): (r: Q)
    requires i < |q.queue|
    ensures |r.queue| == |q.queue|
    ensures Extends(q, r)
  {
    q.(sent := q.sent + multiset{q.queue[i].id})
  }

  /** The clock was read. */
  function ReadClock(q: Q, t: int): (r: Q)
    ensures Extends(q, r)
  {
    q.(clock := Max(q.clock, t))
  }
}
