/** How the answer to a REGISTER reaches the SMS it was sent for. */
module Registrations {
  import opened Wrappers
  import opened Messages
  import opened Tags
  import opened Lookups
  import opened QueueOps
  import opened QueueSteps
  import opened QueueInvariants
  import opened QueueRuns
  import opened Conservation

  ghost predicate DistinctTags(queue: seq<Msg>) {
    forall i, j :: 0 <= i < j < |queue| ==> queue[i].qtag != queue[j].qtag
  }

  /** What a 2xx answer to a REGISTER with this link does to another queued message: it starts
      again from INITIAL_STATE 50 minutes later if it is the linked SMS and still in a
      registration state, and is left alone otherwise. */
  function AfterAnswer(m: Msg, link: Option<string>, t: int): Msg {
    if link == Some(m.qtag) && IsRegistrationState(m.state) then m.(state := Initial, time := t + 3_000_000) else m
  }

  /** The first entry with a tag is the only one. */
  lemma OnlyOne(queue: seq<Msg>, tag: string, k: nat)
    requires DistinctTags(queue) && k < |queue| && queue[k].qtag == tag
    ensures FirstWithTag(queue, tag) == k
  {
  }

  /** Freeing the linked SMS changes each entry as AfterAnswer says. */
  lemma LinkedSmsFreed(cfg: Config, q: Q, i: nat, e: TickInput)
    requires i < |q.queue| && DistinctTags(q.queue)
    ensures var r := FreeLinkedSms(cfg, q, i, e);
            forall k :: 0 <= k < |q.queue| ==> r.queue[k] == AfterAnswer(q.queue[k], q.queue[i].linktag, e.tLast)
  {
    var link := q.queue[i].linktag;
    forall k | 0 <= k < |q.queue|
      ensures FreeLinkedSms(cfg, q, i, e).queue[k] == AfterAnswer(q.queue[k], link, e.tLast)
    {
      if link == Some(q.queue[k].qtag) {
        OnlyOne(q.queue, link.value, k);
      }
    }
  }

  /** A 2xx answer to a queued REGISTER, all other tags being different: the answer and the REGISTER
      leave, the SMS it was sent for starts again if it still waits, every other entry stays as it
      is, and all keep their order. */
  lemma RegisterAnswered(cfg: Config, q: Q, e: TickInput, i: nat)
    requires q.queue != [] && q.queue[0].kind.Response? && q.queue[0].kind.status / 100 == 2
    requires var rest := Without(q.queue, 0);
             DistinctTags(rest) && i < |rest| && rest[i].qtag == q.queue[0].qtag && rest[i].kind == Request(REGISTER)
    ensures var rest := Without(q.queue, 0);
            var r := HandleResponse(cfg, q, e);
            && |r.queue| == |rest| - 1
            && forall k :: 0 <= k < |r.queue| ==>
                 r.queue[k] == AfterAnswer(rest[if k < i then k else k + 1], rest[i].linktag, e.tLast)
  {
    var q1 := Drop(q, 0);
    var rest := q1.queue;
    OnlyOne(rest, q.queue[0].qtag, i);
    LinkedSmsFreed(cfg, q1, i, e);
    var freed := FreeLinkedSms(cfg, q1, i, e);
    var r := HandleResponse(cfg, q, e);
    assert r == Drop(freed, i);
    forall k | 0 <= k < |r.queue|
      ensures r.queue[k] == AfterAnswer(rest[if k < i then k else k + 1], rest[i].linktag, e.tLast)
    {
      WithoutAt(freed.queue, i, k);
    }
  }

  /** A response nobody waits for changes nothing but itself. */
  lemma UnexpectedAnswer(cfg: Config, q: Q, e: TickInput)
    requires q.queue != [] && q.queue[0].kind.Response?
    requires forall k :: 1 <= k < |q.queue| ==> q.queue[k].qtag != q.queue[0].qtag
    ensures HandleResponse(cfg, q, e) == q.(queue := q.queue[1..])
  {
    assert Without(q.queue, 0) == q.queue[1..];
  }

  /** After the answer no entry carries the REGISTER's tag any more. */
  lemma AnsweredTagGone(cfg: Config, q: Q, e: TickInput, i: nat, k: nat)
    requires q.queue != [] && q.queue[0].kind.Response? && q.queue[0].kind.status / 100 == 2
    requires var rest := Without(q.queue, 0);
             DistinctTags(rest) && i < |rest| && rest[i].qtag == q.queue[0].qtag && rest[i].kind == Request(REGISTER)
    requires k < |HandleResponse(cfg, q, e).queue|
    ensures HandleResponse(cfg, q, e).queue[k].qtag != q.queue[0].qtag
  {
    RegisterAnswered(cfg, q, e, i);
    var rest := Without(q.queue, 0);
    if k < i {
      assert rest[k].qtag != rest[i].qtag;
    } else {
      assert rest[i].qtag != rest[k + 1].qtag;
    }
  }

  ghost predicate TagAbsent(queue: seq<Msg>, tag: string) {
    forall k :: 0 <= k < |queue| ==> queue[k].qtag != tag
  }

  /** No message born since had the tag. */
  ghost predicate NotBornWith(born: seq<Birth>, since: nat, tag: string) {
    forall c :: since <= c < |born| ==> born[c].tag != tag
  }

  /** A tag that no queued message carries comes back only with a message born with it. */
  lemma AbsentStays(cfg: Config, q: Q, s: Step, tag: string)
    requires Valid(cfg, q) && StepOk(s) && TagAbsent(q.queue, tag)
    requires NotBornWith(Apply(cfg, q, s).born, |q.born|, tag)
    ensures TagAbsent(Apply(cfg, q, s).queue, tag)
  {
    var r := Apply(cfg, q, s);
    StepKeeps(cfg, q, s);
    StepConserves(cfg, q, s);
    ApplyExtends(cfg, q, s);
    forall k | 0 <= k < |r.queue|
      ensures r.queue[k].qtag != tag
    {
      assert EntryOk(cfg, r.born, r.sent, r.codeKept, r.queue[k]);
      var id := r.queue[k].id;
      if id < |q.born| {
        assert id in Ids(r.queue) && id in Ids(q.queue);
        var j :| 0 <= j < |q.queue| && q.queue[j].id == id;
        assert EntryOk(cfg, q.born, q.sent, q.codeKept, q.queue[j]);
      }
    }
  }

  lemma ApplyExtends(cfg: Config, q: Q, s: Step)
    ensures q.born <= Apply(cfg, q, s).born
  {
  }

  lemma {:induction false} AbsentInRun(cfg: Config, q: Q, steps: seq<Step>, tag: string)
    requires Valid(cfg, q) && StepsOk(steps) && TagAbsent(q.queue, tag)
    requires NotBornWith(Run(cfg, q, steps).born, |q.born|, tag)
    ensures Valid(cfg, Run(cfg, q, steps)) && TagAbsent(Run(cfg, q, steps).queue, tag)
    ensures q.born <= Run(cfg, q, steps).born
    decreases |steps|
  {
    if steps != [] {
      var front, s := steps[..|steps| - 1], steps[|steps| - 1];
      var before := Run(cfg, q, front);
      ApplyExtends(cfg, before, s);
      assert NotBornWith(before.born, |q.born|, tag);
      AbsentInRun(cfg, q, front, tag);
      StepKeeps(cfg, before, s);
      AbsentStays(cfg, before, s, tag);
    }
  }

  /** A second answer to the same REGISTER only removes itself, whatever has happened since the first
      one, as long as no message with that tag has come in; so an SMS that has moved on is not
      disturbed. */
  lemma DuplicateAnswerIgnored(cfg: Config, q: Q, e: TickInput, i: nat, steps: seq<Step>, later: Q, e2: TickInput)
    requires Valid(cfg, q) && StepsOk(steps)
    requires q.queue != [] && q.queue[0].kind.Response? && q.queue[0].kind.status / 100 == 2
    requires var rest := Without(q.queue, 0);
             DistinctTags(rest) && i < |rest| && rest[i].qtag == q.queue[0].qtag && rest[i].kind == Request(REGISTER)
    requires var answered := HandleResponse(cfg, q, e);
             NotBornWith(Run(cfg, answered, steps).born, |answered.born|, q.queue[0].qtag)
    requires later.queue != [] && later.queue[0].kind.Response? && later.queue[0].qtag == q.queue[0].qtag
    requires later.queue[1..] == Run(cfg, HandleResponse(cfg, q, e), steps).queue
    ensures HandleResponse(cfg, later, e2) == later.(queue := later.queue[1..])
  {
    var answered := HandleResponse(cfg, q, e);
    var tag := q.queue[0].qtag;
    HandleResponseKeeps(cfg, q, e);
    forall k | 0 <= k < |answered.queue|
      ensures answered.queue[k].qtag != tag
    {
      AnsweredTagGone(cfg, q, e, i, k);
    }
    AbsentInRun(cfg, answered, steps, tag);
    forall k | 1 <= k < |later.queue|
      ensures later.queue[k].qtag != tag
    {
      assert later.queue[k] == later.queue[1..][k - 1];
    }
    UnexpectedAnswer(cfg, later, e2);
  }

  /** Registering from a queued SMS: the new REGISTER stands at the front, linked to the tag of the
      SMS, and the SMS waits for the answer. */
  lemma RegisterCreated(cfg: Config, q: Q, i: nat, e: TickInput)
    requires i < |q.queue| && e.originateOk
    ensures var r := RegisterStep(cfg, q, i, e);
            var sms := q.queue[i];
            exists k, l :: && 0 <= k < |r.queue| && 0 <= l < |r.queue| && k != l
                           && r.queue[k].kind == Request(REGISTER)
                           && r.queue[k].linktag == Some(sms.qtag) && r.queue[k].fromUser == sms.fromUser
                           && r.queue[k].state == RequestMsgDelivery && r.queue[k].time == e.tInsert
                           && r.queue[l] == sms.(state := AskedToRegisterHandset, time := r.queue[l].time)
  {
    var sms := q.queue[i];
    var q1 := PushFront(cfg, q, NewRegister(cfg, e, sms), RegistrationFor(sms.id), RequestMsgDelivery, e.tInsert);
    var p := NewPos(q1.queue, i + 1, ActionTime(cfg, q1.queue[i + 1], AskedToRegisterHandset, e.tLast));
    var r := RegisterStep(cfg, q, i, e);
    SetStateAt(cfg, q1, i + 1, AskedToRegisterHandset, e.tLast);
    var k := if p == 0 then 1 else 0;
    MovedAt(q1.queue, i + 1, p, r.queue[p], k);
    assert r.queue[k] == q1.queue[0];
  }
}
