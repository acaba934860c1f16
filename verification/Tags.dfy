/** Queue tags: how set_qtag builds them, how they are hashed and searched. */
module Tags {
  import opened Wrappers
  import opened Characters
  import opened Messages

  /** CSeq number, two dashes, from-tag (USE_CALL_ID_TAG is not defined). */
  function Qtag(cseq: string, fromTag: string): (tag: string)
    ensures tag != []
  {
    cseq + "--" + fromTag
  }

  /** The whole hash is the first character, the terminating NUL for an empty tag. */
  function TagHash(tag: string): char {
    if tag == [] then '\0' else tag[0]
  }

  /** Two messages with numeric CSeq share a tag only when they agree on CSeq and from-tag. */
  lemma QtagInjective(c1: string, t1: string, c2: string, t2: string)
    requires AllDigits(c1) && AllDigits(c2)
    requires Qtag(c1, t1) == Qtag(c2, t2)
    ensures c1 == c2 && t1 == t2
  {
    // Both tags show a dash where the CSeq ends; inside a CSeq there are only digits.
    var q := Qtag(c1, t1);
    assert q[|c1|] == '-' && q[|c2|] == '-';
    assert q[..|c1|] == c1 && q[|c1| + 2..] == t1;
    assert q[..|c2|] == c2 && q[|c2| + 2..] == t2;
  }

  /** First entry that carries a tag, or the length when none does. */
  function FirstWithTag(queue: seq<Msg>, tag: string): (n: nat)
    ensures n <= |queue|
    ensures forall k :: 0 <= k < n ==> queue[k].qtag != tag
    ensures n < |queue| ==> queue[n].qtag == tag
  {
    if queue == [] || queue[0].qtag == tag then 0 else 1 + FirstWithTag(queue[1..], tag)
  }

  /** The tag and hash fields of every entry are the ones set_qtag computes. */
  ghost predicate Tagged(m: Msg) {
    m.qtag == Qtag(m.cseq, m.fromTag) && m.qtaghash == TagHash(m.qtag)
  }

  /** find_queued_msg_by_tag: compares the hash first, then the tag. */
  method FindQueuedMsgByTag(queue: seq<Msg>, tag: string, taghash: char) returns (x: nat)
    requires taghash == TagHash(tag)
    requires forall m :: m in queue ==> Tagged(m)
    ensures x == FirstWithTag(queue, tag)
  {
    x := 0;
    while x < |queue|
      invariant x <= |queue|
      invariant forall k :: 0 <= k < x ==> queue[k].qtag != tag
    {
      if taghash == queue[x].qtaghash && tag == queue[x].qtag {
        return;
      }
      assert queue[x] in queue;
      x := x + 1;
    }
  }
}
