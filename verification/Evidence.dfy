/**
  The evidence of rejections: what is stored, for whom, and in which order.
*/
module Evidence {
  import opened Options
  import opened Domain
  import opened Pipeline
  import opened Sequential

  /** `after` is `before` and one entry with the outcome's reason, detail, key and packet id. */
  predicate AddsEvidence(before: seq<Rejection>, after: seq<Rejection>, o: Outcome) {
    && |after| == |before| + 1 && after[..|before|] == before
    && Some(after[|before|].reason) == o.code && after[|before|].detail == o.detail
    && after[|before|].key == o.key && after[|before|].packetId == o.packetId
  }

  /** The claim on an admitted packet is won. */
  predicate Wins(st: Store, m: Reading, f: Faults)
    requires m.Parsed?
  {
    m.key !in st.redis && f.setNx.Works?
  }

  /**
    Unless the database fails first, a refusal by the checks, and a refusal of the content behind a won
    claim, leaves exactly one entry, with what was decided about the packet; the latter also when the
    release raises and another outcome is returned.  Nothing else leaves any.
  */
  lemma ProcessEvidence(c: Config, st: Store, m: Reading, f: Faults)
    ensures var (st', r) := Process(c, st, m, f);
      && (Screen(c, m, st.now).Some? ==>
            && r == Screen(c, m, st.now)
            && (!f.evidence.FailsBefore? ==> AddsEvidence(st.rejections, st'.rejections, r.value)))
      && (Screen(c, m, st.now).None? && Wins(st, m, f) && ContentRefusal(c, m.key).Some? ==>
            && (f.release.Works? ==> r == ContentRefusal(c, m.key))
            && (!f.evidence.FailsBefore? ==>
                  AddsEvidence(st.rejections, st'.rejections, ContentRefusal(c, m.key).value)))
      && (Screen(c, m, st.now).None? && (!Wins(st, m, f) || ContentRefusal(c, m.key).None?) ==>
            st'.rejections == st.rejections)
      && (f.evidence.FailsBefore? ==> st'.rejections == st.rejections)
  {
  }

  /** The outcomes that call for evidence, in order: rejections that are not duplicates. */
  function Refusals(os: seq<Outcome>): seq<Rejection> {
    if os == [] then []
    else
      var o := os[|os| - 1];
      Refusals(os[..|os| - 1]) +
        match o.code
        case None => []
        case Some(DuplicatePacket) => []
        case Some(code) => [Rejection(code, o.detail, o.key, o.packetId)]
  }

  /** Evidence of one delivery without faults: that of its outcome. */
  lemma DeliveryEvidence(c: Config, st: Store, m: Reading)
    ensures var (st', r) := Process(c, st, m, NO_FAULTS);
      r.Some? && st'.rejections == st.rejections + Refusals([r.value])
  {
    var (st', r) := Process(c, st, m, NO_FAULTS);
    assert [r.value][..0] == [] && Refusals([]) == [];
    ProcessEvidence(c, st, m, NO_FAULTS);
  }

  lemma RefusalsSnoc(os: seq<Outcome>, o: Outcome)
    ensures Refusals(os + [o]) == Refusals(os) + Refusals([o])
  {
    assert (os + [o])[..|os|] == os && [o][..0] == [] && Refusals([]) == [];
  }

  /** One event adds the refusals among its outcomes. */
  lemma EventEvidence(c: Config, st: Store, os: seq<Outcome>, e: Event)
    ensures var (st', o) := Handle(c, st, e);
      st'.rejections == st.rejections + Refusals(o) && Refusals(os + o) == Refusals(os) + Refusals(o)
  {
    if e.Delivery? {
      DeliveryEvidence(c, Later(st, e.at), e.msg);
      var r := Process(c, Later(st, e.at), e.msg, NO_FAULTS).1;
      hide Process, Refusals;
      RefusalsSnoc(os, r.value);
    } else {
      assert os + [] == os && Refusals([]) == [];
    }
  }

  lemma Regroup(a: seq<Rejection>, b: seq<Rejection>, c: seq<Rejection>)
    ensures (a + b) + c == a + (b + c)
  {
  }

  /** Along a sequential run the evidence is, in order, the refusals among the outcomes, and no more. */
  lemma {:induction false} EvidenceInOrder(c: Config, st: Store, es: seq<Event>)
    ensures var (st', os) := RunAll(c, st, es); st'.rejections == st.rejections + Refusals(os)
  {
    if es == [] {
      assert st.rejections + [] == st.rejections;
    } else {
      var init, e := es[..|es| - 1], es[|es| - 1];
      var (st1, os) := RunAll(c, st, init);
      var (st2, o) := Handle(c, st1, e);
      assert RunAll(c, st, es) == (st2, os + o);
      EvidenceInOrder(c, st, init);
      hide *;
      EventEvidence(c, st1, os, e);
      Regroup(st.rejections, Refusals(os), Refusals(o));
    }
  }
}
