/**
  What keeps a payment safe: a row, a freshness refusal, or a copy whose handling is not yet headed for
  the acknowledgement.  Runs that orphan no claim keep it so.  When a payment is gone for good is the
  subject of module Loss.
*/
module NoLoss {
  import opened Options
  import opened Domain
  import opened Protocol
  import opened Safety

  /** A packet that nothing but its age or an earlier settlement can refuse. */
  predicate Settleable(c: Config, k: Key) {
    c.region(k).aadMatches && c.region(k).content.Opens?
  }

  predicate Genuine(m: Reading, k: Key) {
    m.Parsed? && m.signatureOk && m.key == k
  }

  /** Unless a call raises or the worker dies, this copy will be acknowledged: claim lost, or done. */
  predicate Dropping(phase: Phase) {
    phase.LostRace? || (phase.Finished? && !phase.outcome.retryable)
  }

  /** An unacknowledged copy that is not already doomed to be dropped. */
  predicate Viable(s: State, k: Key, id: nat) {
    && id in s.copies && Genuine(s.copies[id].msg, k)
    && match s.copies[id].place
       case Ready => true
       case Held(w) => w in s.workers && !Dropping(s.workers[w].phase)
       case Acked => false
  }

  predicate IsRefusal(r: Report, k: Key) {
    Genuine(r.msg, k) && (r.outcome.code == Some(PacketExpired) || r.outcome.code == Some(PacketNotYetValid))
  }

  /** Some copy was refused by the freshness window. */
  predicate Refused(s: State, k: Key) {
    exists i :: 0 <= i < |s.log| && IsRefusal(s.log[i], k)
  }

  /** The payment is settled, or was refused for its age, or some copy is not headed for the ack. */
  ghost predicate Safe(c: Config, s: State, k: Key) {
    HasPid(s.table, c.region(k).packetId) || Refused(s, k) || exists id :: Viable(s, k, id)
  }

  /**
    The one kind of step that leaves a payment unsafe: the only viable copy meets a `claimed` marker
    while there is neither a row nor a freshness refusal.
  */
  ghost predicate RiskyTest(c: Config, s: State, k: Key, step: Step) {
    && step.SetNx? && step.fault.Works? && Busy(s, step.w) && s.workers[step.w].msg.key == k
    && k in s.redis && s.redis[k].marker.ClaimedMarker?
    && !HasPid(s.table, c.region(k).packetId) && !Refused(s, k)
    && Attached(s, step.w)
    && forall id :: Viable(s, k, id) ==> id == s.workers[step.w].copy
  }

  /** Past the claim: between winning SET NX and leaving process(). */
  predicate PastClaim(phase: Phase) {
    phase.Holding? || phase.Rejecting? || phase.Writing? || phase.Marking? || phase.Failing?
  }

  predicate Past(s: State, w: nat, k: Key) {
    Busy(s, w) && s.workers[w].msg.key == k && PastClaim(s.workers[w].phase)
  }

  /** A claim is tested although it has no row and no worker that still owns its message is past it. */
  ghost predicate OrphanTest(c: Config, s: State, k: Key, step: Step) {
    && step.SetNx? && step.fault.Works? && Busy(s, step.w) && s.workers[step.w].msg.key == k
    && k in s.redis && s.redis[k].marker.ClaimedMarker?
    && !HasPid(s.table, c.region(k).packetId)
    && forall w :: Attached(s, w) ==> !Past(s, w, k)
  }

  // --- Gone for good ---

  /** A copy the broker still has or may get back. */
  predicate Outstanding(s: State, id: nat, k: Key) {
    id in s.copies && Genuine(s.copies[id].msg, k) && !s.copies[id].place.Acked?
  }

  /** A worker that may still write the row or refuse the packet for its age. */
  predicate Playing(s: State, w: nat, k: Key) {
    && w in s.workers && Genuine(s.workers[w].msg, k)
    && match s.workers[w].phase
       case Received | Checked | Holding | Writing => true
       case _ => false
  }

  predicate Decided(s: State, k: Key) {
    HasKey(s.table, k) || Refused(s, k)
  }

  /** Neither settled nor refused for its age, and nobody is left to do either. */
  ghost predicate Gone(s: State, k: Key) {
    && !Decided(s, k)
    && (forall id :: !Outstanding(s, id, k))
    && (forall w :: !Playing(s, w, k))
  }

  lemma RiskyTestsAreOrphanTests(c: Config, s: State, k: Key, step: Step)
    requires Inv(c, s) && Enabled(c, s, step) && RiskyTest(c, s, k, step)
    ensures OrphanTest(c, s, k, step)
  {
    forall w | Attached(s, w) ensures !Past(s, w, k) {
      assert PhaseOk(c, s.table, s.workers[w]);
      assert Past(s, w, k) ==> Viable(s, k, s.workers[w].copy);
    }
  }

  // --- How viability moves ---

  lemma RefusedStays(c: Config, s: State, step: Step, k: Key)
    requires Enabled(c, s, step) && Refused(s, k)
    ensures Refused(Apply(c, s, step), k)
  {
    StepShape(c, s, step);
    var i :| 0 <= i < |s.log| && IsRefusal(s.log[i], k);
    assert IsRefusal(Apply(c, s, step).log[i], k);
  }

  /** A copy other than the one the step's worker holds stays viable. */
  lemma OtherCopiesStay(c: Config, s: State, step: Step, k: Key, id: nat)
    requires HeldOk(s) && Enabled(c, s, step) && Viable(s, k, id)
    requires step.Publish? || step.Tick? || step.Flush? || step.Deliver? || s.workers[step.w].copy != id
    ensures Viable(Apply(c, s, step), k, id)
  {
  }

  /** A worker that ends without retrying leaves a row or a refusal behind, unless it was dropping. */
  lemma EndsForAReason(c: Config, s: State, w: nat, k: Key)
    requires Inv(c, s) && Settleable(c, k) && w in s.workers && s.workers[w].phase.Finished?
    requires Genuine(s.workers[w].msg, k) && !s.workers[w].phase.outcome.retryable
    requires s.workers[w].phase.outcome.detail != DetailBeingSettled
    ensures HasPid(s.table, c.region(k).packetId)
         || s.workers[w].phase.outcome.code == Some(PacketExpired)
         || s.workers[w].phase.outcome.code == Some(PacketNotYetValid)
  {
    var o := s.workers[w].phase.outcome;
    assert PhaseOk(c, s.table, s.workers[w]);
    if o.code.None? {
      var e := s.table[o.settlementId.value];
      assert Justified(c, s.copies, s.now, e);
      assert e.row.packetId == c.region(k).packetId;
    }
  }

  /** The step's own copy stays viable unless the worker starts dropping it. */
  lemma OwnCopyStays(c: Config, s: State, step: Step, k: Key)
    requires Enabled(c, s, step)
    requires !step.Publish? && !step.Tick? && !step.Flush? && !step.Deliver?
    requires Viable(s, k, s.workers[step.w].copy)
    requires step.w in Apply(c, s, step).workers ==> !Dropping(Apply(c, s, step).workers[step.w].phase)
    ensures Viable(Apply(c, s, step), k, s.workers[step.w].copy)
  {
  }

  /** A viable copy held by a finishing worker: there is a row or a refusal to show for it. */
  lemma FinishingIsSafe(c: Config, s: State, step: Step, k: Key)
    requires Sane(c) && Inv(c, s) && Enabled(c, s, step) && Settleable(c, k)
    requires step.Check? || step.Mark? || step.Release?
    requires Genuine(s.workers[step.w].msg, k)
    requires Dropping(Apply(c, s, step).workers[step.w].phase)
    ensures Safe(c, Apply(c, s, step), k)
  {
    var s' := Apply(c, s, step);
    NotWaiting(c, s, step);
    KeepsInv(c, s, step);
    if !HasPid(s'.table, c.region(k).packetId) {
      EndsForAReason(c, s', step.w, k);
      assert IsRefusal(s'.log[|s.log|], k);
    }
  }

  lemma NotWaiting(c: Config, s: State, step: Step)
    requires WorkersOk(c, s) && Enabled(c, s, step) && (step.Check? || step.Mark? || step.Release?)
    requires Dropping(Apply(c, s, step).workers[step.w].phase)
    ensures var s' := Apply(c, s, step); var me := s'.workers[step.w];
      && me.phase.Finished? && me.msg == s.workers[step.w].msg && !me.phase.outcome.retryable
      && (me.phase.outcome.detail == DetailBeingSettled ==> HasPid(s'.table, c.region(me.msg.key).packetId))
      && s'.log == s.log + [Report(me.copy, me.msg, me.checkedAt, me.phase.outcome)]
  {
    assert PhaseOk(c, s.table, s.workers[step.w]);
  }

  /** Losing the claim to a worker that still owns its message is safe: that worker's copy stays viable. */
  lemma LostClaimIsSafe(c: Config, s: State, step: Step, k: Key, owner: nat)
    requires Inv(c, s) && Enabled(c, s, step) && step.SetNx? && k in s.redis
    requires Busy(s, step.w) && s.workers[step.w].msg.key == k
    requires Attached(s, owner) && Past(s, owner, k)
    ensures Viable(Apply(c, s, step), k, s.workers[owner].copy) && Safe(c, Apply(c, s, step), k)
  {
    assert PhaseOk(c, s.table, s.workers[owner]);
    assert Viable(s, k, s.workers[owner].copy);
    assert Viable(Apply(c, s, step), k, s.workers[owner].copy);
  }

  /** A test that is not risky leaves a row, a refusal or another viable copy behind. */
  lemma OtherCopyCarriesOn(c: Config, s: State, step: Step, k: Key)
    requires Sane(c) && Inv(c, s) && Enabled(c, s, step) && Settleable(c, k)
    requires step.SetNx? && Genuine(s.workers[step.w].msg, k)
    requires Dropping(Apply(c, s, step).workers[step.w].phase)
    requires Viable(s, k, s.workers[step.w].copy) && Attached(s, step.w)
    requires Safe(c, s, k) && !RiskyTest(c, s, k, step)
    ensures Safe(c, Apply(c, s, step), k)
  {
    if s.redis[k].marker.ClaimedMarker? && !HasPid(s.table, c.region(k).packetId) && !Refused(s, k) {
      var id :| Viable(s, k, id) && id != s.workers[step.w].copy;
      OtherCopiesStay(c, s, step, k, id);
    } else if Refused(s, k) {
      RefusedStays(c, s, step, k);
    }
  }

  /** A worker that lost its message moves no copy. */
  lemma DetachedMovesNothing(c: Config, s: State, step: Step, k: Key, id: nat)
    requires Enabled(c, s, step) && Viable(s, k, id)
    requires !step.Publish? && !step.Tick? && !step.Flush? && !step.Deliver? && !Attached(s, step.w)
    requires s.workers[step.w].copy == id
    ensures Viable(Apply(c, s, step), k, id)
  {
  }

  lemma DroppingEnds(c: Config, s: State, step: Step)
    requires Enabled(c, s, step) && !step.Publish? && !step.Tick? && !step.Flush? && !step.Deliver?
    requires step.w in Apply(c, s, step).workers
    requires !Dropping(s.workers[step.w].phase) && Dropping(Apply(c, s, step).workers[step.w].phase)
    ensures step.SetNx? || step.Check? || step.Mark? || step.Release?
  {
  }

  lemma ViableStaysSafe(c: Config, s: State, step: Step, k: Key, id: nat)
    requires Sane(c) && Inv(c, s) && Enabled(c, s, step) && Settleable(c, k)
    requires Viable(s, k, id) && !RiskyTest(c, s, k, step)
    ensures Safe(c, Apply(c, s, step), k)
  {
    var s' := Apply(c, s, step);
    if step.Publish? || step.Tick? || step.Flush? || step.Deliver? || s.workers[step.w].copy != id {
      OtherCopiesStay(c, s, step, k, id);
    } else if !Attached(s, step.w) {
      DetachedMovesNothing(c, s, step, k, id);
    } else if step.w in s'.workers && Dropping(s'.workers[step.w].phase) {
      assert Genuine(s.workers[step.w].msg, k) && !Dropping(s.workers[step.w].phase);
      DroppingEnds(c, s, step);
      hide Apply, PhaseOk;
      if step.SetNx? {
        OtherCopyCarriesOn(c, s, step, k);
      } else {
        FinishingIsSafe(c, s, step, k);
      }
    } else {
      OwnCopyStays(c, s, step, k);
    }
  }

  lemma RiskyTestRisks(c: Config, s: State, step: Step, k: Key)
    requires HeldOk(s) && Enabled(c, s, step) && RiskyTest(c, s, k, step)
    ensures !Safe(c, Apply(c, s, step), k)
  {
    var s' := Apply(c, s, step);
    forall id ensures !Viable(s', k, id) {
      assert Viable(s', k, id) ==> Viable(s, k, id);
    }
    assert s'.table == s.table && s'.log == s.log;
  }

  /** One step away from a safe state, the payment is unsafe exactly after a risky test. */
  lemma RiskExactly(c: Config, s: State, step: Step, k: Key)
    requires Sane(c) && Inv(c, s) && Enabled(c, s, step) && Settleable(c, k) && Safe(c, s, k)
    ensures !Safe(c, Apply(c, s, step), k) <==> RiskyTest(c, s, k, step)
  {
    var s' := Apply(c, s, step);
    StepShape(c, s, step);
    PidGrows(s.table, s'.table);
    if RiskyTest(c, s, k, step) {
      RiskyTestRisks(c, s, step, k);
    } else if Refused(s, k) {
      RefusedStays(c, s, step, k);
    } else if !HasPid(s.table, c.region(k).packetId) {
      var id :| Viable(s, k, id);
      ViableStaysSafe(c, s, step, k, id);
    }
  }

  // --- Whole runs ---

  ghost predicate SafeThroughout(c: Config, s: State, steps: seq<Step>, k: Key)
    requires Legal(c, s, steps)
    decreases |steps|
  {
    Safe(c, s, k) && (steps != [] ==> SafeThroughout(c, Apply(c, s, steps[0]), steps[1..], k))
  }

  ghost predicate TakesRisk(c: Config, s: State, steps: seq<Step>, k: Key)
    requires Legal(c, s, steps)
    decreases |steps|
  {
    steps != [] && (RiskyTest(c, s, k, steps[0]) || TakesRisk(c, Apply(c, s, steps[0]), steps[1..], k))
  }

  ghost predicate TestsOrphan(c: Config, s: State, steps: seq<Step>, k: Key)
    requires Legal(c, s, steps)
    decreases |steps|
  {
    steps != [] && (OrphanTest(c, s, k, steps[0]) || TestsOrphan(c, Apply(c, s, steps[0]), steps[1..], k))
  }

  /** Publishing one genuine copy makes the payment safe. */
  lemma PublishingIsSafe(c: Config, s: State, id: nat, m: Reading, k: Key)
    requires Enabled(c, s, Publish(id, m)) && Genuine(m, k)
    ensures Safe(c, Apply(c, s, Publish(id, m)), k)
  {
    assert Viable(Apply(c, s, Publish(id, m)), k, id);
  }

  /** A run keeps the payment safe in every state exactly when it contains no risky test. */
  lemma {:induction false} StaysSafeExactly(c: Config, s: State, steps: seq<Step>, k: Key)
    requires Sane(c) && Inv(c, s) && Legal(c, s, steps) && Settleable(c, k) && Safe(c, s, k)
    ensures SafeThroughout(c, s, steps, k) <==> !TakesRisk(c, s, steps, k)
    decreases |steps|
  {
    if steps != [] {
      var s' := Apply(c, s, steps[0]);
      RiskExactly(c, s, steps[0], k);
      KeepsInv(c, s, steps[0]);
      if Safe(c, s', k) {
        StaysSafeExactly(c, s', steps[1..], k);
      }
    }
  }

  /** A payment stays safe in a run that never tests an orphaned claim. */
  lemma {:induction false} NoOrphanNoLoss(c: Config, s: State, steps: seq<Step>, k: Key)
    requires Sane(c) && Inv(c, s) && Legal(c, s, steps) && Settleable(c, k) && Safe(c, s, k)
    requires !TestsOrphan(c, s, steps, k)
    ensures SafeThroughout(c, s, steps, k) && Safe(c, Exec(c, s, steps), k)
    decreases |steps|
  {
    if steps != [] {
      if RiskyTest(c, s, k, steps[0]) {
        RiskyTestsAreOrphanTests(c, s, k, steps[0]);
      }
      RiskExactly(c, s, steps[0], k);
      KeepsInv(c, s, steps[0]);
      NoOrphanNoLoss(c, Apply(c, s, steps[0]), steps[1..], k);
    }
  }

  // --- A condition on faults: nothing orphans a claim ---

  /**
    The faults that can leave a claim on `k` without an owner: a worker past the claim dies, a
    connection is lost under a worker, a SET NX is applied but raises, or the rollback does not reach Redis.
  */
  predicate Orphans(s: State, step: Step, k: Key) {
    match step
    case Crash(w) => Past(s, w, k)
    case Disconnect(w) => Busy(s, w) && s.workers[w].msg.key == k
    case SetNx(w, f) => f.FailsAfter? && Busy(s, w) && s.workers[w].msg.key == k && k !in s.redis
    case Release(w, f) => f.FailsBefore? && Past(s, w, k) && s.workers[w].phase.Failing?
    case _ => false
  }

  /** Every worker on `k` still has its message, and a claim on `k` has a worker past it. */
  ghost predicate Owned(s: State, k: Key) {
    && (forall w :: Busy(s, w) && s.workers[w].msg.key == k ==> Attached(s, w))
    && (k in s.redis && s.redis[k].marker.ClaimedMarker? ==> exists w :: Past(s, w, k))
  }

  /** A worker keeps its message until the connection is lost or it ends. */
  lemma AttachedStays(c: Config, s: State, step: Step, w: nat)
    requires Enabled(c, s, step) && Attached(s, w) && step != Disconnect(w) && w in Apply(c, s, step).workers
    ensures Attached(Apply(c, s, step), w)
  {
  }

  lemma DeliveredIsAttached(c: Config, s: State, w: nat, id: nat)
    requires Enabled(c, s, Deliver(w, id))
    ensures Attached(Apply(c, s, Deliver(w, id)), w)
  {
  }

  lemma StaysAttached(c: Config, s: State, step: Step, k: Key, w: nat)
    requires Enabled(c, s, step) && Owned(s, k) && !Orphans(s, step, k)
    requires Busy(Apply(c, s, step), w) && Apply(c, s, step).workers[w].msg.key == k
    ensures Attached(Apply(c, s, step), w)
  {
    if step.Publish? || step.Tick? || step.Flush? || step.w != w {
      OthersStay(c, s, step, w);
      AttachedStays(c, s, step, w);
    } else if step.Deliver? {
      DeliveredIsAttached(c, s, w, step.id);
    } else {
      ActorKeepsMessage(c, s, step);
      AttachedStays(c, s, step, w);
    }
    hide Apply, Enabled;
  }

  /** Only the worker a step names can leave. */
  lemma OthersRemain(c: Config, s: State, step: Step, w: nat)
    requires Enabled(c, s, step) && w in s.workers
    requires step.Publish? || step.Tick? || step.Flush? || step.w != w
    ensures w in Apply(c, s, step).workers && Apply(c, s, step).workers[w] == s.workers[w]
  {
  }

  /** A worker past its claim stays past it, or takes the claim marker with it. */
  lemma OwnerStays(c: Config, s: State, step: Step, k: Key, w: nat)
    requires Enabled(c, s, step) && !Orphans(s, step, k) && Past(s, w, k)
    requires k in Apply(c, s, step).redis && Apply(c, s, step).redis[k].marker.ClaimedMarker?
    ensures Past(Apply(c, s, step), w, k)
  {
    if step.Publish? || step.Tick? || step.Flush? || step.w != w {
      OthersRemain(c, s, step, w);
      hide Apply, Enabled;
    }
  }

  lemma KeepsOwned(c: Config, s: State, step: Step, k: Key)
    requires Enabled(c, s, step) && Owned(s, k) && !Orphans(s, step, k)
    ensures Owned(Apply(c, s, step), k)
  {
    var s' := Apply(c, s, step);
    forall w | Busy(s', w) && s'.workers[w].msg.key == k ensures Attached(s', w) {
      StaysAttached(c, s, step, k, w);
    }
    if k in s'.redis && s'.redis[k].marker.ClaimedMarker? {
      MarkerShape(c, s, step, k);
      if k in s.redis && s'.redis[k] == s.redis[k] {
        var w :| Past(s, w, k);
        OwnerStays(c, s, step, k, w);
      } else {
        assert Past(s', step.w, k);
      }
    }
  }

  /** The packet id has a row, or nothing has orphaned the claim on `k`. */
  ghost predicate Covered(c: Config, s: State, k: Key) {
    HasPid(s.table, c.region(k).packetId) || Owned(s, k)
  }

  lemma CoveredIsNoOrphan(c: Config, s: State, k: Key, step: Step)
    requires Covered(c, s, k)
    ensures !OrphanTest(c, s, k, step)
  {
    if !HasPid(s.table, c.region(k).packetId) && k in s.redis && s.redis[k].marker.ClaimedMarker? {
      var w :| Past(s, w, k);
      assert Attached(s, w);
    }
  }

  /** Until the packet id has a row, nothing along the run orphans a claim on `k`. */
  ghost predicate Steady(c: Config, s: State, steps: seq<Step>, k: Key)
    requires Legal(c, s, steps)
    decreases |steps|
  {
    steps != [] ==>
      && (Orphans(s, steps[0], k) ==> HasPid(s.table, c.region(k).packetId))
      && Steady(c, Apply(c, s, steps[0]), steps[1..], k)
  }

  lemma KeepsCovered(c: Config, s: State, step: Step, k: Key)
    requires Enabled(c, s, step) && Covered(c, s, k)
    requires Orphans(s, step, k) ==> HasPid(s.table, c.region(k).packetId)
    ensures Covered(c, Apply(c, s, step), k)
  {
    if HasPid(s.table, c.region(k).packetId) {
      StepShape(c, s, step);
      PidGrows(s.table, Apply(c, s, step).table);
    } else {
      KeepsOwned(c, s, step, k);
    }
  }

  /** Without those faults before the row no orphaned claim is ever tested, whatever else fails. */
  lemma {:induction false} SteadyTestsNoOrphan(c: Config, s: State, steps: seq<Step>, k: Key)
    requires Legal(c, s, steps) && Covered(c, s, k) && Steady(c, s, steps, k)
    ensures !TestsOrphan(c, s, steps, k) && Covered(c, Exec(c, s, steps), k)
    decreases |steps|
  {
    if steps != [] {
      CoveredIsNoOrphan(c, s, k, steps[0]);
      KeepsCovered(c, s, steps[0], k);
      SteadyTestsNoOrphan(c, Apply(c, s, steps[0]), steps[1..], k);
    }
  }

  // --- Putting runs together ---

  lemma Prepend(c: Config, s: State, step: Step, rest: seq<Step>)
    requires Enabled(c, s, step) && Legal(c, Apply(c, s, step), rest)
    ensures Legal(c, s, [step] + rest)
    ensures Exec(c, s, [step] + rest) == Exec(c, Apply(c, s, step), rest)
  {
    assert ([step] + rest)[1..] == rest;
  }

  lemma {:induction false} Append(c: Config, s: State, first: seq<Step>, rest: seq<Step>)
    requires Legal(c, s, first) && Legal(c, Exec(c, s, first), rest)
    ensures Legal(c, s, first + rest)
    ensures Exec(c, s, first + rest) == Exec(c, Exec(c, s, first), rest)
    decreases |first|
  {
    if first == [] {
      assert first + rest == rest;
    } else {
      Append(c, Apply(c, s, first[0]), first[1..], rest);
      assert (first + rest)[1..] == first[1..] + rest;
    }
  }

  /** No time passes, nothing is flushed and no connection is lost. */
  predicate Unobtrusive(steps: seq<Step>) {
    forall i :: 0 <= i < |steps| ==> !steps[i].Tick? && !steps[i].Flush? && !steps[i].Disconnect?
  }
}
