/**
  When a payment is gone for good, exactly: nobody is left who could settle it or refuse it for its age.
  From every other state some continuation still does, so the word "lost" here counts neither a raising
  GET, nor a crash, nor a worker that outlives its connection against the payment.
*/
module Loss {
  import opened Options
  import opened Domain
  import opened Protocol
  import opened Safety
  import opened NoLoss

  predicate Republishes(step: Step, k: Key) {
    step.Publish? && Genuine(step.msg, k)
  }

  predicate Unrepublished(steps: seq<Step>, k: Key) {
    forall i :: 0 <= i < |steps| ==> !Republishes(steps[i], k)
  }

  // --- What is gone stays gone ---

  lemma DecidedStays(c: Config, s: State, step: Step, k: Key)
    requires Enabled(c, s, step) && Decided(s, k)
    ensures Decided(Apply(c, s, step), k)
  {
    StepShape(c, s, step);
    if HasKey(s.table, k) {
      var n :| 0 <= n < |s.table| && s.table[n].row.key == k;
      assert Apply(c, s, step).table[n].row.key == k;
    } else {
      RefusedStays(c, s, step, k);
    }
  }

  lemma NoCopyReturns(c: Config, s: State, step: Step, k: Key, id: nat)
    requires Enabled(c, s, step) && !Republishes(step, k) && Outstanding(Apply(c, s, step), id, k)
    requires WorkersOk(c, s)
    ensures Outstanding(s, id, k)
  {
  }

  lemma NoWorkerReturns(c: Config, s: State, step: Step, k: Key, w: nat)
    requires Enabled(c, s, step) && Playing(Apply(c, s, step), w, k)
    ensures (step.Deliver? && Outstanding(s, step.id, k))
         || (Playing(s, w, k) && (Apply(c, s, step).workers[w].phase.Received? ==> s.workers[w].phase.Received?))
  {
  }

  /** Only a worker in play writes the row. */
  lemma RowsNeedPlayers(c: Config, s: State, step: Step, k: Key)
    requires WorkersOk(c, s) && Enabled(c, s, step) && !HasKey(s.table, k) && HasKey(Apply(c, s, step).table, k)
    ensures step.Insert? && Playing(s, step.w, k) && !HasPid(s.table, c.region(k).packetId)
  {
    var s' := Apply(c, s, step);
    var n :| 0 <= n < |s'.table| && s'.table[n].row.key == k;
    assert n == |s.table| && step.Insert?;
    assert PhaseOk(c, s.table, s.workers[step.w]);
  }

  /** Only a worker that has yet to check refuses a packet for its age. */
  lemma RefusalsNeedPlayers(c: Config, s: State, step: Step, k: Key)
    requires WorkersOk(c, s) && Enabled(c, s, step) && !Refused(s, k) && Refused(Apply(c, s, step), k)
    ensures step.Check? && Playing(s, step.w, k) && s.workers[step.w].phase.Received?
  {
    var s' := Apply(c, s, step);
    ReportShape(c, s, step);
    assert forall j :: 0 <= j < |s.log| ==> s'.log[j] == s.log[j] && !IsRefusal(s.log[j], k);
    var i :| 0 <= i < |s'.log| && IsRefusal(s'.log[i], k);
    assert PhaseOk(c, s.table, s.workers[step.w]);
  }

  lemma GoneStays(c: Config, s: State, step: Step, k: Key)
    requires Inv(c, s) && Enabled(c, s, step) && Gone(s, k) && !Republishes(step, k)
    ensures Gone(Apply(c, s, step), k)
  {
    var s' := Apply(c, s, step);
    if HasKey(s'.table, k) {
      RowsNeedPlayers(c, s, step, k);
    } else if Refused(s', k) {
      RefusalsNeedPlayers(c, s, step, k);
    }
    forall id ensures !Outstanding(s', id, k) {
      if Outstanding(s', id, k) {
        NoCopyReturns(c, s, step, k, id);
      }
    }
    forall w ensures !Playing(s', w, k) {
      if Playing(s', w, k) {
        NoWorkerReturns(c, s, step, k, w);
      }
    }
  }

  lemma {:induction false} GoneForGood(c: Config, s: State, steps: seq<Step>, k: Key)
    requires Sane(c) && Inv(c, s) && Legal(c, s, steps) && Gone(s, k) && Unrepublished(steps, k)
    ensures Gone(Exec(c, s, steps), k)
    decreases |steps|
  {
    if steps != [] {
      KeepsInv(c, s, steps[0]);
      GoneStays(c, s, steps[0], k);
      assert forall i :: 0 <= i < |steps[1..]| ==> steps[1..][i] == steps[i + 1];
      GoneForGood(c, Apply(c, s, steps[0]), steps[1..], k);
    }
  }

  /**
    What no continuation decides, the case included that the packet id is taken by another packet's row:
    then the workers past their check can only be refused.
  */
  ghost predicate Hopeless(c: Config, s: State, k: Key) {
    && !Decided(s, k)
    && (forall id :: !Outstanding(s, id, k))
    && (forall w :: Playing(s, w, k) ==>
          !s.workers[w].phase.Received? && HasPid(s.table, c.region(k).packetId))
  }

  lemma HopelessStays(c: Config, s: State, step: Step, k: Key)
    requires Inv(c, s) && Enabled(c, s, step) && Hopeless(c, s, k) && !Republishes(step, k)
    ensures Hopeless(c, Apply(c, s, step), k)
  {
    var s' := Apply(c, s, step);
    StepShape(c, s, step);
    PidGrows(s.table, s'.table);
    if HasKey(s'.table, k) {
      RowsNeedPlayers(c, s, step, k);
    } else if Refused(s', k) {
      RefusalsNeedPlayers(c, s, step, k);
    }
    forall id ensures !Outstanding(s', id, k) {
      if Outstanding(s', id, k) {
        NoCopyReturns(c, s, step, k, id);
      }
    }
    forall w | Playing(s', w, k) ensures !s'.workers[w].phase.Received? && HasPid(s'.table, c.region(k).packetId) {
      NoWorkerReturns(c, s, step, k, w);
    }
  }

  lemma {:induction false} HopelessForGood(c: Config, s: State, steps: seq<Step>, k: Key)
    requires Sane(c) && Inv(c, s) && Legal(c, s, steps) && Hopeless(c, s, k) && Unrepublished(steps, k)
    ensures Hopeless(c, Exec(c, s, steps), k)
    decreases |steps|
  {
    if steps != [] {
      KeepsInv(c, s, steps[0]);
      HopelessStays(c, s, steps[0], k);
      assert forall i :: 0 <= i < |steps[1..]| ==> steps[1..][i] == steps[i + 1];
      HopelessForGood(c, Apply(c, s, steps[0]), steps[1..], k);
    }
  }

  // --- What is not gone can still be decided ---

  /** Some continuation, with nothing published anew, settles the payment or refuses it for its age. */
  ghost predicate Hopeful(c: Config, s: State, k: Key) {
    exists steps :: Legal(c, s, steps) && Unrepublished(steps, k) && Decided(Exec(c, s, steps), k)
  }

  lemma HopeBack(c: Config, s: State, step: Step, k: Key)
    requires Enabled(c, s, step) && !Republishes(step, k) && Hopeful(c, Apply(c, s, step), k)
    ensures Hopeful(c, s, k)
  {
    var rest :| Legal(c, Apply(c, s, step), rest) && Unrepublished(rest, k)
      && Decided(Exec(c, Apply(c, s, step), rest), k);
    Prepend(c, s, step, rest);
    assert Unrepublished([step] + rest, k);
  }

  lemma DecidedIsHopeful(c: Config, s: State, k: Key)
    requires Decided(s, k)
    ensures Hopeful(c, s, k)
  {
    assert Legal(c, s, []) && Unrepublished([], k) && Exec(c, s, []) == s;
  }

  /** Some continuation, with nothing published anew, settles the payment. */
  ghost predicate Settling(c: Config, s: State, k: Key) {
    exists steps :: Legal(c, s, steps) && Unrepublished(steps, k) && HasKey(Exec(c, s, steps).table, k)
  }

  lemma SettlingBack(c: Config, s: State, step: Step, k: Key)
    requires Enabled(c, s, step) && !Republishes(step, k) && Settling(c, Apply(c, s, step), k)
    ensures Settling(c, s, k)
  {
    var rest :| Legal(c, Apply(c, s, step), rest) && Unrepublished(rest, k)
      && HasKey(Exec(c, Apply(c, s, step), rest).table, k);
    Prepend(c, s, step, rest);
    assert Unrepublished([step] + rest, k);
  }

  lemma SettledIsSettling(c: Config, s: State, k: Key)
    requires HasKey(s.table, k)
    ensures Settling(c, s, k)
  {
    assert Legal(c, s, []) && Unrepublished([], k) && Exec(c, s, []) == s;
  }

  lemma SettlingIsHopeful(c: Config, s: State, k: Key)
    requires Settling(c, s, k)
    ensures Hopeful(c, s, k)
  {
    var steps :| Legal(c, s, steps) && Unrepublished(steps, k) && HasKey(Exec(c, s, steps).table, k);
    assert Decided(Exec(c, s, steps), k);
  }

  lemma WritingSettles(c: Config, s: State, w: nat, k: Key)
    requires Sane(c) && Settleable(c, k) && !HasKey(s.table, k) && !HasPid(s.table, c.region(k).packetId)
    requires Playing(s, w, k) && s.workers[w].phase.Writing?
    ensures Settling(c, s, k)
  {
    var s' := Apply(c, s, Insert(w, Works));
    assert s'.table[|s.table|].row.key == k;
    SettledIsSettling(c, s', k);
    SettlingBack(c, s, Insert(w, Works), k);
  }

  lemma HoldingSettles(c: Config, s: State, w: nat, k: Key)
    requires Sane(c) && Settleable(c, k) && !HasKey(s.table, k) && !HasPid(s.table, c.region(k).packetId)
    requires Playing(s, w, k) && s.workers[w].phase.Holding?
    ensures Settling(c, s, k)
  {
    WritingSettles(c, Apply(c, s, Open(w)), w, k);
    SettlingBack(c, s, Open(w), k);
  }

  /** A checked worker wins the claim once the key is gone from Redis. */
  lemma CheckedSettles(c: Config, s: State, w: nat, k: Key)
    requires Sane(c) && Settleable(c, k) && !HasKey(s.table, k) && !HasPid(s.table, c.region(k).packetId)
    requires Playing(s, w, k) && s.workers[w].phase.Checked?
    ensures Settling(c, s, k)
  {
    var s1 := Apply(c, s, Flush({k}));
    HoldingSettles(c, Apply(c, s1, SetNx(w, Works)), w, k);
    SettlingBack(c, s1, SetNx(w, Works), k);
    SettlingBack(c, s, Flush({k}), k);
  }

  /** A worker past its check has what it takes, as long as the packet id is free. */
  lemma PlayerSettles(c: Config, s: State, w: nat, k: Key)
    requires Sane(c) && Settleable(c, k) && !HasKey(s.table, k) && !HasPid(s.table, c.region(k).packetId)
    requires Playing(s, w, k) && !s.workers[w].phase.Received?
    ensures Settling(c, s, k)
  {
    match s.workers[w].phase
    case Checked => CheckedSettles(c, s, w, k);
    case Holding => HoldingSettles(c, s, w, k);
    case Writing => WritingSettles(c, s, w, k);
  }

  /** A packet that is left lying is refused for its age, whatever the table holds. */
  lemma UncheckedIsHopeful(c: Config, s: State, w: nat, k: Key)
    requires Playing(s, w, k) && s.workers[w].phase.Received?
    ensures Hopeful(c, s, k)
  {
    var late := c.region(k).createdAt + c.freshnessWindow + 1;
    var wait: nat := if s.now < late then late - s.now else 0;
    var s1 := Apply(c, s, Tick(wait));
    var s2 := Apply(c, s1, Check(w));
    assert IsRefusal(s2.log[|s.log|], k);
    DecidedIsHopeful(c, s2, k);
    HopeBack(c, s1, Check(w), k);
    HopeBack(c, s, Tick(wait), k);
  }

  lemma {:induction false} FreshName(used: set<nat>) returns (w: nat)
    ensures forall v :: v in used ==> v < w
    decreases used
  {
    w := 0;
    if used != {} {
      var u :| u in used;
      var v := FreshName(used - {u});
      w := if v <= u then u + 1 else v;
      assert forall x :: x in used ==> x == u || x in used - {u};
    }
  }

  lemma ReadyIsHopeful(c: Config, s: State, id: nat, k: Key)
    requires Outstanding(s, id, k) && s.copies[id].place.Ready?
    ensures Hopeful(c, s, k)
  {
    var w := FreshName(s.workers.Keys);
    assert w !in s.workers;
    UncheckedIsHopeful(c, Apply(c, s, Deliver(w, id)), w, k);
    HopeBack(c, s, Deliver(w, id), k);
  }

  lemma OutstandingIsHopeful(c: Config, s: State, id: nat, k: Key)
    requires HeldOk(s) && Outstanding(s, id, k)
    ensures Hopeful(c, s, k)
  {
    if s.copies[id].place.Ready? {
      ReadyIsHopeful(c, s, id, k);
    } else {
      var w := s.copies[id].place.worker;
      assert Attached(s, w);
      ReadyIsHopeful(c, Apply(c, s, Crash(w)), id, k);
      HopeBack(c, s, Crash(w), k);
    }
  }

  lemma PlayingIsHopeful(c: Config, s: State, w: nat, k: Key)
    requires Sane(c) && Settleable(c, k) && Playing(s, w, k)
    requires !s.workers[w].phase.Received? ==> !HasKey(s.table, k) && !HasPid(s.table, c.region(k).packetId)
    ensures Hopeful(c, s, k)
  {
    if s.workers[w].phase.Received? {
      UncheckedIsHopeful(c, s, w, k);
    } else {
      PlayerSettles(c, s, w, k);
      SettlingIsHopeful(c, s, k);
    }
  }

  /**
    No continuation settles the payment or refuses it for its age, unless it is published anew, exactly
    when it is hopeless; and while no other packet's row has its packet id, exactly when it is gone.
  */
  lemma GoneExactly(c: Config, s: State, k: Key)
    requires Sane(c) && Inv(c, s) && Settleable(c, k)
    ensures Hopeless(c, s, k) <==> !Hopeful(c, s, k)
    ensures (HasPid(s.table, c.region(k).packetId) ==> HasKey(s.table, k)) ==>
      (Gone(s, k) <==> !Hopeful(c, s, k))
  {
    if Hopeless(c, s, k) {
      forall steps | Legal(c, s, steps) && Unrepublished(steps, k) ensures !Decided(Exec(c, s, steps), k) {
        HopelessForGood(c, s, steps, k);
      }
    } else if Decided(s, k) {
      DecidedIsHopeful(c, s, k);
    } else if id :| Outstanding(s, id, k) {
      OutstandingIsHopeful(c, s, id, k);
    } else {
      var w :| Playing(s, w, k) && (s.workers[w].phase.Received? || !HasPid(s.table, c.region(k).packetId));
      PlayingIsHopeful(c, s, w, k);
    }
  }

  /** A safe payment is not gone; its packet id has a row, or some continuation decides it. */
  lemma SafeIsHopeful(c: Config, s: State, k: Key)
    requires HeldOk(s) && Safe(c, s, k)
    ensures HasPid(s.table, c.region(k).packetId) || (Hopeful(c, s, k) && !Gone(s, k))
  {
    if Refused(s, k) {
      DecidedIsHopeful(c, s, k);
    } else if id :| Viable(s, k, id) {
      assert Outstanding(s, id, k);
      OutstandingIsHopeful(c, s, id, k);
    }
  }

  /**
    Time is not needed: an outstanding copy that is still fresh, its packet id free, settles in some
    continuation that the clock does not move in.
  */
  lemma FreshCopySettles(c: Config, s: State, id: nat, k: Key) returns (steps: seq<Step>)
    requires Sane(c) && HeldOk(s) && Settleable(c, k) && Fresh(c, k, s.now)
    requires Outstanding(s, id, k) && !HasKey(s.table, k) && !HasPid(s.table, c.region(k).packetId)
    ensures Legal(c, s, steps) && Unrepublished(steps, k) && HasKey(Exec(c, s, steps).table, k)
    ensures Exec(c, s, steps).now == s.now
  {
    if s.copies[id].place.Held? {
      var w := s.copies[id].place.worker;
      assert Attached(s, w);
      steps := ReadyCopySettles(c, Apply(c, s, Crash(w)), id, k);
      Prepend(c, s, Crash(w), steps);
      steps := [Crash(w)] + steps;
    } else {
      steps := ReadyCopySettles(c, s, id, k);
    }
  }

  lemma ReadyCopySettles(c: Config, s: State, id: nat, k: Key) returns (steps: seq<Step>)
    requires Sane(c) && Settleable(c, k) && Fresh(c, k, s.now) && Outstanding(s, id, k)
    requires s.copies[id].place.Ready? && !HasKey(s.table, k) && !HasPid(s.table, c.region(k).packetId)
    ensures Legal(c, s, steps) && Unrepublished(steps, k) && HasKey(Exec(c, s, steps).table, k)
    ensures Exec(c, s, steps).now == s.now
  {
    var w := FreshName(s.workers.Keys);
    assert w !in s.workers;
    var s1 := Apply(c, s, Flush({k}));
    var s2 := Apply(c, s1, Deliver(w, id));
    var s3 := Apply(c, s2, Check(w));
    assert s3.workers[w].phase.Checked?;
    steps := ClaimAndInsert(c, s3, w, k);
    Prepend(c, s2, Check(w), steps);
    steps := [Check(w)] + steps;
    Prepend(c, s1, Deliver(w, id), steps);
    steps := [Deliver(w, id)] + steps;
    Prepend(c, s, Flush({k}), steps);
    steps := [Flush({k})] + steps;
  }

  lemma ClaimAndInsert(c: Config, s: State, w: nat, k: Key) returns (steps: seq<Step>)
    requires Sane(c) && Settleable(c, k) && Playing(s, w, k) && s.workers[w].phase.Checked? && k !in s.redis
    requires !HasKey(s.table, k) && !HasPid(s.table, c.region(k).packetId)
    ensures Legal(c, s, steps) && Unrepublished(steps, k) && HasKey(Exec(c, s, steps).table, k)
    ensures Exec(c, s, steps).now == s.now
  {
    var s1 := Apply(c, s, SetNx(w, Works));
    var s2 := Apply(c, s1, Open(w));
    var s3 := Apply(c, s2, Insert(w, Works));
    assert s3.table[|s.table|].row.key == k;
    steps := [];
    Prepend(c, s2, Insert(w, Works), steps);
    steps := [Insert(w, Works)] + steps;
    Prepend(c, s1, Open(w), steps);
    steps := [Open(w)] + steps;
    Prepend(c, s, SetNx(w, Works), steps);
    steps := [SetNx(w, Works)] + steps;
  }

  // --- The steps that end it ---

  ghost predicate NoCopyLeft(s: State, k: Key) {
    forall id :: !Outstanding(s, id, k)
  }

  ghost predicate OnlyPlayer(s: State, w: nat, k: Key) {
    Playing(s, w, k) && forall v :: Playing(s, v, k) ==> v == w
  }

  /**
    The last outstanding copy is acknowledged with nobody in play, or, with no copy outstanding, the
    last worker in play loses the claim, meets a raising call, is refused by the table, or dies.
  */
  ghost predicate FinalBlow(c: Config, s: State, k: Key, step: Step) {
    && !Decided(s, k)
    && match step
       case Resolve(w) =>
         && Attached(s, w) && Outstanding(s, s.workers[w].copy, k) && !Retries(s.workers[w].phase)
         && (forall id :: Outstanding(s, id, k) ==> id == s.workers[w].copy)
         && (forall v :: !Playing(s, v, k))
       case SetNx(w, f) => NoCopyLeft(s, k) && OnlyPlayer(s, w, k) && (k in s.redis || !f.Works?)
       case Insert(w, f) =>
         NoCopyLeft(s, k) && OnlyPlayer(s, w, k) && (f.FailsBefore? || HasPid(s.table, c.region(k).packetId))
       case Crash(w) => NoCopyLeft(s, k) && OnlyPlayer(s, w, k)
       case _ => false
  }

  lemma BlowEnds(c: Config, s: State, step: Step, k: Key)
    requires Sane(c) && Inv(c, s) && Enabled(c, s, step) && FinalBlow(c, s, k, step)
    ensures Gone(Apply(c, s, step), k)
  {
    var s' := Apply(c, s, step);
    if HasKey(s'.table, k) {
      RowsNeedPlayers(c, s, step, k);
    } else if Refused(s', k) {
      RefusalsNeedPlayers(c, s, step, k);
    }
    forall id ensures !Outstanding(s', id, k) {
      if Outstanding(s', id, k) {
        NoCopyReturns(c, s, step, k, id);
      }
    }
    forall w ensures !Playing(s', w, k) {
      if Playing(s', w, k) {
        NoWorkerReturns(c, s, step, k, w);
      }
    }
  }

  /** An outstanding copy stays outstanding unless it is acknowledged. */
  lemma CopyStaysOut(c: Config, s: State, step: Step, k: Key, id: nat)
    requires Enabled(c, s, step) && Outstanding(s, id, k)
    ensures Outstanding(Apply(c, s, step), id, k)
         || (step.Resolve? && Attached(s, step.w) && s.workers[step.w].copy == id && !Retries(s.workers[step.w].phase))
  {
  }

  lemma InsertsRow(c: Config, s: State, w: nat, f: Fault, k: Key)
    requires Sane(c) && RowsOk(c, s) && Enabled(c, s, Insert(w, f)) && Playing(s, w, k)
    requires !f.FailsBefore? && !HasPid(s.table, c.region(k).packetId)
    ensures HasKey(Apply(c, s, Insert(w, f)).table, k)
  {
    var row := RowFor(c, k, s.workers[w].msg.hopCount);
    if !Admissible(s.table, row) {
      RefusedMeansSettled(c, s, k, s.workers[w].msg.hopCount);
    } else {
      assert Apply(c, s, Insert(w, f)).table[|s.table|].row == row;
    }
  }

  lemma CheckDecidesOrPasses(c: Config, s: State, w: nat, k: Key)
    requires Settleable(c, k) && Enabled(c, s, Check(w)) && Playing(s, w, k)
    ensures Playing(Apply(c, s, Check(w)), w, k) || Refused(Apply(c, s, Check(w)), k)
  {
    var s' := Apply(c, s, Check(w));
    if !s'.workers[w].phase.Checked? {
      assert IsRefusal(s'.log[|s.log|], k);
    }
  }

  /** A worker in play stays in play, decides, or leaves by one of the last steps named above. */
  lemma PlayerStays(c: Config, s: State, step: Step, k: Key, w: nat)
    requires Sane(c) && RowsOk(c, s) && Enabled(c, s, step) && Settleable(c, k) && Playing(s, w, k)
    ensures Playing(Apply(c, s, step), w, k) || Decided(Apply(c, s, step), k)
         || step == Crash(w)
         || (step.SetNx? && step.w == w && (k in s.redis || !step.fault.Works?))
         || (step.Insert? && step.w == w && (step.fault.FailsBefore? || HasPid(s.table, c.region(k).packetId)))
  {
    if step.Publish? || step.Tick? || step.Flush? || step.w != w {
      assert Apply(c, s, step).workers[w] == s.workers[w];
    } else if step.Check? {
      CheckDecidesOrPasses(c, s, w, k);
    } else if step.Insert? && !step.fault.FailsBefore? && !HasPid(s.table, c.region(k).packetId) {
      InsertsRow(c, s, w, step.fault, k);
    }
  }

  lemma BlowsAreFinal(c: Config, s: State, step: Step, k: Key)
    requires Sane(c) && Inv(c, s) && Enabled(c, s, step) && Settleable(c, k)
    requires !Gone(s, k) && Gone(Apply(c, s, step), k)
    ensures FinalBlow(c, s, k, step)
  {
    var s' := Apply(c, s, step);
    if Decided(s, k) {
      DecidedStays(c, s, step, k);
    }
    if id :| Outstanding(s, id, k) {
      CopyStaysOut(c, s, step, k, id);
      forall other | Outstanding(s, other, k) ensures other == id {
        CopyStaysOut(c, s, step, k, other);
      }
      forall v ensures !Playing(s, v, k) {
        if Playing(s, v, k) {
          PlayerStays(c, s, step, k, v);
        }
      }
    } else {
      var w :| Playing(s, w, k);
      PlayerStays(c, s, step, k, w);
      forall v | Playing(s, v, k) ensures v == w {
        PlayerStays(c, s, step, k, v);
      }
    }
  }

  /** The steps that make a payment gone are exactly the final blows. */
  lemma LossExactly(c: Config, s: State, step: Step, k: Key)
    requires Sane(c) && Inv(c, s) && Enabled(c, s, step) && Settleable(c, k) && !Gone(s, k)
    ensures Gone(Apply(c, s, step), k) <==> FinalBlow(c, s, k, step)
  {
    if FinalBlow(c, s, k, step) {
      BlowEnds(c, s, step, k);
    } else if Gone(Apply(c, s, step), k) {
      BlowsAreFinal(c, s, step, k);
    }
  }

  ghost predicate Struck(c: Config, s: State, steps: seq<Step>, k: Key)
    requires Legal(c, s, steps)
    decreases |steps|
  {
    steps != [] && (FinalBlow(c, s, k, steps[0]) || Struck(c, Apply(c, s, steps[0]), steps[1..], k))
  }

  /** With nothing published anew, a run ends with the payment gone exactly when it contains a final blow. */
  lemma {:induction false} NoLossExactly(c: Config, s: State, steps: seq<Step>, k: Key)
    requires Sane(c) && Inv(c, s) && Legal(c, s, steps) && Settleable(c, k)
    requires !Gone(s, k) && Unrepublished(steps, k)
    ensures Gone(Exec(c, s, steps), k) <==> Struck(c, s, steps, k)
    decreases |steps|
  {
    if steps != [] {
      var s' := Apply(c, s, steps[0]);
      LossExactly(c, s, steps[0], k);
      KeepsInv(c, s, steps[0]);
      assert forall i :: 0 <= i < |steps[1..]| ==> steps[1..][i] == steps[i + 1];
      if Gone(s', k) {
        GoneForGood(c, s', steps[1..], k);
      } else {
        NoLossExactly(c, s', steps[1..], k);
      }
    }
  }
}
