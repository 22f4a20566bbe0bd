/**
  The faults that lose a payment, one run for each: after every one of them the only copy is acknowledged,
  nothing was settled or refused, and the payment is gone.
*/
module LossRuns {
  import opened Options
  import opened Domain
  import opened Protocol
  import opened Safety
  import opened NoLoss
  import CompleteRuns

  /** A step in which nothing fails, is flushed or expires. */
  predicate Harmless(step: Step) {
    match step
    case Tick(_) => false
    case Flush(_) => false
    case SetNx(_, f) => f.Works?
    case Get(_, raises) => !raises
    case Insert(_, f) => f.Works?
    case Mark(_, f) => f.Works?
    case Release(_, f) => f.Works?
    case Crash(_) => false
    case Disconnect(_) => false
    case _ => true
  }

  /** Nothing fails along the run but in these steps. */
  predicate OnlyFaults(steps: seq<Step>, faults: set<Step>) {
    forall i :: 0 <= i < |steps| ==> Harmless(steps[i]) || steps[i] in faults
  }

  /** What three of the four faults leave behind: the copy in the queue, a claim in Redis, no worker. */
  function Orphaned(c: Config, s: State, k: Key): State {
    s.(redis := s.redis[k := Entry(ClaimedMarker, s.now + c.claimTtl)])
  }

  /** One ready genuine copy, fresh, nobody at work and the key unclaimed. */
  predicate Waiting(c: Config, s: State, k: Key) {
    && 0 in s.copies && s.copies[0].place.Ready? && Genuine(s.copies[0].msg, k) && s.workers == map[]
    && Passed(c, s.copies[0].msg, s.now) && k !in s.redis
  }

  /** Worker 0 has taken the copy and checked it. */
  function Begun(s: State): State
    requires 0 in s.copies
  {
    s.(copies := s.copies[0 := s.copies[0].(place := Held(0))],
       workers := map[0 := Worker(0, s.copies[0].msg, s.now, Checked)])
  }

  lemma Begin(c: Config, s: State, k: Key, rest: seq<Step>) returns (steps: seq<Step>)
    requires Waiting(c, s, k) && Legal(c, Begun(s), rest)
    ensures Legal(c, s, steps) && Exec(c, s, steps) == Exec(c, Begun(s), rest)
    ensures forall faults :: OnlyFaults(rest, faults) ==> OnlyFaults(steps, faults)
  {
    var s1 := Apply(c, s, Deliver(0, 0));
    assert Apply(c, s1, Check(0)).workers[0].phase.Checked?;
    assert Apply(c, s1, Check(0)) == Begun(s);
    Prepend(c, s1, Check(0), rest);
    steps := [Check(0)] + rest;
    Prepend(c, s, Deliver(0, 0), steps);
    steps := [Deliver(0, 0)] + steps;
  }

  /** A worker claims and dies; the copy goes back to the queue, the marker stays. */
  lemma DieHolding(c: Config, s: State, k: Key) returns (steps: seq<Step>)
    requires Waiting(c, s, k)
    ensures Legal(c, s, steps) && OnlyFaults(steps, {Crash(0)})
    ensures Exec(c, s, steps) == Orphaned(c, s, k)
  {
    var s1 := Apply(c, Begun(s), SetNx(0, Works));
    assert Attached(s1, 0);
    assert Apply(c, s1, Crash(0)).workers == map[] && Apply(c, s1, Crash(0)).copies == s.copies;
    Prepend(c, s1, Crash(0), []);
    Prepend(c, Begun(s), SetNx(0, Works), [Crash(0)] + []);
    steps := Begin(c, s, k, [SetNx(0, Works)] + ([Crash(0)] + []));
  }

  /** SET NX is applied but raises; the message is nacked, the marker stays. */
  lemma RaiseClaiming(c: Config, s: State, k: Key) returns (steps: seq<Step>)
    requires Waiting(c, s, k)
    ensures Legal(c, s, steps) && OnlyFaults(steps, {SetNx(0, FailsAfter)})
    ensures Exec(c, s, steps) == Orphaned(c, s, k)
  {
    var s1 := Apply(c, Begun(s), SetNx(0, FailsAfter));
    assert Attached(s1, 0);
    assert Apply(c, s1, Resolve(0)).workers == map[] && Apply(c, s1, Resolve(0)).copies == s.copies;
    Prepend(c, s1, Resolve(0), []);
    Prepend(c, Begun(s), SetNx(0, FailsAfter), [Resolve(0)] + []);
    steps := Begin(c, s, k, [SetNx(0, FailsAfter)] + ([Resolve(0)] + []));
  }

  /** A worker that has won the claim and opened the packet. */
  predicate AtTheInsert(c: Config, s: State, w: nat, k: Key) {
    && w in s.workers && Genuine(s.workers[w].msg, k) && s.workers[w].phase.Writing? && Settleable(c, k)
  }

  lemma ClaimFirst(c: Config, s: State, k: Key) returns (steps: seq<Step>)
    requires Waiting(c, s, k) && Settleable(c, k)
    ensures Legal(c, s, steps) && OnlyFaults(steps, {})
    ensures Exec(c, s, steps) == Orphaned(c, s, k).(
      copies := s.copies[0 := s.copies[0].(place := Held(0))],
      workers := map[0 := Worker(0, s.copies[0].msg, s.now, Writing)])
  {
    var s1 := Apply(c, Begun(s), SetNx(0, Works));
    assert Apply(c, s1, Open(0)).workers == map[0 := Worker(0, s.copies[0].msg, s.now, Writing)];
    Prepend(c, s1, Open(0), []);
    Prepend(c, Begun(s), SetNx(0, Works), [Open(0)] + []);
    steps := Begin(c, s, k, [SetNx(0, Works)] + ([Open(0)] + []));
  }

  /** The insert fails, the rollback does not reach Redis, the message is nacked. */
  lemma FailRollback(c: Config, s: State, k: Key) returns (steps: seq<Step>)
    requires AtTheInsert(c, s, 0, k) && s.workers.Keys == {0} && Attached(s, 0)
    ensures Legal(c, s, steps) && OnlyFaults(steps, {Insert(0, FailsBefore), Release(0, FailsBefore)})
    ensures Exec(c, s, steps) == s.(workers := map[],
      copies := s.copies[s.workers[0].copy := s.copies[s.workers[0].copy].(place := Ready)])
  {
    var s1 := Apply(c, s, Insert(0, FailsBefore));
    var s2 := Apply(c, s1, Release(0, FailsBefore));
    assert Attached(s2, 0);
    assert Apply(c, s2, Resolve(0)).workers == map[];
    steps := [];
    Prepend(c, s2, Resolve(0), steps);
    steps := [Resolve(0)] + steps;
    Prepend(c, s1, Release(0, FailsBefore), steps);
    steps := [Release(0, FailsBefore)] + steps;
    Prepend(c, s, Insert(0, FailsBefore), steps);
    steps := [Insert(0, FailsBefore)] + steps;
  }

  /** The redelivery loses the claim to the marker, is reported a duplicate, and is acknowledged. */
  lemma MeetMarker(c: Config, s: State, k: Key) returns (steps: seq<Step>)
    requires 0 in s.copies && s.copies[0].place.Ready? && Genuine(s.copies[0].msg, k) && 1 !in s.workers
    requires Passed(c, s.copies[0].msg, s.now) && k in s.redis && s.redis[k].marker.ClaimedMarker?
    ensures Legal(c, s, steps) && OnlyFaults(steps, {})
    ensures Exec(c, s, steps) == Dropped(c, s, k)
  {
    var s1 := Apply(c, s, Deliver(1, 0));
    var s2 := Apply(c, s1, Check(1));
    assert s2.workers[1].phase.Checked?;
    assert s2.copies == s.copies[0 := s.copies[0].(place := Held(1))];
    assert s2.workers == s.workers[1 := Worker(0, s.copies[0].msg, s.now, Checked)];
    steps := LoseAndAck(c, s2, k);
    assert Dropped(c, s2, k).(workers := s.workers) == Dropped(c, s, k);
    assert s2.workers - {1} == s.workers;
    Prepend(c, s1, Check(1), steps);
    steps := [Check(1)] + steps;
    Prepend(c, s, Deliver(1, 0), steps);
    steps := [Deliver(1, 0)] + steps;
  }

  /** The copy acknowledged and reported a duplicate, all else as before. */
  function Dropped(c: Config, s: State, k: Key): State
    requires 0 in s.copies
  {
    s.(copies := s.copies[0 := s.copies[0].(place := Acked)],
       log := s.log + [Report(0, s.copies[0].msg, s.now, Duplicate(DetailBeingSettled, k, c.region(k).packetId))])
  }

  lemma LoseAndAck(c: Config, s: State, k: Key) returns (steps: seq<Step>)
    requires 0 in s.copies && s.copies[0].place == Held(1) && Genuine(s.copies[0].msg, k)
    requires 1 in s.workers && s.workers[1] == Worker(0, s.copies[0].msg, s.now, Checked)
    requires k in s.redis && s.redis[k].marker.ClaimedMarker?
    ensures Legal(c, s, steps) && OnlyFaults(steps, {})
    ensures Exec(c, s, steps) == Dropped(c, s, k).(workers := s.workers - {1})
  {
    var s1 := Apply(c, s, SetNx(1, Works));
    var s2 := Apply(c, s1, Get(1, false));
    assert Attached(s2, 1);
    assert Apply(c, s2, Resolve(1)).workers == s.workers - {1};
    steps := [];
    Prepend(c, s2, Resolve(1), steps);
    steps := [Resolve(1)] + steps;
    Prepend(c, s1, Get(1, false), steps);
    steps := [Get(1, false)] + steps;
    Prepend(c, s, SetNx(1, Works), steps);
    steps := [SetNx(1, Works)] + steps;
  }

  /** The insert fails, the rollback works, and there is nothing to nack any more. */
  lemma FailDetached(c: Config, s: State, k: Key) returns (steps: seq<Step>)
    requires AtTheInsert(c, s, 0, k) && s.workers.Keys == {0} && !Attached(s, 0)
    ensures Legal(c, s, steps) && OnlyFaults(steps, {Insert(0, FailsBefore)})
    ensures var me := s.workers[0];
      Exec(c, s, steps) == s.(workers := map[], redis := s.redis - {k},
        log := s.log + [Report(me.copy, me.msg, me.checkedAt, UnexpectedFailure(k, c.region(k).packetId))])
  {
    var s1 := Apply(c, s, Insert(0, FailsBefore));
    var s2 := Apply(c, s1, Release(0, Works));
    assert !Attached(s2, 0);
    assert Apply(c, s2, Resolve(0)).workers == map[];
    steps := [];
    Prepend(c, s2, Resolve(0), steps);
    steps := [Resolve(0)] + steps;
    Prepend(c, s1, Release(0, Works), steps);
    steps := [Release(0, Works)] + steps;
    Prepend(c, s, Insert(0, FailsBefore), steps);
    steps := [Insert(0, FailsBefore)] + steps;
  }

  /** What every run of this module ends with. */
  ghost predicate Loses(c: Config, t0: int, steps: seq<Step>, k: Key, hopCount: nat) {
    && Legal(c, Start(t0), steps)
    && var s := Exec(c, Start(t0), steps);
       && s.copies == map[0 := Copy(Parsed(k, true, hopCount), Acked)] && s.workers == map[]
       && s.table == [] && Gone(s, k) && !Safe(c, s, k)
  }

  function Queued(c: Config, k: Key, hopCount: nat): State {
    State(c.region(k).createdAt, map[], [], map[0 := Copy(Parsed(k, true, hopCount), Ready)], map[], [])
  }

  lemma PublishFirst(c: Config, k: Key, hopCount: nat, rest: seq<Step>) returns (steps: seq<Step>)
    requires Legal(c, Queued(c, k, hopCount), rest)
    ensures Legal(c, Start(c.region(k).createdAt), steps)
    ensures Exec(c, Start(c.region(k).createdAt), steps) == Exec(c, Queued(c, k, hopCount), rest)
    ensures forall faults :: OnlyFaults(rest, faults) ==> OnlyFaults(steps, faults)
  {
    var publish := Publish(0, Parsed(k, true, hopCount));
    assert Apply(c, Start(c.region(k).createdAt), publish) == Queued(c, k, hopCount);
    Prepend(c, Start(c.region(k).createdAt), publish, rest);
    steps := [publish] + rest;
  }

  /** Whatever orphans the claim of the only copy loses the payment: the redelivery meets the marker. */
  lemma OrphanLoses(c: Config, k: Key, hopCount: nat, first: seq<Step>) returns (steps: seq<Step>)
    requires Sane(c) && Settleable(c, k) && Legal(c, Queued(c, k, hopCount), first)
    requires Exec(c, Queued(c, k, hopCount), first) == Orphaned(c, Queued(c, k, hopCount), k)
    ensures Loses(c, c.region(k).createdAt, steps, k, hopCount)
    ensures forall faults :: OnlyFaults(first, faults) ==> OnlyFaults(steps, faults)
  {
    var s := Queued(c, k, hopCount);
    var rest := MeetMarker(c, Orphaned(c, s, k), k);
    Append(c, s, first, rest);
    steps := PublishFirst(c, k, hopCount, first + rest);
    assert s.copies[0 := s.copies[0].(place := Acked)] == map[0 := Copy(Parsed(k, true, hopCount), Acked)];
  }

  /**
    For every settleable packet there is a run with a single crash and no other fault, inside the
    freshness window, that loses it: the worker dies holding the claim, and the redelivery meets the
    marker it left.
  */
  lemma CrashLosesPayment(c: Config, k: Key, hopCount: nat) returns (t0: int, steps: seq<Step>)
    requires Sane(c) && Settleable(c, k)
    ensures Loses(c, t0, steps, k, hopCount) && OnlyFaults(steps, {Crash(0)})
  {
    t0 := c.region(k).createdAt;
    var first := DieHolding(c, Queued(c, k, hopCount), k);
    steps := OrphanLoses(c, k, hopCount, first);
  }

  /** One SET NX that is applied but raises loses the payment by itself. */
  lemma RaisedClaimLosesPayment(c: Config, k: Key, hopCount: nat) returns (t0: int, steps: seq<Step>)
    requires Sane(c) && Settleable(c, k)
    ensures Loses(c, t0, steps, k, hopCount) && OnlyFaults(steps, {SetNx(0, FailsAfter)})
  {
    t0 := c.region(k).createdAt;
    var first := RaiseClaiming(c, Queued(c, k, hopCount), k);
    steps := OrphanLoses(c, k, hopCount, first);
  }

  /** A rollback that does not reach Redis loses it after a failed insert. */
  lemma FailedRollbackLosesPayment(c: Config, k: Key, hopCount: nat) returns (t0: int, steps: seq<Step>)
    requires Sane(c) && Settleable(c, k)
    ensures Loses(c, t0, steps, k, hopCount)
    ensures OnlyFaults(steps, {Insert(0, FailsBefore), Release(0, FailsBefore)})
  {
    t0 := c.region(k).createdAt;
    var s := Queued(c, k, hopCount);
    var first := ClaimFirst(c, s, k);
    var rest := FailRollback(c, Exec(c, s, first), k);
    Append(c, s, first, rest);
    assert s.copies[0 := s.copies[0].(place := Held(0))][0 := s.copies[0]] == s.copies;
    steps := OrphanLoses(c, k, hopCount, first + rest);
  }

  /** The owner loses its connection, and the redelivered copy is dropped as a duplicate of it. */
  lemma DisconnectHolding(c: Config, s: State, k: Key) returns (steps: seq<Step>)
    requires Waiting(c, s, k) && Settleable(c, k)
    ensures Legal(c, s, steps) && OnlyFaults(steps, {Disconnect(0)})
    ensures Exec(c, s, steps) == Dropped(c, Orphaned(c, s, k), k).(
      workers := map[0 := Worker(0, s.copies[0].msg, s.now, Writing)])
  {
    var first := ClaimFirst(c, s, k);
    var s1 := Exec(c, s, first);
    var s2 := Apply(c, s1, Disconnect(0));
    assert s2.copies == s.copies;
    var rest := MeetMarker(c, s2, k);
    Prepend(c, s1, Disconnect(0), rest);
    Append(c, s, first, [Disconnect(0)] + rest);
    steps := first + ([Disconnect(0)] + rest);
  }

  /** A lost connection loses it when the insert of the detached worker then fails. */
  lemma LostConnectionLosesPayment(c: Config, k: Key, hopCount: nat) returns (t0: int, steps: seq<Step>)
    requires Sane(c) && Settleable(c, k)
    ensures Loses(c, t0, steps, k, hopCount)
    ensures OnlyFaults(steps, {Disconnect(0), Insert(0, FailsBefore)})
  {
    t0 := c.region(k).createdAt;
    var s := Queued(c, k, hopCount);
    var first := DisconnectHolding(c, s, k);
    var rest := FailDetached(c, Exec(c, s, first), k);
    Append(c, s, first, rest);
    steps := PublishFirst(c, k, hopCount, first + rest);
    assert s.copies[0 := s.copies[0].(place := Acked)] == map[0 := Copy(Parsed(k, true, hopCount), Acked)];
  }

  // --- A crash that loses nothing: after the commit ---

  lemma {:induction false} HarmlessIsSteady(c: Config, s: State, steps: seq<Step>, k: Key)
    requires Legal(c, s, steps) && OnlyFaults(steps, {})
    ensures Steady(c, s, steps, k)
    decreases |steps|
  {
    if steps != [] {
      assert forall i :: 0 <= i < |steps[1..]| ==> steps[1..][i] == steps[i + 1];
      assert Harmless(steps[0]);
      HarmlessIsSteady(c, Apply(c, s, steps[0]), steps[1..], k);
    }
  }

  lemma {:induction false} SettledIsSteady(c: Config, s: State, steps: seq<Step>, k: Key)
    requires Legal(c, s, steps) && HasPid(s.table, c.region(k).packetId)
    ensures Steady(c, s, steps, k)
    decreases |steps|
  {
    if steps != [] {
      StepShape(c, s, steps[0]);
      PidGrows(s.table, Apply(c, s, steps[0]).table);
      SettledIsSteady(c, Apply(c, s, steps[0]), steps[1..], k);
    }
  }

  lemma {:induction false} AppendSteady(c: Config, s: State, first: seq<Step>, rest: seq<Step>, k: Key)
    requires Legal(c, s, first) && Legal(c, Exec(c, s, first), rest) && Legal(c, s, first + rest)
    requires Steady(c, s, first, k) && Steady(c, Exec(c, s, first), rest, k)
    ensures Steady(c, s, first + rest, k)
    decreases |first|
  {
    if first == [] {
      assert first + rest == rest;
    } else {
      assert (first + rest)[1..] == first[1..] + rest;
      AppendSteady(c, Apply(c, s, first[0]), first[1..], rest, k);
    }
  }

  /** The worker commits and dies before `mark_settled`; the redelivery meets the claim it left. */
  lemma CommitAndDie(c: Config, s: State, k: Key) returns (steps: seq<Step>)
    requires AtTheInsert(c, s, 0, k) && s.workers.Keys == {0} && Attached(s, 0) && s.workers[0].copy == 0
    requires Admissible(s.table, RowFor(c, k, s.workers[0].msg.hopCount))
    requires Passed(c, s.copies[0].msg, s.now) && s.copies[0].msg == s.workers[0].msg
    requires k in s.redis && s.redis[k].marker.ClaimedMarker?
    ensures Legal(c, s, steps) && OnlyFaults(steps, {Crash(0)}) && Crash(0) in steps && Steady(c, s, steps, k)
    ensures var e := Exec(c, s, steps); var row := RowFor(c, k, s.workers[0].msg.hopCount);
      && e.copies == s.copies[0 := s.copies[0].(place := Acked)] && |e.log| == |s.log| + 1
      && s.log <= e.log && !IsRefusal(e.log[|s.log|], k)
      && e.table == s.table + [Commit(row, 0, s.workers[0].checkedAt)]
  {
    var s1 := Apply(c, s, Insert(0, Works));
    assert s1.table[|s.table|].row.packetId == c.region(k).packetId;
    var s2 := Apply(c, s1, Crash(0));
    assert s2.copies == s.copies[0 := s.copies[0].(place := Ready)] && s2.workers == map[];
    var rest := MeetMarker(c, s2, k);
    Prepend(c, s1, Crash(0), rest);
    SettledIsSteady(c, s1, [Crash(0)] + rest, k);
    Prepend(c, s, Insert(0, Works), [Crash(0)] + rest);
    steps := [Insert(0, Works)] + ([Crash(0)] + rest);
    assert steps[1] == Crash(0) && steps[1..] == [Crash(0)] + rest;
  }

  lemma CommitFromQueue(c: Config, k: Key, hopCount: nat) returns (steps: seq<Step>)
    requires Sane(c) && Settleable(c, k)
    ensures var s := Queued(c, k, hopCount);
      && Legal(c, s, steps) && OnlyFaults(steps, {Crash(0)}) && Crash(0) in steps && Steady(c, s, steps, k)
      && var e := Exec(c, s, steps);
         && e.copies == s.copies[0 := s.copies[0].(place := Acked)] && !Refused(e, k)
         && |e.table| == 1 && e.table[0].row == RowFor(c, k, hopCount)
  {
    var s := Queued(c, k, hopCount);
    var first := ClaimFirst(c, s, k);
    HarmlessIsSteady(c, s, first, k);
    var rest := CommitAndDie(c, Exec(c, s, first), k);
    Append(c, s, first, rest);
    AppendSteady(c, s, first, rest, k);
    steps := first + rest;
    assert s.copies[0 := s.copies[0].(place := Held(0))][0 := s.copies[0].(place := Acked)]
      == s.copies[0 := s.copies[0].(place := Acked)];
  }

  /**
    For every settleable packet there is a clean run in which the worker dies between its commit and
    `mark_settled` and the redelivery is dropped as a duplicate: the row is there.
  */
  lemma CrashAfterCommitIsClean(c: Config, k: Key, hopCount: nat) returns (t0: int, steps: seq<Step>)
    requires Sane(c) && Settleable(c, k)
    ensures CompleteRuns.CleanRun(c, t0, steps) && OnlyFaults(steps, {Crash(0)}) && Crash(0) in steps
    ensures var table := Exec(c, Start(t0), steps).table; |table| == 1 && table[0].row == RowFor(c, k, hopCount)
  {
    t0 := c.region(k).createdAt;
    var publish := Publish(0, Parsed(k, true, hopCount));
    var rest := CommitFromQueue(c, k, hopCount);
    assert Apply(c, Start(t0), publish) == Queued(c, k, hopCount);
    Prepend(c, Start(t0), publish, rest);
    steps := [publish] + rest;
    assert steps[1..] == rest && steps[0] == publish;
    var e := Exec(c, Start(t0), steps);
    assert forall l :: l in CompleteRuns.Payments(c, e) ==> l == k;
    CompleteRuns.SteadyRunsAreClean(c, t0, steps);
  }
}
