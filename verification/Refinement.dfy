/**
  The sequential pipeline and the step system agree on one delivery handled from start to end with the
  clock standing still and nobody else moving: handling it is a legal schedule of one worker, and every
  such schedule of one worker is the pipeline under some combination of failing calls.
*/
module Refinement {
  import opened Options
  import opened Domain
  import opened Protocol
  import opened Safety
  import opened NoLoss
  import Pipeline

  function Rows(table: seq<Commit>): seq<Row> {
    if table == [] then [] else Rows(table[..|table| - 1]) + [table[|table| - 1].row]
  }

  lemma {:induction false} RowsMatch(table: seq<Commit>)
    ensures |Rows(table)| == |table| && forall n :: 0 <= n < |table| ==> Rows(table)[n] == table[n].row
  {
    if table != [] {
      RowsMatch(table[..|table| - 1]);
    }
  }

  lemma SameConstraints(table: seq<Commit>, row: Row)
    ensures Admissible(table, row) == Pipeline.Insertable(Rows(table), row)
    ensures |Rows(table)| == |table|
  {
    RowsMatch(table);
    var rows := Rows(table);
    if Pipeline.KeyTaken(rows, row.key) {
      var n :| 0 <= n < |rows| && rows[n].key == row.key;
      assert table[n].row.key == row.key;
    }
    if Pipeline.PidTaken(rows, row.packetId) {
      var n :| 0 <= n < |rows| && rows[n].packetId == row.packetId;
      assert table[n].row.packetId == row.packetId;
    }
    if HasKey(table, row.key) {
      var n :| 0 <= n < |table| && table[n].row.key == row.key;
      assert rows[n].key == row.key;
    }
    if HasPid(table, row.packetId) {
      var n :| 0 <= n < |table| && table[n].row.packetId == row.packetId;
      assert rows[n].packetId == row.packetId;
    }
  }

  /** The stores of the step system, seen as the pipeline sees them. */
  predicate Shows(s: State, st: Pipeline.Store) {
    st.now == s.now && st.redis == s.redis && st.rows == Rows(s.table)
  }

  function Final(r: Option<Outcome>): Phase {
    if r.Some? then Finished(r.value) else Raised
  }

  /** From `s` the worker alone has gone on to `e`, where its call of process() is over. */
  predicate Ends(s: State, e: State, w: nat, st: Pipeline.Store, r: Option<Outcome>)
    requires w in s.workers
  {
    var me := s.workers[w];
    && Shows(e, st) && e.now == s.now && e.copies == s.copies
    && e.workers == s.workers[w := me.(phase := Final(r))]
    && e.log == s.log + if r.Some? then [Report(me.copy, me.msg, me.checkedAt, r.value)] else []
  }

  /** One step of the worker, then the rest. */
  lemma Then(c: Config, s: State, step: Step, w: nat, rest: seq<Step>, st: Pipeline.Store, r: Option<Outcome>)
    requires Enabled(c, s, step) && w in s.workers && w in Apply(c, s, step).workers
    requires var s1 := Apply(c, s, step);
      && s1.now == s.now && s1.copies == s.copies && s1.log == s.log
      && s1.workers == s.workers[w := s.workers[w].(phase := s1.workers[w].phase)]
      && Legal(c, s1, rest) && Ends(s1, Exec(c, s1, rest), w, st, r)
    ensures Legal(c, s, [step] + rest) && Ends(s, Exec(c, s, [step] + rest), w, st, r)
  {
    Prepend(c, s, step, rest);
  }

  /** The worker's last step. */
  lemma Last(c: Config, s: State, step: Step, w: nat, st: Pipeline.Store, r: Option<Outcome>)
    requires Enabled(c, s, step) && w in s.workers && Ends(s, Apply(c, s, step), w, st, r)
    ensures Legal(c, s, [step]) && Ends(s, Exec(c, s, [step]), w, st, r)
  {
    Prepend(c, s, step, []);
    assert [step] + [] == [step];
  }

  lemma RunRecover(c: Config, s: State, w: nat, st: Pipeline.Store, f: Pipeline.Faults) returns (steps: seq<Step>)
    requires Busy(s, w) && s.workers[w].phase.Failing? && Shows(s, st)
    ensures Legal(c, s, steps)
    ensures var (st', r) := Pipeline.Recover(c, st, s.workers[w].msg.key, f); Ends(s, Exec(c, s, steps), w, st', r)
  {
    var (st', r) := Pipeline.Recover(c, st, s.workers[w].msg.key, f);
    steps := [Release(w, f.rollback)];
    Last(c, s, Release(w, f.rollback), w, st', r);
  }

  lemma RunPromote(c: Config, s: State, w: nat, st: Pipeline.Store, f: Pipeline.Faults) returns (steps: seq<Step>)
    requires Busy(s, w) && s.workers[w].phase.Marking? && Shows(s, st)
    ensures Legal(c, s, steps)
    ensures var (st', r) := Pipeline.Promote(c, st, s.workers[w].msg.key, s.workers[w].phase.outcome, f);
      Ends(s, Exec(c, s, steps), w, st', r)
  {
    var k, o := s.workers[w].msg.key, s.workers[w].phase.outcome;
    var (st', r) := Pipeline.Promote(c, st, k, o, f);
    if f.mark.Works? {
      steps := [Mark(w, f.mark)];
      Last(c, s, Mark(w, f.mark), w, st', r);
    } else {
      var s1 := Apply(c, s, Mark(w, f.mark));
      var rest := RunRecover(c, s1, w, Pipeline.MarkKey(c, st, k, f.mark), f);
      steps := [Mark(w, f.mark)] + rest;
      Then(c, s, Mark(w, f.mark), w, rest, st', r);
    }
  }

  lemma RunWriteRow(c: Config, s: State, w: nat, st: Pipeline.Store, f: Pipeline.Faults) returns (steps: seq<Step>)
    requires Busy(s, w) && s.workers[w].phase.Writing? && Shows(s, st) && Settleable(c, s.workers[w].msg.key)
    ensures Legal(c, s, steps)
    ensures var (st', r) := Pipeline.WriteRow(c, st, s.workers[w].msg.key, s.workers[w].msg.hopCount, f);
      Ends(s, Exec(c, s, steps), w, st', r)
  {
    var me := s.workers[w];
    var k, row := me.msg.key, RowFor(c, me.msg.key, me.msg.hopCount);
    var (st', r) := Pipeline.WriteRow(c, st, k, me.msg.hopCount, f);
    SameConstraints(s.table, row);
    var s1 := Apply(c, s, Insert(w, f.insert));
    var st1 := if Admissible(s.table, row) && !f.insert.FailsBefore? then st.(rows := st.rows + [row]) else st;
    assert Shows(s1, st1) by {
      assert (s.table + [Commit(row, me.copy, me.checkedAt)])[..|s.table|] == s.table;
    }
    var rest;
    if f.insert.Works? {
      rest := RunPromote(c, s1, w, st1, f);
    } else {
      rest := RunRecover(c, s1, w, st1, f);
    }
    steps := [Insert(w, f.insert)] + rest;
    Then(c, s, Insert(w, f.insert), w, rest, st', r);
  }

  lemma RunReject(c: Config, s: State, w: nat, st: Pipeline.Store, f: Pipeline.Faults) returns (steps: seq<Step>)
    requires Busy(s, w) && s.workers[w].phase.Rejecting? && Shows(s, st)
    requires ContentRefusal(c, s.workers[w].msg.key) == Some(s.workers[w].phase.outcome)
    ensures Legal(c, s, steps)
    ensures var (st', r) := Pipeline.Settle(c, st, s.workers[w].msg.key, s.workers[w].msg.hopCount, f);
      Ends(s, Exec(c, s, steps), w, st', r)
  {
    var k, o := s.workers[w].msg.key, s.workers[w].phase.outcome;
    var (st', r) := Pipeline.Settle(c, st, k, s.workers[w].msg.hopCount, f);
    if f.release.Works? {
      steps := [Release(w, f.release)];
      Last(c, s, Release(w, f.release), w, st', r);
    } else {
      var s1 := Apply(c, s, Release(w, f.release));
      var st1 := Pipeline.ReleaseKey(Pipeline.Persist(st, o, f.evidence), k, f.release);
      var rest := RunRecover(c, s1, w, st1, f);
      steps := [Release(w, f.release)] + rest;
      Then(c, s, Release(w, f.release), w, rest, st', r);
    }
  }

  lemma RunSettle(c: Config, s: State, w: nat, st: Pipeline.Store, f: Pipeline.Faults) returns (steps: seq<Step>)
    requires Busy(s, w) && s.workers[w].phase.Holding? && Shows(s, st)
    requires c.region(s.workers[w].msg.key).aadMatches
    ensures Legal(c, s, steps)
    ensures var (st', r) := Pipeline.Settle(c, st, s.workers[w].msg.key, s.workers[w].msg.hopCount, f);
      Ends(s, Exec(c, s, steps), w, st', r)
  {
    var (st', r) := Pipeline.Settle(c, st, s.workers[w].msg.key, s.workers[w].msg.hopCount, f);
    var s1 := Apply(c, s, Open(w));
    var rest;
    if s1.workers[w].phase.Writing? {
      rest := RunWriteRow(c, s1, w, st, f);
    } else {
      rest := RunReject(c, s1, w, st, f);
    }
    steps := [Open(w)] + rest;
    Then(c, s, Open(w), w, rest, st', r);
  }

  lemma RunClaim(c: Config, s: State, w: nat, st: Pipeline.Store, f: Pipeline.Faults) returns (steps: seq<Step>)
    requires Busy(s, w) && s.workers[w].phase.Checked? && Shows(s, st) && Screen(c, s.workers[w].msg, s.now).None?
    ensures Legal(c, s, steps)
    ensures var (st', r) := Pipeline.Process(c, st, s.workers[w].msg, f); Ends(s, Exec(c, s, steps), w, st', r)
  {
    var k := s.workers[w].msg.key;
    var (st', r) := Pipeline.Process(c, st, s.workers[w].msg, f);
    var s1 := Apply(c, s, SetNx(w, f.setNx));
    var st1 := st.(redis := Pipeline.ClaimKey(c, st.redis, st.now, k, f).0);
    assert Shows(s1, st1);
    if !f.setNx.Works? {
      steps := [SetNx(w, f.setNx)];
      Last(c, s, SetNx(w, f.setNx), w, st', r);
    } else {
      var rest;
      if k in s.redis {
        rest := [Get(w, f.getRaises)];
        Last(c, s1, Get(w, f.getRaises), w, st', r);
      } else {
        rest := RunSettle(c, s1, w, st1, f);
      }
      steps := [SetNx(w, f.setNx)] + rest;
      Then(c, s, SetNx(w, f.setNx), w, rest, st', r);
    }
  }

  /** The check, and then everything up to the end of process(). */
  lemma RunProcess(c: Config, s: State, w: nat, st: Pipeline.Store, f: Pipeline.Faults) returns (steps: seq<Step>)
    requires w in s.workers && s.workers[w].phase.Received? && s.workers[w].checkedAt == s.now && Shows(s, st)
    ensures Legal(c, s, steps)
    ensures var (st', r) := Pipeline.Process(c, st, s.workers[w].msg, f); Ends(s, Exec(c, s, steps), w, st', r)
  {
    var (st', r) := Pipeline.Process(c, st, s.workers[w].msg, f);
    if Screen(c, s.workers[w].msg, s.now).Some? {
      steps := [Check(w)];
      Last(c, s, Check(w), w, st', r);
    } else {
      var rest := RunClaim(c, Apply(c, s, Check(w)), w, st, f);
      steps := [Check(w)] + rest;
      Then(c, s, Check(w), w, rest, st', r);
    }
  }

  lemma AckOrNack(c: Config, s: State, e: State, w: nat, id: nat, st: Pipeline.Store, r: Option<Outcome>)
    requires w in s.workers && s.workers[w].copy == id && Attached(s, w) && Ends(s, e, w, st, r)
    ensures Enabled(c, e, Resolve(w))
    ensures var t := Apply(c, e, Resolve(w));
      && Shows(t, st) && t.log == e.log && t.workers == s.workers - {w}
      && t.copies == s.copies[id := s.copies[id].(place := if Pipeline.Requeue(r) then Ready else Acked)]
  {
    assert Attached(e, w);
    assert e.workers - {w} == s.workers - {w};
  }

  /**
    Handling one ready copy with the sequential pipeline is a legal schedule: deliver, run the
    pipeline, ack or nack.
  */
  lemma ProcessingIsASchedule(c: Config, s: State, w: nat, id: nat, st: Pipeline.Store, f: Pipeline.Faults)
    returns (steps: seq<Step>)
    requires w !in s.workers && id in s.copies && s.copies[id].place.Ready? && Shows(s, st)
    ensures Legal(c, s, steps)
    ensures var m := s.copies[id].msg;
      var (st', r) := Pipeline.Process(c, st, m, f);
      var e := Exec(c, s, steps);
      && Shows(e, st') && e.workers == s.workers
      && e.copies == s.copies[id := Copy(m, if Pipeline.Requeue(r) then Ready else Acked)]
      && e.log == s.log + if r.Some? then [Report(id, m, s.now, r.value)] else []
  {
    var m := s.copies[id].msg;
    var (st', r) := Pipeline.Process(c, st, m, f);
    var s1 := Apply(c, s, Deliver(w, id));
    var middle := RunProcess(c, s1, w, st, f);
    var e := Exec(c, s1, middle);
    AckOrNack(c, s1, e, w, id, st', r);
    Prepend(c, e, Resolve(w), []);
    assert [Resolve(w)] + [] == [Resolve(w)];
    Append(c, s1, middle, [Resolve(w)]);
    Prepend(c, s, Deliver(w, id), middle + [Resolve(w)]);
    steps := [Deliver(w, id)] + (middle + [Resolve(w)]);
    assert s1.workers - {w} == s.workers;
  }

  // --- The converse: a worker that runs alone is the pipeline ---

  /** Steps of processing by worker `w`: nobody else moves and no time passes. */
  predicate Solo(steps: seq<Step>, w: nat) {
    forall i :: 0 <= i < |steps| ==>
      match steps[i]
      case Check(v) => v == w
      case SetNx(v, _) => v == w
      case Get(v, _) => v == w
      case Open(v) => v == w
      case Insert(v, _) => v == w
      case Mark(v, _) => v == w
      case Release(v, _) => v == w
      case _ => false
  }

  predicate Done(s: State, w: nat) {
    w in s.workers && (s.workers[w].phase.Finished? || s.workers[w].phase.Raised?)
  }

  /** `w` runs alone from `s` until its call of process() is over. */
  ghost predicate RunsAlone(c: Config, s: State, w: nat, steps: seq<Step>) {
    Legal(c, s, steps) && Solo(steps, w) && Done(Exec(c, s, steps), w)
  }

  /** The first step of such a run and the rest. */
  lemma First(c: Config, s: State, w: nat, steps: seq<Step>) returns (step: Step, rest: seq<Step>)
    requires RunsAlone(c, s, w, steps) && !Done(s, w)
    ensures steps == [step] + rest && Solo([step], w) && Enabled(c, s, step)
    ensures RunsAlone(c, Apply(c, s, step), w, rest) && Exec(c, s, steps) == Exec(c, Apply(c, s, step), rest)
  {
    step, rest := steps[0], steps[1..];
    assert forall i :: 0 <= i < |rest| ==> rest[i] == steps[i + 1];
    assert [step][0] == steps[0];
  }

  lemma NothingAfterDone(c: Config, s: State, w: nat, steps: seq<Step>)
    requires RunsAlone(c, s, w, steps) && Done(s, w)
    ensures steps == []
  {
  }

  lemma AloneRecover(c: Config, s: State, w: nat, st: Pipeline.Store, steps: seq<Step>)
    returns (f: Pipeline.Faults)
    requires Busy(s, w) && s.workers[w].phase.Failing? && Shows(s, st) && RunsAlone(c, s, w, steps)
    ensures var (st', r) := Pipeline.Recover(c, st, s.workers[w].msg.key, f); Ends(s, Exec(c, s, steps), w, st', r)
  {
    var step, rest := First(c, s, w, steps);
    assert [step][0].Release?;
    NothingAfterDone(c, Apply(c, s, step), w, rest);
    f := Pipeline.NO_FAULTS.(rollback := step.fault);
  }

  lemma AlonePromote(c: Config, s: State, w: nat, st: Pipeline.Store, steps: seq<Step>)
    returns (f: Pipeline.Faults)
    requires Busy(s, w) && s.workers[w].phase.Marking? && Shows(s, st) && RunsAlone(c, s, w, steps)
    ensures var (st', r) := Pipeline.Promote(c, st, s.workers[w].msg.key, s.workers[w].phase.outcome, f);
      Ends(s, Exec(c, s, steps), w, st', r)
  {
    var k, o := s.workers[w].msg.key, s.workers[w].phase.outcome;
    var step, rest := First(c, s, w, steps);
    assert [step][0].Mark?;
    var s1 := Apply(c, s, step);
    if step.fault.Works? {
      NothingAfterDone(c, s1, w, rest);
      f := Pipeline.NO_FAULTS;
    } else {
      f := AloneRecover(c, s1, w, Pipeline.MarkKey(c, st, k, step.fault), rest);
      f := f.(mark := step.fault);
      var (st', r) := Pipeline.Promote(c, st, k, o, f);
      Then(c, s, step, w, rest, st', r);
    }
  }

  lemma AloneWriteRow(c: Config, s: State, w: nat, st: Pipeline.Store, steps: seq<Step>)
    returns (f: Pipeline.Faults)
    requires Busy(s, w) && s.workers[w].phase.Writing? && Shows(s, st) && Settleable(c, s.workers[w].msg.key)
    requires RunsAlone(c, s, w, steps)
    ensures var (st', r) := Pipeline.WriteRow(c, st, s.workers[w].msg.key, s.workers[w].msg.hopCount, f);
      Ends(s, Exec(c, s, steps), w, st', r)
  {
    var me := s.workers[w];
    var k, row := me.msg.key, RowFor(c, me.msg.key, me.msg.hopCount);
    SameConstraints(s.table, row);
    var step, rest := First(c, s, w, steps);
    assert [step][0].Insert?;
    var s1 := Apply(c, s, step);
    var st1 := if Admissible(s.table, row) && !step.fault.FailsBefore? then st.(rows := st.rows + [row]) else st;
    assert Shows(s1, st1) by {
      assert (s.table + [Commit(row, me.copy, me.checkedAt)])[..|s.table|] == s.table;
    }
    if step.fault.Works? {
      f := AlonePromote(c, s1, w, st1, rest);
    } else {
      f := AloneRecover(c, s1, w, st1, rest);
    }
    f := f.(insert := step.fault);
    var (st', r) := Pipeline.WriteRow(c, st, k, me.msg.hopCount, f);
    Then(c, s, step, w, rest, st', r);
  }

  lemma AloneReject(c: Config, s: State, w: nat, st: Pipeline.Store, steps: seq<Step>)
    returns (f: Pipeline.Faults)
    requires Busy(s, w) && s.workers[w].phase.Rejecting? && Shows(s, st) && RunsAlone(c, s, w, steps)
    requires ContentRefusal(c, s.workers[w].msg.key) == Some(s.workers[w].phase.outcome)
    ensures var (st', r) := Pipeline.Settle(c, st, s.workers[w].msg.key, s.workers[w].msg.hopCount, f);
      Ends(s, Exec(c, s, steps), w, st', r)
  {
    var k, o := s.workers[w].msg.key, s.workers[w].phase.outcome;
    var step, rest := First(c, s, w, steps);
    assert [step][0].Release?;
    var s1 := Apply(c, s, step);
    if step.fault.Works? {
      NothingAfterDone(c, s1, w, rest);
      f := Pipeline.NO_FAULTS;
    } else {
      var st1 := Pipeline.ReleaseKey(Pipeline.Persist(st, o, Works), k, step.fault);
      f := AloneRecover(c, s1, w, st1, rest);
      f := f.(release := step.fault, evidence := Works);
      var (st', r) := Pipeline.Settle(c, st, k, s.workers[w].msg.hopCount, f);
      Then(c, s, step, w, rest, st', r);
    }
  }

  lemma AloneSettle(c: Config, s: State, w: nat, st: Pipeline.Store, steps: seq<Step>)
    returns (f: Pipeline.Faults)
    requires Busy(s, w) && s.workers[w].phase.Holding? && Shows(s, st) && RunsAlone(c, s, w, steps)
    requires c.region(s.workers[w].msg.key).aadMatches
    ensures var (st', r) := Pipeline.Settle(c, st, s.workers[w].msg.key, s.workers[w].msg.hopCount, f);
      Ends(s, Exec(c, s, steps), w, st', r)
  {
    var step, rest := First(c, s, w, steps);
    assert [step][0].Open?;
    var s1 := Apply(c, s, step);
    if s1.workers[w].phase.Writing? {
      f := AloneWriteRow(c, s1, w, st, rest);
    } else {
      f := AloneReject(c, s1, w, st, rest);
    }
    var (st', r) := Pipeline.Settle(c, st, s.workers[w].msg.key, s.workers[w].msg.hopCount, f);
    Then(c, s, step, w, rest, st', r);
  }

  /** What is reported after a lost claim. */
  function Lost(c: Config, redis: Markers, k: Key, raises: bool): Option<Outcome>
    requires k in redis
  {
    if raises then None
    else Some(Duplicate(if redis[k].marker.SettledMarker? then DetailAlreadySettled else DetailBeingSettled,
                        k, c.region(k).packetId))
  }

  lemma AloneGet(c: Config, s: State, w: nat, st: Pipeline.Store, steps: seq<Step>) returns (raises: bool)
    requires Busy(s, w) && s.workers[w].phase.LostRace? && Shows(s, st) && RunsAlone(c, s, w, steps)
    requires s.workers[w].msg.key in s.redis
    ensures Ends(s, Exec(c, s, steps), w, st, Lost(c, s.redis, s.workers[w].msg.key, raises))
  {
    var step, rest := First(c, s, w, steps);
    assert [step][0].Get?;
    NothingAfterDone(c, Apply(c, s, step), w, rest);
    raises := step.raises;
  }

  /** What the pipeline does with a screened message, by how the claim goes. */
  lemma ProcessByClaim(c: Config, st: Pipeline.Store, m: Reading, f: Pipeline.Faults)
    requires Screen(c, m, st.now).None?
    ensures var st1 := st.(redis := Pipeline.ClaimKey(c, st.redis, st.now, m.key, f).0);
      Pipeline.Process(c, st, m, f) ==
        if !f.setNx.Works? then (st1, None)
        else if m.key in st.redis then (st1, Lost(c, st.redis, m.key, f.getRaises))
        else Pipeline.Settle(c, st1, m.key, m.hopCount, f)
  {
  }

  /** SET NX in both descriptions. */
  lemma ClaimShape(c: Config, s: State, w: nat, st: Pipeline.Store, fault: Fault)
    requires Busy(s, w) && s.workers[w].phase.Checked? && Shows(s, st)
    ensures var k, s1 := s.workers[w].msg.key, Apply(c, s, SetNx(w, fault));
      var redis := Pipeline.ClaimKey(c, st.redis, st.now, k, Pipeline.NO_FAULTS.(setNx := fault)).0;
      && Shows(s1, st.(redis := redis)) && (k in s.redis ==> s1.redis == s.redis)
      && s1.now == s.now && s1.copies == s.copies && s1.log == s.log
      && s1.workers == s.workers[w := s.workers[w].(phase :=
           if !fault.Works? then Raised else if k in s.redis then LostRace else Holding)]
  {
  }

  lemma AloneClaim(c: Config, s: State, w: nat, st: Pipeline.Store, steps: seq<Step>)
    returns (f: Pipeline.Faults)
    requires Busy(s, w) && s.workers[w].phase.Checked? && Shows(s, st) && RunsAlone(c, s, w, steps)
    requires Screen(c, s.workers[w].msg, s.now).None?
    ensures var (st', r) := Pipeline.Process(c, st, s.workers[w].msg, f); Ends(s, Exec(c, s, steps), w, st', r)
  {
    var k := s.workers[w].msg.key;
    assert c.region(k).aadMatches;
    var step, rest := First(c, s, w, steps);
    assert [step][0] == SetNx(w, step.fault);
    ClaimShape(c, s, w, st, step.fault);
    hide Apply, Enabled, Screen, Pipeline.Process, Pipeline.Settle;
    var s1 := Apply(c, s, step);
    f := Pipeline.NO_FAULTS.(setNx := step.fault);
    var st1 := st.(redis := Pipeline.ClaimKey(c, st.redis, st.now, k, f).0);
    if !step.fault.Works? {
      NothingAfterDone(c, s1, w, rest);
    } else if k in s.redis {
      var raises := AloneGet(c, s1, w, st1, rest);
      f := f.(getRaises := raises);
    } else {
      f := AloneSettle(c, s1, w, st1, rest);
      f := f.(setNx := step.fault);
    }
    ProcessByClaim(c, st, s.workers[w].msg, f);
    var (st', r) := Pipeline.Process(c, st, s.workers[w].msg, f);
    Then(c, s, step, w, rest, st', r);
  }

  lemma AloneProcess(c: Config, s: State, w: nat, st: Pipeline.Store, steps: seq<Step>)
    returns (f: Pipeline.Faults)
    requires w in s.workers && s.workers[w].phase.Received? && s.workers[w].checkedAt == s.now
    requires Shows(s, st) && RunsAlone(c, s, w, steps)
    ensures var (st', r) := Pipeline.Process(c, st, s.workers[w].msg, f); Ends(s, Exec(c, s, steps), w, st', r)
  {
    var step, rest := First(c, s, w, steps);
    assert [step][0].Check?;
    var s1 := Apply(c, s, step);
    if Screen(c, s.workers[w].msg, s.now).Some? {
      NothingAfterDone(c, s1, w, rest);
      f := Pipeline.NO_FAULTS;
    } else {
      f := AloneClaim(c, s1, w, st, rest);
      var (st', r) := Pipeline.Process(c, st, s.workers[w].msg, f);
      Then(c, s, step, w, rest, st', r);
    }
  }

  lemma {:induction false} Split(c: Config, s: State, first: seq<Step>, rest: seq<Step>)
    requires Legal(c, s, first + rest)
    ensures Legal(c, s, first) && Legal(c, Exec(c, s, first), rest)
    ensures Exec(c, s, first + rest) == Exec(c, Exec(c, s, first), rest)
    decreases |first|
  {
    if first == [] {
      assert first + rest == rest;
    } else {
      assert (first + rest)[1..] == first[1..] + rest && (first + rest)[0] == first[0];
      Split(c, Apply(c, s, first[0]), first[1..], rest);
    }
  }

  /**
    Every schedule in which one worker takes a ready copy from delivery to ack or nack, alone and at one
    moment, is the pipeline on that message under some combination of failing calls.
  */
  lemma ScheduleIsProcessing(
    c: Config, s: State, w: nat, id: nat, st: Pipeline.Store, middle: seq<Step>) returns (f: Pipeline.Faults)
    requires w !in s.workers && id in s.copies && s.copies[id].place.Ready? && Shows(s, st)
    requires Solo(middle, w) && Legal(c, s, [Deliver(w, id)] + (middle + [Resolve(w)]))
    ensures var m := s.copies[id].msg;
      var (st', r) := Pipeline.Process(c, st, m, f);
      var e := Exec(c, s, [Deliver(w, id)] + (middle + [Resolve(w)]));
      && Shows(e, st') && e.workers == s.workers
      && e.copies == s.copies[id := Copy(m, if Pipeline.Requeue(r) then Ready else Acked)]
      && e.log == s.log + if r.Some? then [Report(id, m, s.now, r.value)] else []
  {
    var s1 := Apply(c, s, Deliver(w, id));
    assert ([Deliver(w, id)] + (middle + [Resolve(w)]))[1..] == middle + [Resolve(w)];
    Split(c, s1, middle, [Resolve(w)]);
    var e := Exec(c, s1, middle);
    assert Enabled(c, e, Resolve(w)) && [Resolve(w)][1..] == [];
    hide Pipeline.Process;
    f := AloneProcess(c, s1, w, st, middle);
    var (st', r) := Pipeline.Process(c, st, s.copies[id].msg, f);
    AckOrNack(c, s1, e, w, id, st', r);
    assert s1.workers - {w} == s.workers;
  }
}
