/**
  When a payment can still be settled, exactly: refusals do not count here.
*/
module Settling {
  import opened Options
  import opened Domain
  import opened Protocol
  import opened Safety
  import opened NoLoss
  import opened Loss

  /** A copy or an unchecked worker is left and the freshness window has not closed. */
  ghost predicate Timely(c: Config, s: State, k: Key) {
    && s.now <= c.region(k).createdAt + c.freshnessWindow
    && ((exists id :: Outstanding(s, id, k)) || (exists w :: Playing(s, w, k) && s.workers[w].phase.Received?))
  }

  /** A worker is past its check and short of the insert. */
  ghost predicate Underway(s: State, k: Key) {
    exists w :: Playing(s, w, k) && !s.workers[w].phase.Received?
  }

  /** It has its row, or its packet id is free and somebody can still write the row. */
  ghost predicate Within(c: Config, s: State, k: Key) {
    HasKey(s.table, k) || (!HasPid(s.table, c.region(k).packetId) && (Underway(s, k) || Timely(c, s, k)))
  }

  // --- From outside no step leads back ---

  /** A worker past its check was there before, or has just passed it, inside the window. */
  lemma PlayersComeFromChecks(c: Config, s: State, step: Step, k: Key, w: nat)
    requires Enabled(c, s, step) && Playing(Apply(c, s, step), w, k)
    requires !Apply(c, s, step).workers[w].phase.Received?
    ensures Playing(s, w, k)
    ensures s.workers[w].phase.Received? ==> s.now <= c.region(k).createdAt + c.freshnessWindow
  {
    if step.Publish? || step.Tick? || step.Flush? || step.w != w {
      OthersStay(c, s, step, w);
      hide Apply, Enabled;
    }
  }

  lemma OutsideStays(c: Config, s: State, step: Step, k: Key)
    requires Inv(c, s) && Enabled(c, s, step) && !Within(c, s, k) && !Republishes(step, k)
    ensures !Within(c, Apply(c, s, step), k)
  {
    var s' := Apply(c, s, step);
    StepShape(c, s, step);
    PidGrows(s.table, s'.table);
    if HasKey(s'.table, k) {
      RowsNeedPlayers(c, s, step, k);
    } else if !HasPid(s'.table, c.region(k).packetId) {
      if w :| Playing(s', w, k) && !s'.workers[w].phase.Received? {
        PlayersComeFromChecks(c, s, step, k, w);
      } else if id :| Outstanding(s', id, k) {
        NoCopyReturns(c, s, step, k, id);
      } else if w :| Playing(s', w, k) {
        NoWorkerReturns(c, s, step, k, w);
      }
    }
  }

  lemma {:induction false} OutsideForGood(c: Config, s: State, steps: seq<Step>, k: Key)
    requires Sane(c) && Inv(c, s) && Legal(c, s, steps) && !Within(c, s, k) && Unrepublished(steps, k)
    ensures !Within(c, Exec(c, s, steps), k)
    decreases |steps|
  {
    if steps != [] {
      KeepsInv(c, s, steps[0]);
      OutsideStays(c, s, steps[0], k);
      assert forall i :: 0 <= i < |steps[1..]| ==> steps[1..][i] == steps[i + 1];
      OutsideForGood(c, Apply(c, s, steps[0]), steps[1..], k);
    }
  }

  // --- From inside some continuation settles ---

  /** An unchecked worker, its window not closed: the clock moves into the window if need be. */
  lemma UncheckedSettles(c: Config, s: State, w: nat, k: Key)
    requires Sane(c) && Settleable(c, k) && !HasKey(s.table, k) && !HasPid(s.table, c.region(k).packetId)
    requires Playing(s, w, k) && s.workers[w].phase.Received?
    requires s.now <= c.region(k).createdAt + c.freshnessWindow
    ensures Settling(c, s, k)
  {
    var early := c.region(k).createdAt - c.clockSkew;
    var wait: nat := if s.now < early then early - s.now else 0;
    var s1 := Apply(c, s, Tick(wait));
    var s2 := Apply(c, s1, Check(w));
    assert s2.workers[w].phase.Checked?;
    CheckedSettles(c, s2, w, k);
    SettlingBack(c, s1, Check(w), k);
    SettlingBack(c, s, Tick(wait), k);
  }

  lemma CopySettles(c: Config, s: State, id: nat, k: Key)
    requires Sane(c) && Settleable(c, k) && !HasKey(s.table, k) && !HasPid(s.table, c.region(k).packetId)
    requires Outstanding(s, id, k) && s.copies[id].place.Ready?
    requires s.now <= c.region(k).createdAt + c.freshnessWindow
    ensures Settling(c, s, k)
  {
    var w := FreshName(s.workers.Keys);
    assert w !in s.workers;
    UncheckedSettles(c, Apply(c, s, Deliver(w, id)), w, k);
    SettlingBack(c, s, Deliver(w, id), k);
  }

  lemma HeldCopySettles(c: Config, s: State, id: nat, k: Key)
    requires Sane(c) && HeldOk(s) && Settleable(c, k)
    requires !HasKey(s.table, k) && !HasPid(s.table, c.region(k).packetId)
    requires Outstanding(s, id, k) && s.copies[id].place.Held?
    requires s.now <= c.region(k).createdAt + c.freshnessWindow
    ensures Settling(c, s, k)
  {
    var w := s.copies[id].place.worker;
    assert Attached(s, w);
    CopySettles(c, Apply(c, s, Crash(w)), id, k);
    SettlingBack(c, s, Crash(w), k);
  }

  /**
    Some continuation without a new publication settles the payment exactly when it has a row, or its
    packet id is free and either a worker is past its check and short of the insert, or a copy or an
    unchecked worker is left and the freshness window has not closed.
  */
  lemma SettlesExactly(c: Config, s: State, k: Key)
    requires Sane(c) && Inv(c, s) && Settleable(c, k)
    ensures Settling(c, s, k) <==> Within(c, s, k)
  {
    if !Within(c, s, k) {
      forall steps | Legal(c, s, steps) && Unrepublished(steps, k) ensures !HasKey(Exec(c, s, steps).table, k) {
        OutsideForGood(c, s, steps, k);
      }
    } else if HasKey(s.table, k) {
      SettledIsSettling(c, s, k);
    } else if w :| Playing(s, w, k) && !s.workers[w].phase.Received? {
      PlayerSettles(c, s, w, k);
    } else if id :| Outstanding(s, id, k) {
      if s.copies[id].place.Ready? {
        CopySettles(c, s, id, k);
      } else {
        HeldCopySettles(c, s, id, k);
      }
    } else {
      var w :| Playing(s, w, k) && s.workers[w].phase.Received?;
      UncheckedSettles(c, s, w, k);
    }
  }
}
