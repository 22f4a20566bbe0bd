/**
  What a complete run ends with: the settlements table is determined by the set of packets alone,
  not by arrival order, duplication, scheduling or failures along the way.
*/
module CompleteRuns {
  import opened Options
  import opened Domain
  import opened Protocol
  import opened Safety
  import opened NoLoss

  predicate Payable(c: Config, m: Reading) {
    m.Parsed? && m.signatureOk && Settleable(c, m.key)
  }

  /** The distinct genuine payments among the published copies. */
  function Payments(c: Config, s: State): set<Key> {
    set id | id in s.copies && Payable(c, s.copies[id].msg) :: s.copies[id].msg.key
  }

  /** Every copy is acknowledged, no payment is lost, and none was refused for its age before it settled. */
  ghost predicate Complete(c: Config, s: State) {
    && (forall id :: id in s.copies ==> s.copies[id].place.Acked?)
    && (forall k :: k in Payments(c, s) ==>
          Safe(c, s, k) && (Refused(s, k) ==> HasPid(s.table, c.region(k).packetId)))
  }

  /** The packet id determines the signed region among these packets. */
  predicate IdsDistinguish(c: Config, keys: set<Key>) {
    forall k, l :: k in keys && l in keys && c.region(k).packetId == c.region(l).packetId ==> k == l
  }

  /** A row up to the unsigned hop count. */
  function Core(row: Row): Row {
    row.(hopCount := 0)
  }

  function CoreRows(table: seq<Commit>): set<Row> {
    set n | 0 <= n < |table| :: Core(table[n].row)
  }

  function CoreFor(c: Config, k: Key): Option<Row> {
    if c.region(k).content.Opens? then Some(RowFor(c, k, 0)) else None
  }

  function Keys(table: seq<Commit>): set<Key> {
    set n | 0 <= n < |table| :: table[n].row.key
  }

  function Total(table: seq<Commit>): int {
    if table == [] then 0 else Total(table[..|table| - 1]) + table[|table| - 1].row.amountMinor
  }

  function Amount(c: Config, k: Key): int {
    match c.region(k).content
    case Opens(i) => i.amountMinor
    case _ => 0
  }

  /** The sum of the amounts of a set of packets. */
  ghost function TotalOf(c: Config, keys: set<Key>): int {
    if keys == {} then 0 else
    var k :| k in keys;
    Amount(c, k) + TotalOf(c, keys - {k})
  }

  lemma {:induction false} TotalOfPick(c: Config, keys: set<Key>, k: Key)
    requires k in keys
    ensures TotalOf(c, keys) == Amount(c, k) + TotalOf(c, keys - {k})
    decreases |keys|
  {
    var l :| l in keys && TotalOf(c, keys) == Amount(c, l) + TotalOf(c, keys - {l});
    if k != l {
      TotalOfPick(c, keys - {l}, k);
      TotalOfPick(c, keys - {k}, l);
      assert keys - {l} - {k} == keys - {k} - {l};
    }
  }

  lemma KeysOfLonger(init: seq<Commit>, last: Commit)
    ensures Keys(init + [last]) == Keys(init) + {last.row.key}
  {
    var table := init + [last];
    forall n | 0 <= n < |table| ensures table[n].row.key in Keys(init) + {last.row.key} {
      assert n < |init| ==> init[n].row.key == table[n].row.key;
    }
    forall n | 0 <= n < |init| ensures init[n].row.key in Keys(table) {
      assert table[n].row.key == init[n].row.key;
    }
    assert table[|init|].row.key in Keys(table);
  }

  lemma LastKeyIsNew(init: seq<Commit>, last: Commit)
    requires forall n :: 0 <= n < |init| ==> init[n].row.key != last.row.key
    ensures last.row.key in Keys(init + [last]) && Keys(init + [last]) - {last.row.key} == Keys(init)
    ensures |Keys(init + [last])| == |Keys(init)| + 1
  {
    KeysOfLonger(init, last);
    assert last.row.key !in Keys(init);
  }

  /** The table adds up to its keys, one row each. */
  lemma {:induction false} TableTotal(c: Config, table: seq<Commit>)
    requires forall n :: 0 <= n < |table| ==> table[n].row.amountMinor == Amount(c, table[n].row.key)
    requires forall i, j :: 0 <= i < j < |table| ==> table[i].row.key != table[j].row.key
    ensures Total(table) == TotalOf(c, Keys(table)) && |table| == |Keys(table)|
  {
    if table == [] {
      assert Keys(table) == {};
    } else {
      var init, last := table[..|table| - 1], table[|table| - 1];
      assert table == init + [last];
      TableTotal(c, init);
      LastKeyIsNew(init, last);
      TotalOfPick(c, Keys(table), last.row.key);
    }
  }

  /** Every row, in every reachable state, belongs to a published genuine payment. */
  lemma RowsArePayments(c: Config, s: State)
    requires Inv(c, s)
    ensures Keys(s.table) <= Payments(c, s)
    ensures forall n :: 0 <= n < |s.table| ==>
      && CoreFor(c, s.table[n].row.key) == Some(Core(s.table[n].row))
      && s.table[n].row.amountMinor == Amount(c, s.table[n].row.key)
  {
    forall n | 0 <= n < |s.table|
      ensures s.table[n].row.key in Payments(c, s)
      ensures CoreFor(c, s.table[n].row.key) == Some(Core(s.table[n].row))
      ensures s.table[n].row.amountMinor == Amount(c, s.table[n].row.key)
    {
      assert Justified(c, s.copies, s.now, s.table[n]);
      assert Payable(c, s.copies[s.table[n].origin].msg);
    }
  }

  /** A complete run has settled every payment. */
  lemma PaymentsAreRows(c: Config, s: State)
    requires Inv(c, s) && Complete(c, s) && IdsDistinguish(c, Payments(c, s))
    ensures Payments(c, s) <= Keys(s.table)
  {
    RowsArePayments(c, s);
    forall k | k in Payments(c, s) ensures k in Keys(s.table) {
      assert Safe(c, s, k);
      assert forall id :: !Viable(s, k, id);
      var n :| 0 <= n < |s.table| && s.table[n].row.packetId == c.region(k).packetId;
      assert Justified(c, s.copies, s.now, s.table[n]);
      assert s.table[n].row.key in Keys(s.table);
    }
  }

  /** The rows, up to hop counts, that a set of packets stands for. */
  function CoresFor(c: Config, keys: set<Key>): set<Row> {
    set k | k in keys && CoreFor(c, k).Some? :: CoreFor(c, k).value
  }

  lemma CoresMatch(c: Config, table: seq<Commit>)
    requires forall n :: 0 <= n < |table| ==> CoreFor(c, table[n].row.key) == Some(Core(table[n].row))
    ensures CoreRows(table) == CoresFor(c, Keys(table))
  {
    forall k | k in Keys(table) && CoreFor(c, k).Some? ensures CoreFor(c, k).value in CoreRows(table) {
      var n :| 0 <= n < |table| && table[n].row.key == k;
      assert Core(table[n].row) in CoreRows(table);
    }
    forall n | 0 <= n < |table| ensures Core(table[n].row) in CoresFor(c, Keys(table)) {
      assert table[n].row.key in Keys(table);
    }
  }

  /** The end of a complete run: one row per payment, nothing else, and the right total. */
  lemma CompleteRunSettlesAll(c: Config, s: State)
    requires Sane(c) && Reachable(c, s) && Complete(c, s) && IdsDistinguish(c, Payments(c, s))
    ensures Keys(s.table) == Payments(c, s) && |s.table| == |Payments(c, s)|
    ensures CoreRows(s.table) == CoresFor(c, Payments(c, s))
    ensures Total(s.table) == TotalOf(c, Payments(c, s))
  {
    ReachableInv(c, s);
    RowsArePayments(c, s);
    PaymentsAreRows(c, s);
    TableTotal(c, s.table);
    CoresMatch(c, s.table);
  }

  predicate Published(s: State, k: Key) {
    exists id :: id in s.copies && Genuine(s.copies[id].msg, k)
  }

  /** From its first publication on, a payment stays safe in a run that tests no orphaned claim of it. */
  lemma {:induction false} PublishedStaysSafe(c: Config, s: State, steps: seq<Step>, k: Key)
    requires Sane(c) && Inv(c, s) && Legal(c, s, steps) && Settleable(c, k) && !TestsOrphan(c, s, steps, k)
    requires Published(s, k) ==> Safe(c, s, k)
    ensures Published(Exec(c, s, steps), k) ==> Safe(c, Exec(c, s, steps), k)
    decreases |steps|
  {
    if steps != [] {
      var s' := Apply(c, s, steps[0]);
      KeepsInv(c, s, steps[0]);
      if Safe(c, s, k) {
        if RiskyTest(c, s, k, steps[0]) {
          RiskyTestsAreOrphanTests(c, s, k, steps[0]);
        }
        RiskExactly(c, s, steps[0], k);
      } else if Published(s', k) {
        var id :| id in s'.copies && Genuine(s'.copies[id].msg, k);
        StepShape(c, s, steps[0]);
        assert id !in s.copies;
        PublishingIsSafe(c, s, steps[0].id, steps[0].msg, k);
      }
      PublishedStaysSafe(c, s', steps[1..], k);
    }
  }

  /**
    In a run from the start in which none of the four faults hits payment `k` before its packet id has a
    row, it is safe from its publication on, and once no copy is outstanding the packet id has a row or the
    packet was refused for its age.
  */
  lemma SteadyRunKeepsPayment(c: Config, t0: int, steps: seq<Step>, k: Key)
    requires Sane(c) && Legal(c, Start(t0), steps) && Settleable(c, k) && Steady(c, Start(t0), steps, k)
    requires Published(Exec(c, Start(t0), steps), k)
    ensures var s := Exec(c, Start(t0), steps);
      && Safe(c, s, k)
      && ((forall id :: !Outstanding(s, id, k)) ==> HasPid(s.table, c.region(k).packetId) || Refused(s, k))
  {
    var s := Exec(c, Start(t0), steps);
    SteadyTestsNoOrphan(c, Start(t0), steps, k);
    PublishedStaysSafe(c, Start(t0), steps, k);
    assert forall id :: Viable(s, k, id) ==> Outstanding(s, id, k);
  }

  /** All copies acknowledged, no orphaned claim tested, no payment refused for its age unless settled. */
  ghost predicate CleanRun(c: Config, t0: int, steps: seq<Step>) {
    && Legal(c, Start(t0), steps)
    && var s := Exec(c, Start(t0), steps);
       && (forall id :: id in s.copies ==> s.copies[id].place.Acked?)
       && (forall k :: k in Payments(c, s) ==>
             && !TestsOrphan(c, Start(t0), steps, k)
             && (Refused(s, k) ==> HasPid(s.table, c.region(k).packetId)))
  }

  lemma CleanRunsComplete(c: Config, t0: int, steps: seq<Step>)
    requires Sane(c) && CleanRun(c, t0, steps)
    ensures Reachable(c, Exec(c, Start(t0), steps)) && Complete(c, Exec(c, Start(t0), steps))
  {
    var s := Exec(c, Start(t0), steps);
    forall k | k in Payments(c, s) ensures Safe(c, s, k) {
      var id :| id in s.copies && Payable(c, s.copies[id].msg) && s.copies[id].msg.key == k;
      assert Genuine(s.copies[id].msg, k);
      PublishedStaysSafe(c, Start(t0), steps, k);
    }
  }

  /** Runs spared those faults that end with every copy acknowledged and nothing too old to settle are clean. */
  lemma SteadyRunsAreClean(c: Config, t0: int, steps: seq<Step>)
    requires Legal(c, Start(t0), steps)
    requires forall id :: id in Exec(c, Start(t0), steps).copies ==> Exec(c, Start(t0), steps).copies[id].place.Acked?
    requires forall k :: k in Payments(c, Exec(c, Start(t0), steps)) ==>
      && Steady(c, Start(t0), steps, k)
      && (Refused(Exec(c, Start(t0), steps), k) ==> HasPid(Exec(c, Start(t0), steps).table, c.region(k).packetId))
    ensures CleanRun(c, t0, steps)
  {
    forall k | k in Payments(c, Exec(c, Start(t0), steps)) ensures !TestsOrphan(c, Start(t0), steps, k) {
      SteadyTestsNoOrphan(c, Start(t0), steps, k);
    }
  }

  /**
    Two clean runs over the same payments, in whatever order, multiplicity and interleaving, settle the
    same rows and the same total: one row for each payment.
  */
  lemma OrderIndependence(c: Config, t0: int, steps: seq<Step>, t1: int, others: seq<Step>)
    requires Sane(c) && CleanRun(c, t0, steps) && CleanRun(c, t1, others)
    requires Payments(c, Exec(c, Start(t0), steps)) == Payments(c, Exec(c, Start(t1), others))
    requires IdsDistinguish(c, Payments(c, Exec(c, Start(t0), steps)))
    ensures var s, t := Exec(c, Start(t0), steps), Exec(c, Start(t1), others);
      && CoreRows(s.table) == CoreRows(t.table) == CoresFor(c, Payments(c, s))
      && |s.table| == |t.table| == |Payments(c, s)|
      && Total(s.table) == Total(t.table) == TotalOf(c, Payments(c, s))
  {
    CleanRunsComplete(c, t0, steps);
    CleanRunsComplete(c, t1, others);
    CompleteRunSettlesAll(c, Exec(c, Start(t0), steps));
    CompleteRunSettlesAll(c, Exec(c, Start(t1), others));
  }

  // --- Settled counts across replicas ---

  /** The sum over all replicas of the `settled` counter. */
  function SettledReports(log: seq<Report>): nat {
    if log == [] then 0
    else SettledReports(log[..|log| - 1]) + if log[|log| - 1].outcome.status.Settled? then 1 else 0
  }

  function ReportedRows(log: seq<Report>): set<nat> {
    set i | 0 <= i < |log| && Ticket(log[i].outcome).Some? :: Ticket(log[i].outcome).value
  }

  lemma {:induction false} ReportsAreTickets(log: seq<Report>)
    requires forall i :: 0 <= i < |log| ==>
      (log[i].outcome.status.Settled? <==> Ticket(log[i].outcome).Some?)
    requires forall i, j :: 0 <= i < j < |log| && Ticket(log[i].outcome).Some? ==>
      Ticket(log[i].outcome) != Ticket(log[j].outcome)
    ensures SettledReports(log) == |ReportedRows(log)|
  {
    if log == [] {
      assert ReportedRows(log) == {};
    } else {
      var init, last := log[..|log| - 1], log[|log| - 1];
      assert log == init + [last];
      assert forall i :: 0 <= i < |init| ==> init[i] == log[i];
      ReportsAreTickets(init);
      OneMoreReport(init, last);
    }
  }

  lemma {:induction false} OneMoreReport(init: seq<Report>, last: Report)
    requires forall i :: 0 <= i < |init| && Ticket(init[i].outcome).Some? ==>
      Ticket(init[i].outcome) != Ticket(last.outcome)
    ensures |ReportedRows(init + [last])| == |ReportedRows(init)| + if Ticket(last.outcome).Some? then 1 else 0
  {
    var log := init + [last];
    hide Ticket;
    forall i | 0 <= i < |init| && Ticket(init[i].outcome).Some?
      ensures Ticket(init[i].outcome).value in ReportedRows(log)
    {
      assert log[i] == init[i];
    }
    if Ticket(last.outcome).Some? {
      var row := Ticket(last.outcome).value;
      assert log[|init|] == last && row in ReportedRows(log) && row !in ReportedRows(init);
      assert ReportedRows(log) == ReportedRows(init) + {row};
    } else {
      assert ReportedRows(log) == ReportedRows(init);
    }
  }

  function Below(n: nat): (r: set<nat>)
    ensures |r| == n && forall i: nat :: i in r <==> i < n
  {
    if n == 0 then {} else Below(n - 1) + {n - 1}
  }

  lemma LogIsTicketed(c: Config, s: State)
    requires Inv(c, s)
    ensures SettledReports(s.log) == |ReportedRows(s.log)| && ReportedRows(s.log) <= Below(|s.table|)
  {
    forall i | 0 <= i < |s.log|
      ensures s.log[i].outcome.status.Settled? <==> Ticket(s.log[i].outcome).Some?
      ensures Ticket(s.log[i].outcome).Some? ==> Ticket(s.log[i].outcome).value < |s.table|
    {
      assert Truthful(c, s.table, s.log[i].msg, s.log[i].checkedAt, s.log[i].outcome);
    }
    ReportsAreTickets(s.log);
  }

  lemma SubsetSize(a: set<nat>, b: set<nat>)
    requires a <= b
    ensures |a| <= |b| && (|a| == |b| ==> a == b)
  {
    assert b == a + (b - a);
  }

  /** The replicas together never count more settlements than there are rows. */
  lemma SettledCountBound(c: Config, s: State)
    requires Sane(c) && Reachable(c, s)
    ensures SettledReports(s.log) <= |s.table|
  {
    ReachableInv(c, s);
    LogIsTicketed(c, s);
    SubsetSize(ReportedRows(s.log), Below(|s.table|));
  }

  /** Nothing goes wrong between a commit and the return of process(). */
  predicate Smooth(s: State, step: Step) {
    && (step.Insert? ==> !step.fault.FailsAfter?)
    && (step.Mark? ==> step.fault.Works?)
    && (step.Crash? ==> Pending(s, step.w).None?)
  }

  ghost predicate SmoothRun(c: Config, s: State, steps: seq<Step>)
    requires Legal(c, s, steps)
    decreases |steps|
  {
    steps != [] ==> Smooth(s, steps[0]) && SmoothRun(c, Apply(c, s, steps[0]), steps[1..])
  }

  /** Every row is reported or about to be. */
  ghost predicate Accounted(s: State) {
    forall n :: 0 <= n < |s.table| ==> n in ReportedRows(s.log) || exists w :: Pending(s, w) == Some(n)
  }

  lemma ReportedStays(c: Config, s: State, step: Step, n: nat)
    requires Enabled(c, s, step) && n in ReportedRows(s.log)
    ensures n in ReportedRows(Apply(c, s, step).log)
  {
    StepShape(c, s, step);
    var i :| 0 <= i < |s.log| && Ticket(s.log[i].outcome) == Some(n);
    assert Ticket(Apply(c, s, step).log[i].outcome) == Some(n);
  }

  lemma PendingIsReported(c: Config, s: State, step: Step, w: nat, n: nat)
    requires Enabled(c, s, step) && Smooth(s, step) && Pending(s, w) == Some(n)
    ensures Pending(Apply(c, s, step), w) == Some(n) || n in ReportedRows(Apply(c, s, step).log)
  {
    if step.Mark? && step.w == w {
      assert Ticket(Apply(c, s, step).log[|s.log|].outcome) == Some(n);
    }
  }

  lemma KeepsAccounted(c: Config, s: State, step: Step)
    requires Enabled(c, s, step) && Smooth(s, step) && Accounted(s)
    ensures Accounted(Apply(c, s, step))
  {
    var s' := Apply(c, s, step);
    StepShape(c, s, step);
    forall n | 0 <= n < |s'.table|
      ensures n in ReportedRows(s'.log) || exists w :: Pending(s', w) == Some(n)
    {
      if n >= |s.table| {
        assert Pending(s', step.w) == Some(n);
      } else if n in ReportedRows(s.log) {
        ReportedStays(c, s, step, n);
      } else {
        var w :| Pending(s, w) == Some(n);
        PendingIsReported(c, s, step, w, n);
      }
    }
  }

  lemma {:induction false} SmoothRunAccounts(c: Config, s: State, steps: seq<Step>)
    requires Sane(c) && Inv(c, s) && Legal(c, s, steps) && SmoothRun(c, s, steps) && Accounted(s)
    ensures Inv(c, Exec(c, s, steps)) && Accounted(Exec(c, s, steps))
    decreases |steps|
  {
    if steps != [] {
      KeepsInv(c, s, steps[0]);
      KeepsAccounted(c, s, steps[0]);
      SmoothRunAccounts(c, Apply(c, s, steps[0]), steps[1..]);
    }
  }

  /** With nothing failing between commit and return, the counts meet the rows once all workers are through. */
  lemma SettledCountExact(c: Config, t0: int, steps: seq<Step>)
    requires Sane(c) && Legal(c, Start(t0), steps) && SmoothRun(c, Start(t0), steps)
    requires forall w :: Pending(Exec(c, Start(t0), steps), w).None?
    ensures SettledReports(Exec(c, Start(t0), steps).log) == |Exec(c, Start(t0), steps).table|
  {
    var s := Exec(c, Start(t0), steps);
    SmoothRunAccounts(c, Start(t0), steps);
    LogIsTicketed(c, s);
    assert ReportedRows(s.log) == Below(|s.table|);
  }
}
