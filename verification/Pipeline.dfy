/**
  One delivery through the settlement pipeline, as a function of what is stored.  This is the
  specification the processor classes are proved against; every remote call may fail on the way.
*/
module Pipeline {
  import opened Options
  import opened Domain

  datatype Rejection = Rejection(
    reason: ErrorCode, detail: Detail, key: Option<Key>, packetId: Option<PacketId>)

  /** Redis and Postgres. */
  datatype Store = Store(now: int, redis: Markers, rows: seq<Row>, rejections: seq<Rejection>)

  /** How each remote call of one delivery goes. */
  datatype Faults = Faults(
    setNx: Fault, getRaises: bool, insert: Fault, mark: Fault, release: Fault, rollback: Fault, evidence: Fault)

  const NO_FAULTS := Faults(Works, false, Works, Works, Works, Works, Works)

  datatype ClaimOutcome = Claimed | InFlight | AlreadySettled

  predicate KeyTaken(rows: seq<Row>, k: Key) {
    exists n :: 0 <= n < |rows| && rows[n].key == k
  }

  predicate PidTaken(rows: seq<Row>, p: PacketId) {
    exists n :: 0 <= n < |rows| && rows[n].packetId == p
  }

  predicate Insertable(rows: seq<Row>, row: Row) {
    !KeyTaken(rows, row.key) && !PidTaken(rows, row.packetId) && MeetsChecks(row)
  }

  /** SET NX, then GET if it was lost.  `None` raises. */
  function ClaimKey(c: Config, redis: Markers, now: int, k: Key, f: Faults): (Markers, Option<ClaimOutcome>) {
    if k !in redis then
      (if f.setNx.FailsBefore? then redis else redis[k := Entry(ClaimedMarker, now + c.claimTtl)],
       if f.setNx.Works? then Some(Claimed) else None)
    else if !f.setNx.Works? || f.getRaises then (redis, None)
    else (redis, Some(if redis[k].marker.SettledMarker? then AlreadySettled else InFlight))
  }

  function MarkKey(c: Config, st: Store, k: Key, f: Fault): Store {
    if f.FailsBefore? then st else st.(redis := st.redis[k := Entry(SettledMarker, st.now + c.settledTtl)])
  }

  function ReleaseKey(st: Store, k: Key, f: Fault): Store {
    if f.FailsBefore? then st else st.(redis := st.redis - {k})
  }

  /** Best-effort evidence of a rejection. */
  function Persist(st: Store, o: Outcome, f: Fault): Store {
    if f.FailsBefore? || o.code.None? then st
    else st.(rejections := st.rejections + [Rejection(o.code.value, o.detail, o.key, o.packetId)])
  }

  /** The outer exception handler, holding the claim.  `None` raises out of process(). */
  function Recover(c: Config, st: Store, k: Key, f: Faults): (Store, Option<Outcome>) {
    (ReleaseKey(st, k, f.rollback),
     if f.rollback.Works? then Some(UnexpectedFailure(k, c.region(k).packetId)) else None)
  }

  /** The insert committed or was refused as a duplicate: publish the marker, then report. */
  function Promote(c: Config, st: Store, k: Key, o: Outcome, f: Faults): (Store, Option<Outcome>) {
    var st1 := MarkKey(c, st, k, f.mark);
    if f.mark.Works? then (st1, Some(o)) else Recover(c, st1, k, f)
  }

  function WriteRow(c: Config, st: Store, k: Key, hopCount: nat, f: Faults): (Store, Option<Outcome>)
    requires c.region(k).content.Opens?
  {
    var row := RowFor(c, k, hopCount);
    var ok := Insertable(st.rows, row);
    var st1 := if ok && !f.insert.FailsBefore? then st.(rows := st.rows + [row]) else st;
    if !f.insert.Works? then Recover(c, st1, k, f)
    else if ok then Promote(c, st1, k, SettledAs(k, row.packetId, |st.rows|), f)
    else Promote(c, st1, k, Duplicate(DetailAlreadySettled, k, row.packetId), f)
  }

  /** Everything after a won claim. */
  function Settle(c: Config, st: Store, k: Key, hopCount: nat, f: Faults): (Store, Option<Outcome>) {
    match ContentRefusal(c, k)
    case None => WriteRow(c, st, k, hopCount, f)
    case Some(o) =>
      var st1 := ReleaseKey(Persist(st, o, f.evidence), k, f.release);
      if f.release.Works? then (st1, Some(o)) else Recover(c, st1, k, f)
  }

  /** One message through the pipeline; `None` means that process() raised. */
  function Process(c: Config, st: Store, m: Reading, f: Faults): (Store, Option<Outcome>) {
    match Screen(c, m, st.now)
    case Some(o) => (Persist(st, o, f.evidence), Some(o))
    case None =>
      var k := m.key;
      var (redis, claim) := ClaimKey(c, st.redis, st.now, k, f);
      var st1 := st.(redis := redis);
      match claim
      case None => (st1, None)
      case Some(Claimed) => Settle(c, st1, k, m.hopCount, f)
      case Some(AlreadySettled) => (st1, Some(Duplicate(DetailAlreadySettled, k, c.region(k).packetId)))
      case Some(InFlight) => (st1, Some(Duplicate(DetailBeingSettled, k, c.region(k).packetId)))
  }

  /** What the consumer tells the broker: put the message back, or drop it. */
  function Requeue(r: Option<Outcome>): bool {
    r.None? || r.value.retryable
  }

  // --- Counters ---

  datatype Counters = Counters(
    settled: nat, duplicates: nat, invalidSignature: nat, malformed: nat, decryptionFailed: nat,
    expired: nat, notYetValid: nat, internalErrors: nat, byCode: map<ErrorCode, nat>)

  const ZERO_COUNTERS := Counters(0, 0, 0, 0, 0, 0, 0, 0, map[])

  function CountOf(byCode: map<ErrorCode, nat>, code: ErrorCode): nat {
    if code in byCode then byCode[code] else 0
  }

  function Record(v: Counters, o: Outcome): Counters {
    if o.status.Settled? then v.(settled := v.settled + 1)
    else if o.code.None? then v
    else
      var code := o.code.value;
      var v1 := v.(byCode := v.byCode[code := CountOf(v.byCode, code) + 1]);
      match code
      case DuplicatePacket => v1.(duplicates := v.duplicates + 1)
      case InvalidSignature => v1.(invalidSignature := v.invalidSignature + 1)
      case MalformedPayload => v1.(malformed := v.malformed + 1)
      case DecryptionFailed => v1.(decryptionFailed := v.decryptionFailed + 1)
      case PacketExpired => v1.(expired := v.expired + 1)
      case PacketNotYetValid => v1.(notYetValid := v.notYetValid + 1)
      case InternalError => v1.(internalErrors := v.internalErrors + 1)
  }

  /** The sum of the values of a dictionary. */
  ghost function SumValues(m: map<ErrorCode, nat>): nat
    decreases |m|
  {
    if m == map[] then 0 else
    var k :| k in m;
    m[k] + SumValues(m - {k})
  }

  function SevenCounts(m: map<ErrorCode, nat>): nat {
    CountOf(m, MalformedPayload) + CountOf(m, InvalidSignature) + CountOf(m, DuplicatePacket)
      + CountOf(m, DecryptionFailed) + CountOf(m, PacketExpired) + CountOf(m, PacketNotYetValid)
      + CountOf(m, InternalError)
  }

  lemma {:induction false} SumIsSevenCounts(m: map<ErrorCode, nat>)
    ensures SumValues(m) == SevenCounts(m)
    decreases |m|
  {
    if m != map[] {
      var k :| k in m && SumValues(m) == m[k] + SumValues(m - {k});
      SumIsSevenCounts(m - {k});
      assert forall l :: l != k ==> CountOf(m - {k}, l) == CountOf(m, l);
    }
  }

  function SevenCounters(v: Counters): nat {
    v.duplicates + v.invalidSignature + v.malformed + v.decryptionFailed + v.expired + v.notYetValid
      + v.internalErrors
  }

  function RecordAll(v: Counters, os: seq<Outcome>): Counters {
    if os == [] then v else Record(RecordAll(v, os[..|os| - 1]), os[|os| - 1])
  }

  predicate Countable(o: Outcome) {
    o.status.Settled? || o.code.Some?
  }

  /** What process() returns always counts for something. */
  lemma ProcessIsCountable(c: Config, st: Store, m: Reading, f: Faults)
    ensures Process(c, st, m, f).1.Some? ==> Countable(Process(c, st, m, f).1.value)
  {
  }

  lemma CountOfUpdate(m: map<ErrorCode, nat>, code: ErrorCode, n: nat)
    ensures SevenCounts(m[code := n]) == SevenCounts(m) - CountOf(m, code) + n
  {
    var m' := m[code := n];
    assert CountOf(m', code) == n;
    assert forall l :: l != code ==> CountOf(m', l) == CountOf(m, l);
    match code
    case _ =>
  }

  lemma RecordCountsOne(v: Counters, o: Outcome)
    requires Countable(o)
    ensures var u := Record(v, o);
      && u.settled + SevenCounts(u.byCode) == v.settled + SevenCounts(v.byCode) + 1
      && SevenCounters(u) - SevenCounts(u.byCode) == SevenCounters(v) - SevenCounts(v.byCode)
  {
    if !o.status.Settled? {
      CountOfUpdate(v.byCode, o.code.value, CountOf(v.byCode, o.code.value) + 1);
    }
  }

  /**
    After any sequence of outcomes: settled plus rejected is their number, and the seven rejection
    counters add up to the sum over the per-code dictionary.
  */
  lemma {:induction false} MetricsConservation(os: seq<Outcome>)
    requires forall i :: 0 <= i < |os| ==> Countable(os[i])
    ensures var v := RecordAll(ZERO_COUNTERS, os);
      && v.settled + SumValues(v.byCode) == |os|
      && SumValues(v.byCode) == SevenCounters(v)
  {
    var v := RecordAll(ZERO_COUNTERS, os);
    SumIsSevenCounts(v.byCode);
    if os != [] {
      var u := RecordAll(ZERO_COUNTERS, os[..|os| - 1]);
      MetricsConservation(os[..|os| - 1]);
      SumIsSevenCounts(u.byCode);
      RecordCountsOne(u, os[|os| - 1]);
    }
  }

  // --- Which counter counts what ---

  /** The outcomes rejected with this code, by their place. */
  function RejectedWith(os: seq<Outcome>, code: ErrorCode): set<nat> {
    set i: nat | i < |os| && !os[i].status.Settled? && os[i].code == Some(code)
  }

  function SettledAt(os: seq<Outcome>): set<nat> {
    set i: nat | i < |os| && os[i].status.Settled?
  }

  predicate IsRejectedWith(o: Outcome, code: ErrorCode) {
    !o.status.Settled? && o.code == Some(code)
  }

  lemma {:induction false} OneMoreRejection(os: seq<Outcome>, o: Outcome, code: ErrorCode)
    ensures |RejectedWith(os + [o], code)| == |RejectedWith(os, code)| + if IsRejectedWith(o, code) then 1 else 0
  {
    var more := os + [o];
    if IsRejectedWith(o, code) {
      assert RejectedWith(more, code) == RejectedWith(os, code) + {|os|};
    } else {
      assert RejectedWith(more, code) == RejectedWith(os, code);
    }
  }

  lemma {:induction false} OneMoreSettlement(os: seq<Outcome>, o: Outcome)
    ensures |SettledAt(os + [o])| == |SettledAt(os)| + if o.status.Settled? then 1 else 0
  {
    var more := os + [o];
    if o.status.Settled? {
      assert SettledAt(more) == SettledAt(os) + {|os|};
    } else {
      assert SettledAt(more) == SettledAt(os);
    }
  }

  /** A counter and the dictionary agree with the outcomes on one code. */
  predicate Counts(counter: nat, byCode: map<ErrorCode, nat>, os: seq<Outcome>, code: ErrorCode) {
    counter == CountOf(byCode, code) == |RejectedWith(os, code)|
  }

  lemma {:induction false} CountsStep(v: Counters, os: seq<Outcome>, o: Outcome, code: ErrorCode, counter: nat)
    requires Counts(counter, v.byCode, os, code)
    ensures Counts(counter + if IsRejectedWith(o, code) then 1 else 0, Record(v, o).byCode, os + [o], code)
  {
    OneMoreRejection(os, o, code);
    hide RejectedWith;
  }

  lemma NothingCounted()
    ensures SettledAt([]) == {} && forall code :: Counts(0, map[], [], code)
  {
    assert forall code :: RejectedWith([], code) == {};
  }

  /**
    After any sequence of outcomes `settled` is the number of settlements, and every rejection counter,
    and the dictionary under the same code, is the number of rejections with that code.
  */
  lemma {:induction false} CountersCountOutcomes(os: seq<Outcome>)
    ensures var v := RecordAll(ZERO_COUNTERS, os);
      && v.settled == |SettledAt(os)|
      && Counts(v.duplicates, v.byCode, os, DuplicatePacket)
      && Counts(v.invalidSignature, v.byCode, os, InvalidSignature)
      && Counts(v.malformed, v.byCode, os, MalformedPayload)
      && Counts(v.decryptionFailed, v.byCode, os, DecryptionFailed)
      && Counts(v.expired, v.byCode, os, PacketExpired)
      && Counts(v.notYetValid, v.byCode, os, PacketNotYetValid)
      && Counts(v.internalErrors, v.byCode, os, InternalError)
  {
    if os == [] {
      NothingCounted();
      hide Counts, SettledAt;
    } else {
      var init, last := os[..|os| - 1], os[|os| - 1];
      var v := RecordAll(ZERO_COUNTERS, init);
      assert os == init + [last];
      CountersCountOutcomes(init);
      OneMoreSettlement(init, last);
      CountsStep(v, init, last, DuplicatePacket, v.duplicates);
      CountsStep(v, init, last, InvalidSignature, v.invalidSignature);
      CountsStep(v, init, last, MalformedPayload, v.malformed);
      CountsStep(v, init, last, DecryptionFailed, v.decryptionFailed);
      CountsStep(v, init, last, PacketExpired, v.expired);
      CountsStep(v, init, last, PacketNotYetValid, v.notYetValid);
      CountsStep(v, init, last, InternalError, v.internalErrors);
      hide Counts, RejectedWith, SettledAt, CountOf;
    }
  }
}
