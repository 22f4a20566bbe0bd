/**
  What every reachable state keeps, whatever expires, is flushed, crashes, is redelivered or raises:
  at most one row per key and per packet id, rows that never change and that came from a checked
  message, and outcomes that tell the truth.
*/
module Safety {
  import opened Options
  import opened Domain
  import opened Protocol

  /** The packet passed steps 1 to 2b at time `at`. */
  predicate Passed(c: Config, m: Reading, at: int) {
    m.Parsed? && m.signatureOk && c.region(m.key).aadMatches && Fresh(c, m.key, at)
  }

  /** What an outcome claims about the packet and about the ledger is so. */
  predicate Truthful(c: Config, table: seq<Commit>, m: Reading, at: int, o: Outcome) {
    if m.Malformed? then o == SCHEMA_REFUSAL
    else
      var r := c.region(m.key);
      && o.key == Some(m.key) && o.packetId == Some(r.packetId)
      && (o.retryable <==> o.code == Some(InternalError))
      && (o.detail == DetailAlreadySettled ==> r.content.Opens? && HasPid(table, r.packetId))
      && match o.code
         case None =>
           && o.status.Settled? && Passed(c, m, at) && r.content.Opens?
           && o.settlementId.Some? && o.settlementId.value < |table|
           && table[o.settlementId.value].row.key == m.key
         case Some(code) =>
           && o.status.Rejected? && o.settlementId.None?
           && match code
              case InvalidSignature => !m.signatureOk
              case PacketExpired => m.signatureOk && at - r.createdAt > c.freshnessWindow
              case PacketNotYetValid => m.signatureOk && r.createdAt - at > c.clockSkew
              case MalformedPayload =>
                && m.signatureOk && Fresh(c, m.key, at)
                && (r.aadMatches ==> r.content.Unusable? && o.detail == DetailFlaw(r.content.flaw))
              case DecryptionFailed => Passed(c, m, at) && r.content.Undecryptable?
              case DuplicatePacket =>
                && Passed(c, m, at)
                && (o.detail == DetailBeingSettled || o.detail == DetailAlreadySettled)
              case InternalError => Passed(c, m, at)
  }

  // --- The invariant, clause by clause ---

  predicate Clocked(s: State) {
    forall w :: w in s.workers ==> s.workers[w].checkedAt <= s.now
  }

  predicate PhaseOk(c: Config, table: seq<Commit>, me: Worker) {
    match me.phase
    case Received => true
    case Checked | LostRace | Holding | Failing | Raised => Passed(c, me.msg, me.checkedAt)
    case Rejecting(o) =>
      Passed(c, me.msg, me.checkedAt) && ContentRefusal(c, me.msg.key) == Some(o)
    case Writing => Passed(c, me.msg, me.checkedAt) && c.region(me.msg.key).content.Opens?
    case Marking(o) =>
      && Passed(c, me.msg, me.checkedAt) && c.region(me.msg.key).content.Opens?
      && HasPid(table, c.region(me.msg.key).packetId)
      && Truthful(c, table, me.msg, me.checkedAt, o) && !o.retryable
    case Finished(o) => Truthful(c, table, me.msg, me.checkedAt, o)
  }

  predicate WorkersOk(c: Config, s: State) {
    forall w :: w in s.workers ==>
      var me := s.workers[w];
      && me.copy in s.copies && s.copies[me.copy].msg == me.msg
      && PhaseOk(c, s.table, me)
  }

  predicate HeldOk(s: State) {
    forall id :: id in s.copies && s.copies[id].place.Held? ==>
      && s.copies[id].place.worker in s.workers
      && s.workers[s.copies[id].place.worker].copy == id
  }

  /** The row is exactly what the origin message, checked at that time, asks for. */
  predicate Justified(c: Config, copies: map<nat, Copy>, now: int, e: Commit) {
    && e.origin in copies
    && e.checkedAt <= now
    && var m := copies[e.origin].msg;
       && Passed(c, m, e.checkedAt)
       && c.region(m.key).content.Opens?
       && e.row == RowFor(c, m.key, m.hopCount)
  }

  predicate RowsOk(c: Config, s: State) {
    forall n :: 0 <= n < |s.table| ==> Justified(c, s.copies, s.now, s.table[n])
  }

  predicate UniqueRows(s: State) {
    forall i, j :: 0 <= i < j < |s.table| ==>
      && s.table[i].row.key != s.table[j].row.key
      && s.table[i].row.packetId != s.table[j].row.packetId
  }

  /** Some published copy with this key verified, was fresh when checked and matched its AAD. */
  ghost predicate Vouched(c: Config, s: State, k: Key) {
    exists id, at ::
      && id in s.copies && at <= s.now && Passed(c, s.copies[id].msg, at)
      && s.copies[id].msg.key == k
  }

  ghost predicate RedisOk(c: Config, s: State) {
    forall k :: k in s.redis ==>
      && s.now < s.redis[k].expiry
      && Vouched(c, s, k)
      && (s.redis[k].marker.SettledMarker? ==>
           c.region(k).content.Opens? && HasPid(s.table, c.region(k).packetId))
  }

  predicate LogOk(c: Config, s: State) {
    forall i :: 0 <= i < |s.log| ==>
      && s.log[i].copy in s.copies && s.copies[s.log[i].copy].msg == s.log[i].msg
      && Truthful(c, s.table, s.log[i].msg, s.log[i].checkedAt, s.log[i].outcome)
  }

  /** The row a worker or a report speaks for as the one who wrote it. */
  function Ticket(o: Outcome): Option<nat> {
    if o.status.Settled? then o.settlementId else None
  }

  /** The row worker `w` has committed and not yet reported. */
  function Pending(s: State, w: nat): Option<nat> {
    if w in s.workers && s.workers[w].phase.Marking? then Ticket(s.workers[w].phase.outcome) else None
  }

  /** No two reports, no two pending workers, and no report and pending worker share a row. */
  ghost predicate TicketsOk(s: State) {
    && (forall i, j :: 0 <= i < j < |s.log| && Ticket(s.log[i].outcome).Some? ==>
          Ticket(s.log[i].outcome) != Ticket(s.log[j].outcome))
    && (forall v, w :: Pending(s, v).Some? && Pending(s, v) == Pending(s, w) ==> v == w)
    && (forall i, w :: 0 <= i < |s.log| && Pending(s, w).Some? ==>
          Ticket(s.log[i].outcome) != Pending(s, w))
  }

  ghost predicate Inv(c: Config, s: State) {
    && Clocked(s) && WorkersOk(c, s) && HeldOk(s) && RowsOk(c, s) && UniqueRows(s)
    && RedisOk(c, s) && LogOk(c, s) && TicketsOk(s)
  }

  // --- Small facts about single pieces ---

  lemma ScreenTruthful(c: Config, table: seq<Commit>, m: Reading, now: int)
    ensures Screen(c, m, now).None? <==> Passed(c, m, now)
    ensures Screen(c, m, now).Some? ==>
      Truthful(c, table, m, now, Screen(c, m, now).value) && !Screen(c, m, now).value.retryable
  {
  }

  /** The answer to every message that does not get as far as the claim. */
  lemma ScreenExactly(c: Config, m: Reading, now: int)
    ensures m.Malformed? ==>
      Screen(c, m, now) == Some(Outcome(Rejected, DetailSchema, Some(MalformedPayload), None, None, None, false))
    ensures m.Parsed? ==>
      var r := c.region(m.key);
      var early, late := r.createdAt - c.clockSkew, r.createdAt + c.freshnessWindow;
      && (Screen(c, m, now).None? <==> m.signatureOk && early <= now <= late && r.aadMatches)
      && (!m.signatureOk ==> Screen(c, m, now) == Some(Outcome(
            Rejected, DetailSignature, Some(InvalidSignature), Some(m.key), Some(r.packetId), None, false)))
      && (m.signatureOk && late < now ==> Screen(c, m, now) == Some(Outcome(
            Rejected, DetailTooOld(now - r.createdAt), Some(PacketExpired), Some(m.key), Some(r.packetId),
            None, false)))
      && (m.signatureOk && now < early && now <= late ==> Screen(c, m, now) == Some(Outcome(
            Rejected, DetailTooFarAhead(r.createdAt - now), Some(PacketNotYetValid), Some(m.key), Some(r.packetId),
            None, false)))
      && (m.signatureOk && early <= now <= late && !r.aadMatches ==> Screen(c, m, now) == Some(Outcome(
            Rejected, DetailAad, Some(MalformedPayload), Some(m.key), Some(r.packetId), None, false)))
  {
  }

  /** The answer to a packet whose envelope does not yield a usable instruction. */
  lemma ContentRefusalExactly(c: Config, k: Key)
    ensures var r := c.region(k);
      && (ContentRefusal(c, k).None? <==> r.content.Opens?)
      && (r.content.Undecryptable? ==> ContentRefusal(c, k) == Some(Outcome(
            Rejected, DetailSealed, Some(DecryptionFailed), Some(k), Some(r.packetId), None, false)))
      && (r.content.Unusable? ==> ContentRefusal(c, k) == Some(Outcome(
            Rejected, DetailFlaw(r.content.flaw), Some(MalformedPayload), Some(k), Some(r.packetId), None, false)))
  {
  }

  /** Truth survives appending to the table. */
  lemma TruthGrows(c: Config, table: seq<Commit>, more: seq<Commit>, m: Reading, at: int, o: Outcome)
    requires table <= more && Truthful(c, table, m, at, o)
    ensures Truthful(c, more, m, at, o)
  {
    PidGrows(table, more);
  }

  lemma PidGrows(table: seq<Commit>, more: seq<Commit>)
    requires table <= more
    ensures forall p :: HasPid(table, p) ==> HasPid(more, p)
  {
    forall p | HasPid(table, p) ensures HasPid(more, p) {
      var n :| 0 <= n < |table| && table[n].row.packetId == p;
      assert more[n].row.packetId == p;
    }
  }

  /** What a step may do to the parts other clauses look at. */
  lemma StepShape(c: Config, s: State, step: Step)
    requires Enabled(c, s, step)
    ensures var s' := Apply(c, s, step);
      && s.table <= s'.table && s.log <= s'.log && s.now <= s'.now
      && (forall id :: id in s.copies ==> id in s'.copies && s'.copies[id].msg == s.copies[id].msg)
  {
  }

  lemma KeepsClocked(c: Config, s: State, step: Step)
    requires Clocked(s) && Enabled(c, s, step)
    ensures Clocked(Apply(c, s, step))
  {
  }

  lemma KeepsHeld(c: Config, s: State, step: Step)
    requires HeldOk(s) && Enabled(c, s, step)
    ensures HeldOk(Apply(c, s, step))
  {
  }

  lemma KeepsUnique(c: Config, s: State, step: Step)
    requires UniqueRows(s) && Enabled(c, s, step)
    ensures UniqueRows(Apply(c, s, step))
  {
  }

  lemma KeepsRows(c: Config, s: State, step: Step)
    requires Clocked(s) && WorkersOk(c, s) && RowsOk(c, s) && Enabled(c, s, step)
    ensures RowsOk(c, Apply(c, s, step))
  {
    StepShape(c, s, step);
  }

  lemma PhaseGrows(c: Config, table: seq<Commit>, more: seq<Commit>, me: Worker)
    requires table <= more && PhaseOk(c, table, me)
    ensures PhaseOk(c, more, me)
  {
    PidGrows(table, more);
    match me.phase
    case Marking(o) => TruthGrows(c, table, more, me.msg, me.checkedAt, o);
    case Finished(o) => TruthGrows(c, table, more, me.msg, me.checkedAt, o);
    case _ =>
  }

  /** An insertion that is refused means that the packet id already has a row. */
  lemma RefusedMeansSettled(c: Config, s: State, k: Key, hopCount: nat)
    requires Sane(c) && RowsOk(c, s) && c.region(k).content.Opens?
    requires !Admissible(s.table, RowFor(c, k, hopCount))
    ensures HasPid(s.table, c.region(k).packetId)
  {
    var row := RowFor(c, k, hopCount);
    assert MeetsChecks(row);
    if HasKey(s.table, k) {
      var n :| 0 <= n < |s.table| && s.table[n].row.key == k;
      assert Justified(c, s.copies, s.now, s.table[n]);
      assert s.table[n].row.packetId == c.region(k).packetId;
    }
  }

  lemma InsertOk(c: Config, s: State, w: nat, f: Fault)
    requires Sane(c) && RowsOk(c, s) && Enabled(c, s, Insert(w, f)) && PhaseOk(c, s.table, s.workers[w])
    ensures PhaseOk(c, Apply(c, s, Insert(w, f)).table, Apply(c, s, Insert(w, f)).workers[w])
  {
    var me := s.workers[w];
    var row := RowFor(c, me.msg.key, me.msg.hopCount);
    if !Admissible(s.table, row) {
      RefusedMeansSettled(c, s, me.msg.key, me.msg.hopCount);
    } else if f.Works? {
      assert Apply(c, s, Insert(w, f)).table[|s.table|].row == row;
    }
  }

  lemma CheckOk(c: Config, s: State, w: nat)
    requires Enabled(c, s, Check(w))
    ensures PhaseOk(c, s.table, Apply(c, s, Check(w)).workers[w])
  {
    ScreenTruthful(c, s.table, s.workers[w].msg, s.now);
  }

  lemma GetOk(c: Config, s: State, w: nat, raises: bool)
    requires RedisOk(c, s) && Enabled(c, s, Get(w, raises)) && PhaseOk(c, s.table, s.workers[w])
    ensures PhaseOk(c, s.table, Apply(c, s, Get(w, raises)).workers[w])
  {
  }

  lemma ClaimOk(c: Config, s: State, step: Step)
    requires step.SetNx? || step.Open?
    requires Enabled(c, s, step) && PhaseOk(c, s.table, s.workers[step.w])
    ensures PhaseOk(c, s.table, Apply(c, s, step).workers[step.w])
  {
  }

  lemma MarkOk(c: Config, s: State, w: nat, f: Fault)
    requires Enabled(c, s, Mark(w, f)) && PhaseOk(c, s.table, s.workers[w])
    ensures PhaseOk(c, s.table, Apply(c, s, Mark(w, f)).workers[w])
  {
  }

  lemma ReleaseOk(c: Config, s: State, w: nat, f: Fault)
    requires Enabled(c, s, Release(w, f)) && PhaseOk(c, s.table, s.workers[w])
    ensures PhaseOk(c, s.table, Apply(c, s, Release(w, f)).workers[w])
  {
  }

  /** A new or detached worker. */
  lemma HandoverOk(c: Config, s: State, step: Step)
    requires Enabled(c, s, step) && (step.Deliver? || step.Disconnect?)
    requires step.Disconnect? ==> PhaseOk(c, s.table, s.workers[step.w])
    ensures PhaseOk(c, s.table, Apply(c, s, step).workers[step.w])
  {
  }

  lemma KeepsActor(c: Config, s: State, step: Step)
    requires Sane(c) && RowsOk(c, s) && RedisOk(c, s) && Enabled(c, s, step)
    requires !step.Publish? && !step.Tick? && !step.Flush? && !step.Crash? && !step.Resolve?
    requires step.w in s.workers ==> PhaseOk(c, s.table, s.workers[step.w])
    ensures step.w in Apply(c, s, step).workers
    ensures PhaseOk(c, Apply(c, s, step).table, Apply(c, s, step).workers[step.w])
  {
    assert step.Deliver? || step.w in s.workers;
    assert step.w in Apply(c, s, step).workers;
    assert !step.Insert? ==> Apply(c, s, step).table == s.table;
    hide Apply, PhaseOk, RedisOk, RowsOk;
    match step
    case Check(w) => CheckOk(c, s, w);
    case SetNx(_, _) => ClaimOk(c, s, step);
    case Get(w, raises) => GetOk(c, s, w, raises);
    case Open(_) => ClaimOk(c, s, step);
    case Insert(w, f) => InsertOk(c, s, w, f);
    case Mark(w, f) => MarkOk(c, s, w, f);
    case Release(w, f) => ReleaseOk(c, s, w, f);
    case Deliver(_, _) => HandoverOk(c, s, step);
    case Disconnect(_) => HandoverOk(c, s, step);
  }

  /** Only the worker a step names changes. */
  lemma OthersStay(c: Config, s: State, step: Step, w: nat)
    requires Enabled(c, s, step) && w in Apply(c, s, step).workers
    requires step.Publish? || step.Tick? || step.Flush? || step.w != w
    ensures w in s.workers && Apply(c, s, step).workers[w] == s.workers[w]
  {
  }

  /** The worker a step names keeps its copy and message; a new one takes them from the queue. */
  lemma ActorKeepsMessage(c: Config, s: State, step: Step)
    requires Enabled(c, s, step) && !step.Publish? && !step.Tick? && !step.Flush?
    requires step.w in Apply(c, s, step).workers
    ensures var me := Apply(c, s, step).workers[step.w];
      if step.Deliver? then me.copy == step.id && me.msg == s.copies[step.id].msg
      else step.w in s.workers && me.copy == s.workers[step.w].copy && me.msg == s.workers[step.w].msg
  {
  }

  lemma CopiesStay(c: Config, s: State, step: Step)
    requires WorkersOk(c, s) && Enabled(c, s, step)
    ensures var s' := Apply(c, s, step);
      forall w :: w in s'.workers ==>
        s'.workers[w].copy in s'.copies && s'.copies[s'.workers[w].copy].msg == s'.workers[w].msg
  {
    var s' := Apply(c, s, step);
    StepShape(c, s, step);
    forall w | w in s'.workers
      ensures s'.workers[w].copy in s'.copies && s'.copies[s'.workers[w].copy].msg == s'.workers[w].msg
    {
      if step.Publish? || step.Tick? || step.Flush? || step.w != w {
        OthersStay(c, s, step, w);
      } else {
        ActorKeepsMessage(c, s, step);
      }
    }
    hide Apply, PhaseOk;
  }

  lemma KeepsWorkers(c: Config, s: State, step: Step)
    requires Sane(c) && Inv(c, s) && Enabled(c, s, step)
    ensures WorkersOk(c, Apply(c, s, step))
  {
    var s' := Apply(c, s, step);
    StepShape(c, s, step);
    CopiesStay(c, s, step);
    forall w | w in s'.workers
      ensures PhaseOk(c, s'.table, s'.workers[w])
    {
      if step.Publish? || step.Tick? || step.Flush? || step.w != w {
        OthersStay(c, s, step, w);
        PhaseGrows(c, s.table, s'.table, s.workers[w]);
      } else {
        KeepsActor(c, s, step);
      }
    }
  }

  /** A step adds at most one report, made by the worker that finishes. */
  lemma ReportShape(c: Config, s: State, step: Step)
    requires Enabled(c, s, step)
    ensures var s' := Apply(c, s, step);
      s'.log == s.log
      || (&& (step.Check? || step.Get? || step.Mark? || step.Release?) && step.w in s'.workers
          && var me := s'.workers[step.w];
             me.phase.Finished? && s'.log == s.log + [Report(me.copy, me.msg, me.checkedAt, me.phase.outcome)])
  {
  }

  lemma KeepsLog(c: Config, s: State, step: Step)
    requires Sane(c) && Inv(c, s) && Enabled(c, s, step)
    ensures LogOk(c, Apply(c, s, step))
  {
    var s' := Apply(c, s, step);
    StepShape(c, s, step);
    KeepsWorkers(c, s, step);
    ReportShape(c, s, step);
    forall i | 0 <= i < |s'.log|
      ensures s'.log[i].copy in s'.copies && s'.copies[s'.log[i].copy].msg == s'.log[i].msg
      ensures Truthful(c, s'.table, s'.log[i].msg, s'.log[i].checkedAt, s'.log[i].outcome)
    {
      if i < |s.log| {
        TruthGrows(c, s.table, s'.table, s.log[i].msg, s.log[i].checkedAt, s.log[i].outcome);
      } else {
        assert PhaseOk(c, s'.table, s'.workers[step.w]);
      }
    }
  }

  lemma VouchedStays(c: Config, s: State, step: Step, k: Key)
    requires Enabled(c, s, step) && Vouched(c, s, k)
    ensures Vouched(c, Apply(c, s, step), k)
  {
    StepShape(c, s, step);
    var id, at :| id in s.copies && at <= s.now && Passed(c, s.copies[id].msg, at)
      && s.copies[id].msg.key == k;
    var s' := Apply(c, s, step);
    assert id in s'.copies && at <= s'.now && Passed(c, s'.copies[id].msg, at);
  }

  /** A new or changed marker is put there by a checked worker, and a settled one by a marking worker. */
  lemma MarkerShape(c: Config, s: State, step: Step, k: Key)
    requires Enabled(c, s, step) && k in Apply(c, s, step).redis
    ensures (k in s.redis && Apply(c, s, step).redis[k] == s.redis[k])
         || ((step.SetNx? || step.Mark?) && Busy(s, step.w) && s.workers[step.w].msg.key == k
             && (Apply(c, s, step).redis[k].marker.SettledMarker? ==> step.Mark?)
             && Apply(c, s, step).redis[k].expiry
                == s.now + if step.Mark? then c.settledTtl else c.claimTtl)
  {
  }

  lemma SurvivorsAreLive(c: Config, s: State, step: Step, k: Key)
    requires Enabled(c, s, step) && k in s.redis && s.now < s.redis[k].expiry
    requires k in Apply(c, s, step).redis && Apply(c, s, step).redis[k] == s.redis[k]
    ensures Apply(c, s, step).now < s.redis[k].expiry
  {
  }

  lemma WorkerVouches(c: Config, s: State, w: nat)
    requires Clocked(s) && WorkersOk(c, s) && w in s.workers && Passed(c, s.workers[w].msg, s.workers[w].checkedAt)
    ensures Vouched(c, s, s.workers[w].msg.key)
  {
    var me := s.workers[w];
    assert me.copy in s.copies && me.checkedAt <= s.now && Passed(c, s.copies[me.copy].msg, me.checkedAt);
  }

  lemma KeepsRedis(c: Config, s: State, step: Step)
    requires Sane(c) && Clocked(s) && WorkersOk(c, s) && RedisOk(c, s) && Enabled(c, s, step)
    ensures RedisOk(c, Apply(c, s, step))
  {
    var s' := Apply(c, s, step);
    StepShape(c, s, step);
    PidGrows(s.table, s'.table);
    forall k | k in s'.redis
      ensures s'.now < s'.redis[k].expiry && Vouched(c, s', k)
      ensures s'.redis[k].marker.SettledMarker? ==>
        c.region(k).content.Opens? && HasPid(s'.table, c.region(k).packetId)
    {
      MarkerShape(c, s, step, k);
      if k in s.redis && s'.redis[k] == s.redis[k] {
        SurvivorsAreLive(c, s, step, k);
      } else {
        assert PhaseOk(c, s.table, s.workers[step.w]);
        WorkerVouches(c, s, step.w);
        assert s'.now == s.now;
      }
      VouchedStays(c, s, step, k);
    }
  }

  lemma InsertKeepsTickets(c: Config, s: State, w: nat, f: Fault)
    requires WorkersOk(c, s) && LogOk(c, s) && TicketsOk(s) && Enabled(c, s, Insert(w, f))
    ensures TicketsOk(Apply(c, s, Insert(w, f)))
  {
    var s' := Apply(c, s, Insert(w, f));
    assert forall v :: v != w ==> Pending(s', v) == Pending(s, v);
    assert Pending(s, w).None?;
    assert Pending(s', w).Some? ==> Pending(s', w).value == |s.table|;
    forall v | Pending(s, v).Some? ensures Pending(s, v).value < |s.table| {
      assert PhaseOk(c, s.table, s.workers[v]);
    }
    forall i | 0 <= i < |s.log| && Ticket(s.log[i].outcome).Some?
      ensures Ticket(s.log[i].outcome).value < |s.table|
    {
      assert Truthful(c, s.table, s.log[i].msg, s.log[i].checkedAt, s.log[i].outcome);
    }
  }

  lemma MarkKeepsTickets(c: Config, s: State, w: nat, f: Fault)
    requires TicketsOk(s) && Enabled(c, s, Mark(w, f))
    ensures TicketsOk(Apply(c, s, Mark(w, f)))
  {
    var s' := Apply(c, s, Mark(w, f));
    assert forall v :: v != w ==> Pending(s', v) == Pending(s, v);
    assert Pending(s', w).None?;
    if f.Works? {
      assert Ticket(s'.log[|s.log|].outcome) == Pending(s, w);
    }
  }

  /** Any other step pledges no row and reports no settlement. */
  lemma OthersPledgeNothing(c: Config, s: State, step: Step)
    requires WorkersOk(c, s) && Enabled(c, s, step) && !step.Insert? && !step.Mark?
    ensures var s' := Apply(c, s, step);
      && (forall v :: Pending(s', v).Some? ==> Pending(s', v) == Pending(s, v))
      && (s'.log == s.log || exists r :: s'.log == s.log + [r] && Ticket(r.outcome).None?)
  {
    var s' := Apply(c, s, step);
    ReportShape(c, s, step);
    if s'.log != s.log {
      var me := s'.workers[step.w];
      var r := Report(me.copy, me.msg, me.checkedAt, me.phase.outcome);
      if step.Check? {
        ScreenTruthful(c, s.table, s.workers[step.w].msg, s.now);
      } else if step.Release? {
        assert PhaseOk(c, s.table, s.workers[step.w]);
      }
      assert s'.log == s.log + [r] && Ticket(r.outcome).None?;
    }
  }

  lemma OthersKeepTickets(c: Config, s: State, step: Step)
    requires WorkersOk(c, s) && TicketsOk(s) && Enabled(c, s, step) && !step.Insert? && !step.Mark?
    ensures TicketsOk(Apply(c, s, step))
  {
    OthersPledgeNothing(c, s, step);
    hide Apply, Enabled, WorkersOk, Pending;
  }

  lemma KeepsTickets(c: Config, s: State, step: Step)
    requires Sane(c) && Inv(c, s) && Enabled(c, s, step)
    ensures TicketsOk(Apply(c, s, step))
  {
    match step
    case Insert(w, f) => InsertKeepsTickets(c, s, w, f);
    case Mark(w, f) => MarkKeepsTickets(c, s, w, f);
    case _ => OthersKeepTickets(c, s, step);
  }

  lemma KeepsInv(c: Config, s: State, step: Step)
    requires Sane(c) && Inv(c, s) && Enabled(c, s, step)
    ensures Inv(c, Apply(c, s, step))
  {
    KeepsClocked(c, s, step);
    KeepsWorkers(c, s, step);
    KeepsHeld(c, s, step);
    KeepsRows(c, s, step);
    KeepsUnique(c, s, step);
    KeepsRedis(c, s, step);
    KeepsLog(c, s, step);
    KeepsTickets(c, s, step);
  }

  lemma {:induction false} RunKeepsInv(c: Config, s: State, steps: seq<Step>)
    requires Sane(c) && Inv(c, s) && Legal(c, s, steps)
    ensures Inv(c, Exec(c, s, steps))
    decreases |steps|
  {
    if steps != [] {
      KeepsInv(c, s, steps[0]);
      RunKeepsInv(c, Apply(c, s, steps[0]), steps[1..]);
    }
  }

  lemma ReachableInv(c: Config, s: State)
    requires Sane(c) && Reachable(c, s)
    ensures Inv(c, s)
  {
    var t0, steps :| Legal(c, Start(t0), steps) && Exec(c, Start(t0), steps) == s;
    RunKeepsInv(c, Start(t0), steps);
  }

  // --- The theorems ---

  /** A committed row never changes and never goes away, and time never runs back. */
  lemma {:induction false} RowsAreForever(c: Config, s: State, steps: seq<Step>)
    requires Legal(c, s, steps)
    ensures s.table <= Exec(c, s, steps).table && s.log <= Exec(c, s, steps).log
    ensures s.now <= Exec(c, s, steps).now
    decreases |steps|
  {
    if steps != [] {
      StepShape(c, s, steps[0]);
      RowsAreForever(c, Apply(c, s, steps[0]), steps[1..]);
    }
  }

  /** At most one row per key, at most one per packet id, at most one SETTLED report per packet id. */
  lemma AtMostOnce(c: Config, s: State)
    requires Sane(c) && Reachable(c, s)
    ensures forall i, j :: 0 <= i < j < |s.table| ==>
      s.table[i].row.key != s.table[j].row.key && s.table[i].row.packetId != s.table[j].row.packetId
    ensures forall i, j |
      0 <= i < j < |s.log| && s.log[i].outcome.status.Settled? && s.log[j].outcome.status.Settled? ::
      s.log[i].outcome.packetId != s.log[j].outcome.packetId
  {
    ReachableInv(c, s);
    forall i, j | 0 <= i < j < |s.log|
      && s.log[i].outcome.status.Settled? && s.log[j].outcome.status.Settled?
      ensures s.log[i].outcome.packetId != s.log[j].outcome.packetId
    {
      var a, b := s.log[i].outcome, s.log[j].outcome;
      assert Truthful(c, s.table, s.log[i].msg, s.log[i].checkedAt, a);
      assert Truthful(c, s.table, s.log[j].msg, s.log[j].checkedAt, b);
      var m, n := a.settlementId.value, b.settlementId.value;
      assert Ticket(a).Some? && Ticket(a) != Ticket(b);
      assert Justified(c, s.copies, s.now, s.table[m]) && Justified(c, s.copies, s.now, s.table[n]);
    }
  }

  /** A settled marker, and every "already settled" verdict, stands for a committed row. */
  lemma DuplicateVerdictsAreTrue(c: Config, s: State)
    requires Sane(c) && Reachable(c, s)
    ensures forall k :: k in s.redis && s.redis[k].marker.SettledMarker? ==>
      HasPid(s.table, c.region(k).packetId)
    ensures forall i :: 0 <= i < |s.log| && s.log[i].outcome.detail == DetailAlreadySettled ==>
      s.log[i].outcome.packetId.Some? && HasPid(s.table, s.log[i].outcome.packetId.value)
  {
    ReachableInv(c, s);
    forall i | 0 <= i < |s.log| && s.log[i].outcome.detail == DetailAlreadySettled
      ensures s.log[i].outcome.packetId.Some? && HasPid(s.table, s.log[i].outcome.packetId.value)
    {
      var r := s.log[i];
      assert Truthful(c, s.table, r.msg, r.checkedAt, r.outcome);
    }
  }

  /** Every report of every replica says what is so, about its packet and about the ledger. */
  lemma ReportsAreTruthful(c: Config, s: State)
    requires Sane(c) && Reachable(c, s)
    ensures forall i :: 0 <= i < |s.log| ==>
      Truthful(c, s.table, s.log[i].msg, s.log[i].checkedAt, s.log[i].outcome)
  {
    ReachableInv(c, s);
  }

  /** A key is in Redis only if some copy with that key verified, was fresh and matched its AAD. */
  lemma OnlyVouchedKeys(c: Config, s: State, k: Key)
    requires Sane(c) && Reachable(c, s) && k in s.redis
    ensures Vouched(c, s, k)
  {
    ReachableInv(c, s);
  }

  /** Every row is exactly what a published, verified, then-fresh message asks for. */
  lemma RowsAreJustified(c: Config, s: State, n: nat)
    requires Sane(c) && Reachable(c, s) && n < |s.table|
    ensures Justified(c, s.copies, s.now, s.table[n])
  {
    ReachableInv(c, s);
  }
}
