/**
  The settlement service in its own shape: the two servers it talks to, the dedupe store, the metrics,
  the processor and the consumer, each proved against module Pipeline.

  A call that raises returns `None` (or `false`); which calls raise is an input.
*/
module Service {
  import opened Options
  import opened Domain
  import opened Pipeline
  import Sequential

  class RedisServer {
    var now: int
    var entries: Markers

    constructor (now: int)
      ensures this.now == now && entries == map[]
    {
      this.now := now;
      entries := map[];
    }

    /** Time passes; what has expired is gone. */
    method Advance(to: int)
      requires now <= to
      modifies this
      ensures now == to && entries == Purge(old(entries), to)
    {
      now := to;
      entries := map k | k in entries && now < entries[k].expiry :: entries[k];
    }

    method Flush(keys: set<Key>)
      modifies this`entries
      ensures entries == old(entries) - keys
    {
      entries := entries - keys;
    }

    /** SET key marker NX EX ttl; `Some(won)`, or `None` when the call raises. */
    method SetNx(k: Key, marker: Marker, ttl: int, fault: Fault) returns (won: Option<bool>)
      modifies this`entries
      ensures won == if fault.Works? then Some(k !in old(entries)) else None
      ensures entries == if k in old(entries) || fault.FailsBefore? then old(entries)
                         else old(entries)[k := Entry(marker, now + ttl)]
    {
      var free := k !in entries;
      if free && !fault.FailsBefore? {
        entries := entries[k := Entry(marker, now + ttl)];
      }
      won := if fault.Works? then Some(free) else None;
    }

    method Set(k: Key, marker: Marker, ttl: int, fault: Fault) returns (done: bool)
      modifies this`entries
      ensures done == fault.Works?
      ensures entries == if fault.FailsBefore? then old(entries) else old(entries)[k := Entry(marker, now + ttl)]
    {
      if !fault.FailsBefore? {
        entries := entries[k := Entry(marker, now + ttl)];
      }
      done := fault.Works?;
    }

    method Get(k: Key) returns (marker: Option<Marker>)
      ensures marker == if k in entries then Some(entries[k].marker) else None
    {
      marker := if k in entries then Some(entries[k].marker) else None;
    }

    method Delete(k: Key, fault: Fault) returns (done: bool)
      modifies this`entries
      ensures done == fault.Works?
      ensures entries == if fault.FailsBefore? then old(entries) else old(entries) - {k}
    {
      if !fault.FailsBefore? {
        entries := entries - {k};
      }
      done := fault.Works?;
    }
  }

  class Postgres {
    var settlements: seq<Row>
    var rejections: seq<Rejection>

    constructor ()
      ensures settlements == [] && rejections == []
    {
      settlements, rejections := [], [];
    }

    /** Whether a row with this key exists. */
    method SettlementExists(k: Key) returns (found: bool)
      ensures found <==> KeyTaken(settlements, k)
    {
      found := false;
      var n := 0;
      while n < |settlements|
        invariant 0 <= n <= |settlements|
        invariant !found && forall i :: 0 <= i < n ==> settlements[i].key != k
      {
        if settlements[n].key == k {
          return true;
        }
        n := n + 1;
      }
    }

    /** The unique and CHECK constraints, evaluated over the table. */
    method Accepts(row: Row) returns (ok: bool)
      ensures ok <==> Insertable(settlements, row)
      ensures ok <==>
        && row.amountMinor > 0 && row.hopCount >= 0
        && forall r :: r in settlements ==> r.key != row.key && r.packetId != row.packetId
    {
      if !MeetsChecks(row) {
        return false;
      }
      var n := 0;
      while n < |settlements|
        invariant 0 <= n <= |settlements|
        invariant forall i :: 0 <= i < n ==>
          settlements[i].key != row.key && settlements[i].packetId != row.packetId
      {
        if settlements[n].key == row.key || settlements[n].packetId == row.packetId {
          return false;
        }
        n := n + 1;
      }
      ok := true;
    }

    /**
      Insert and commit.  `Some(Some(id))` commits, `Some(None)` is an integrity error, `None` is any
      other database error, which may still have committed.
    */
    method AddSettlement(row: Row, fault: Fault) returns (r: Option<Option<nat>>)
      modifies this`settlements
      ensures settlements == if Insertable(old(settlements), row) && !fault.FailsBefore?
                             then old(settlements) + [row] else old(settlements)
      ensures r == if !fault.Works? then None
                   else if Insertable(old(settlements), row) then Some(Some(|old(settlements)|)) else Some(None)
    {
      var ok := Accepts(row);
      var id := |settlements|;
      if ok && !fault.FailsBefore? {
        settlements := settlements + [row];
      }
      r := if !fault.Works? then None else if ok then Some(Some(id)) else Some(None);
    }

    method AddRejection(rejection: Rejection, fault: Fault)
      modifies this`rejections
      ensures rejections == if fault.FailsBefore? then old(rejections) else old(rejections) + [rejection]
    {
      if !fault.FailsBefore? {
        rejections := rejections + [rejection];
      }
    }
  }

  class DedupeStore {
    const client: RedisServer
    const claimTtl: int
    const settledTtl: int

    constructor (client: RedisServer, claimTtl: int, settledTtl: int)
      ensures this.client == client && this.claimTtl == claimTtl && this.settledTtl == settledTtl
    {
      this.client := client;
      this.claimTtl := claimTtl;
      this.settledTtl := settledTtl;
    }

    method Claim(c: Config, k: Key, f: Faults) returns (claim: Option<ClaimOutcome>)
      requires claimTtl == c.claimTtl
      modifies client`entries
      ensures (client.entries, claim) == ClaimKey(c, old(client.entries), client.now, k, f)
    {
      var won := client.SetNx(k, ClaimedMarker, claimTtl, f.setNx);
      match won
      case None => claim := None;
      case Some(true) => claim := Some(Claimed);
      case Some(false) =>
        if f.getRaises {
          claim := None;
        } else {
          var current := client.Get(k);
          claim := Some(if current == Some(SettledMarker) then AlreadySettled else InFlight);
        }
    }

    method MarkSettled(k: Key, fault: Fault) returns (done: bool)
      modifies client`entries
      ensures done == fault.Works?
      ensures client.entries == if fault.FailsBefore? then old(client.entries)
                                else old(client.entries)[k := Entry(SettledMarker, client.now + settledTtl)]
    {
      done := client.Set(k, SettledMarker, settledTtl, fault);
    }

    /** Unconditional: whoever owns the marker now, it goes. */
    method ReleaseClaim(k: Key, fault: Fault) returns (done: bool)
      modifies client`entries
      ensures done == fault.Works?
      ensures client.entries == if fault.FailsBefore? then old(client.entries) else old(client.entries) - {k}
    {
      done := client.Delete(k, fault);
    }
  }

  class SettlementMetrics {
    var settled: nat
    var duplicates: nat
    var invalidSignature: nat
    var malformed: nat
    var decryptionFailed: nat
    var expired: nat
    var notYetValid: nat
    var internalErrors: nat
    var byCode: map<ErrorCode, nat>

    constructor ()
      ensures View() == ZERO_COUNTERS
    {
      settled, duplicates, invalidSignature, malformed := 0, 0, 0, 0;
      decryptionFailed, expired, notYetValid, internalErrors := 0, 0, 0, 0;
      byCode := map[];
    }

    function View(): Counters
      reads this
    {
      Counters(settled, duplicates, invalidSignature, malformed, decryptionFailed, expired, notYetValid,
        internalErrors, byCode)
    }

    /** The sum over the per-code dictionary. */
    function Rejected(): (r: nat)
      reads this
      ensures r == SumValues(byCode)
    {
      SumIsSevenCounts(byCode);
      SevenCounts(byCode)
    }

    method Record(o: Outcome)
      modifies this
      ensures View() == Pipeline.Record(old(View()), o)
    {
      if o.status.Settled? {
        settled := settled + 1;
        return;
      }
      if o.code.None? {
        return;
      }
      var code := o.code.value;
      byCode := byCode[code := CountOf(byCode, code) + 1];
      match code {
        case DuplicatePacket => duplicates := duplicates + 1;
        case InvalidSignature => invalidSignature := invalidSignature + 1;
        case MalformedPayload => malformed := malformed + 1;
        case DecryptionFailed => decryptionFailed := decryptionFailed + 1;
        case PacketExpired => expired := expired + 1;
        case PacketNotYetValid => notYetValid := notYetValid + 1;
        case InternalError => internalErrors := internalErrors + 1;
      }
    }
  }

  class SettlementProcessor {
    const config: Config
    const redis: RedisServer
    const db: Postgres
    const dedupe: DedupeStore
    const metrics: SettlementMetrics

    constructor (config: Config, redis: RedisServer, db: Postgres)
      ensures Valid() && this.config == config && this.redis == redis && this.db == db && fresh(metrics)
      ensures metrics.View() == ZERO_COUNTERS
    {
      this.config := config;
      this.redis := redis;
      this.db := db;
      this.dedupe := new DedupeStore(redis, config.claimTtl, config.settledTtl);
      this.metrics := new SettlementMetrics();
    }

    ghost predicate Valid() {
      dedupe.client == redis && dedupe.claimTtl == config.claimTtl && dedupe.settledTtl == config.settledTtl
    }

    function Stored(): Store
      reads redis, db
    {
      Store(redis.now, redis.entries, db.settlements, db.rejections)
    }

    /** One packet through the pipeline, counted unless it raises. */
    method Process(m: Reading, f: Faults) returns (r: Option<Outcome>)
      requires Valid()
      modifies redis`entries, db, metrics
      ensures (Stored(), r) == Pipeline.Process(config, old(Stored()), m, f)
      ensures metrics.View() ==
        if r.Some? then Pipeline.Record(old(metrics.View()), r.value) else old(metrics.View())
    {
      r := Decide(m, f);
      if r.Some? {
        metrics.Record(r.value);
      }
    }

    method Decide(m: Reading, f: Faults) returns (r: Option<Outcome>)
      requires Valid()
      modifies redis`entries, db
      ensures (Stored(), r) == Pipeline.Process(config, old(Stored()), m, f)
    {
      if m.Malformed? {
        r := Some(SCHEMA_REFUSAL);
        PersistRejection(r.value, f.evidence);
        return;
      }
      var k := m.key;
      var region := config.region(k);
      if !m.signatureOk {
        r := Some(Refusal(InvalidSignature, DetailSignature, k, region.packetId));
        PersistRejection(r.value, f.evidence);
        return;
      }
      r := CheckFreshness(k, f.evidence);
      if r.Some? {
        return;
      }
      if !region.aadMatches {
        r := Some(Refusal(MalformedPayload, DetailAad, k, region.packetId));
        PersistRejection(r.value, f.evidence);
        return;
      }
      var claim := dedupe.Claim(config, k, f);
      match claim {
        case None => r := None;
        case Some(AlreadySettled) => r := Some(Duplicate(DetailAlreadySettled, k, region.packetId));
        case Some(InFlight) => r := Some(Duplicate(DetailBeingSettled, k, region.packetId));
        case Some(Claimed) => r := SettleHeld(k, m.hopCount, f);
      }
    }

    /** `None` when the packet is inside the window, inclusive at both edges. */
    method CheckFreshness(k: Key, evidence: Fault) returns (r: Option<Outcome>)
      modifies db
      ensures r.None? <==> Fresh(config, k, redis.now)
      ensures r.Some? ==> r == Screen(config, Parsed(k, true, 0), redis.now)
      ensures Stored() == if r.Some? then Persist(old(Stored()), r.value, evidence) else old(Stored())
    {
      var region := config.region(k);
      var age := redis.now - region.createdAt;
      if age > config.freshnessWindow {
        r := Some(Refusal(PacketExpired, DetailTooOld(age), k, region.packetId));
        PersistRejection(r.value, evidence);
      } else if -age > config.clockSkew {
        r := Some(Refusal(PacketNotYetValid, DetailTooFarAhead(-age), k, region.packetId));
        PersistRejection(r.value, evidence);
      } else {
        r := None;
      }
    }

    /** The claim is held: settle, or reject and release, or roll back. */
    method SettleHeld(k: Key, hopCount: nat, f: Faults) returns (r: Option<Outcome>)
      requires Valid()
      modifies redis`entries, db
      ensures (Stored(), r) == Settle(config, old(Stored()), k, hopCount, f)
    {
      var refusal := ContentRefusal(config, k);
      if refusal.Some? {
        PersistRejection(refusal.value, f.evidence);
        var released := dedupe.ReleaseClaim(k, f.release);
        if released {
          return refusal;
        }
        r := RollBack(k, f);
      } else {
        r := WriteSettlement(k, hopCount, f);
      }
    }

    method WriteSettlement(k: Key, hopCount: nat, f: Faults) returns (r: Option<Outcome>)
      requires Valid() && config.region(k).content.Opens?
      modifies redis`entries, db
      ensures (Stored(), r) == WriteRow(config, old(Stored()), k, hopCount, f)
    {
      var row := RowFor(config, k, hopCount);
      var inserted := db.AddSettlement(row, f.insert);
      if inserted.None? {
        r := RollBack(k, f);
        return;
      }
      var o := match inserted.value
        case Some(id) => SettledAs(k, row.packetId, id)
        case None => Duplicate(DetailAlreadySettled, k, row.packetId);
      var marked := dedupe.MarkSettled(k, f.mark);
      if marked {
        r := Some(o);
      } else {
        r := RollBack(k, f);
      }
    }

    /** The outer exception handler. */
    method RollBack(k: Key, f: Faults) returns (r: Option<Outcome>)
      requires Valid()
      modifies redis`entries
      ensures (Stored(), r) == Recover(config, old(Stored()), k, f)
    {
      var released := dedupe.ReleaseClaim(k, f.rollback);
      r := if released then Some(UnexpectedFailure(k, config.region(k).packetId)) else None;
    }

    method PersistRejection(o: Outcome, evidence: Fault)
      modifies db`rejections
      ensures Stored() == Persist(old(Stored()), o, evidence)
    {
      if o.code.Some? {
        db.AddRejection(Rejection(o.code.value, o.detail, o.key, o.packetId), evidence);
      }
    }
  }

  datatype Verdict = Ack | NackRequeue

  class SettlementConsumer {
    const processor: SettlementProcessor

    constructor (processor: SettlementProcessor)
      ensures this.processor == processor
    {
      this.processor := processor;
    }

    /** Settle one message, then ack or nack; a raising processor means nack with requeue. */
    method HandleMessage(m: Reading, f: Faults) returns (verdict: Verdict, ghost outcome: Option<Outcome>)
      requires processor.Valid()
      modifies processor.redis`entries, processor.db, processor.metrics
      ensures (processor.Stored(), outcome) == Pipeline.Process(processor.config, old(processor.Stored()), m, f)
      ensures verdict.NackRequeue? <==> Requeue(outcome)
      ensures processor.metrics.View() ==
        if outcome.Some? then Pipeline.Record(old(processor.metrics.View()), outcome.value)
        else old(processor.metrics.View())
    {
      var r := processor.Process(m, f);
      outcome := r;
      if r.None? {
        verdict := NackRequeue;
      } else if r.value.retryable {
        verdict := NackRequeue;
      } else {
        verdict := Ack;
      }
    }

    /** One event of a sequential run: the clock moves on, and Redis is flushed or a message arrives. */
    method Serve(e: Sequential.Event) returns (ghost outcomes: seq<Outcome>)
      requires processor.Valid() && processor.redis.now <= e.at
      modifies processor.redis, processor.db, processor.metrics
      ensures (processor.Stored(), outcomes) == Sequential.Handle(processor.config, old(processor.Stored()), e)
    {
      processor.redis.Advance(e.at);
      outcomes := [];
      match e {
        case Flushing(_, keys) => processor.redis.Flush(keys);
        case Delivery(_, m) =>
          ghost var outcome;
          var verdict;
          verdict, outcome := HandleMessage(m, NO_FAULTS);
          if outcome.Some? {
            outcomes := [outcome.value];
          }
      }
    }
  }
}
