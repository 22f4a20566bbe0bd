/**
  From bytes to rows: the step system and the pipeline, run on real message bodies.  The region
  function of a `Config` is built here from the packet format, under a collision-free digest.
*/
module EndToEnd {
  import opened Options
  import opened Octets
  import opened Domain
  import opened Packets
  import opened Wire
  import opened Protocol
  import opened Safety
  import opened CompleteRuns
  import opened NoLoss
  import Mesh
  import Pipeline

  /** What a packet's signed fields amount to for the settlement service. */
  function RegionOf(s: Suite, p: Packet): Region {
    Region(p.packetId, p.senderId, p.createdAt, p.envelope.aad == ExpectedAad(p), OpenInstruction(s, p))
  }

  /** The region a key stands for: that of any valid packet with this key. */
  ghost function RegionAt(s: Suite, k: Key): Region {
    if exists p :: ValidPacket(p) && IdempotencyKey(s, p) == k then
      var p :| ValidPacket(p) && IdempotencyKey(s, p) == k;
      RegionOf(s, p)
    else Region("", "", 0, false, Undecryptable)
  }

  ghost predicate Wired(c: Config, s: Suite) {
    && 0 < c.claimTtl && 0 < c.settledTtl && 0 < c.freshnessWindow && 0 <= c.clockSkew
    && forall k :: c.region(k) == RegionAt(s, k)
  }

  /** Steps 1 and 2 on a message body: parse, derive the key, verify. */
  function ReadBody(s: Suite, body: Bytes): Reading {
    match ParsePacket(body)
    case None => Malformed
    case Some(p) => Parsed(IdempotencyKey(s, p), Verifies(s, p), |p.hops|)
  }

  /** The key determines the region: all packets with one key are the same payment. */
  lemma KeyFixesRegion(s: Suite, p: Packet)
    requires CollisionFree(s) && ValidPacket(p)
    ensures RegionAt(s, IdempotencyKey(s, p)) == RegionOf(s, p)
  {
    forall q | IdempotencyKey(s, q) == IdempotencyKey(s, p) ensures RegionOf(s, q) == RegionOf(s, p) {
      KeyExactly(s, q, p);
    }
  }

  lemma OpenedIsValid(s: Suite, p: Packet)
    requires OpenInstruction(s, p).Opens?
    ensures ValidInstruction(OpenInstruction(s, p).instruction)
    ensures OpenInstruction(s, p).instruction.packetId == p.packetId
  {
  }

  lemma RegionAtIsSound(s: Suite, k: Key)
    requires RegionAt(s, k).content.Opens?
    ensures ValidInstruction(RegionAt(s, k).content.instruction)
    ensures RegionAt(s, k).content.instruction.packetId == RegionAt(s, k).packetId
  {
    var p :| ValidPacket(p) && IdempotencyKey(s, p) == k && RegionAt(s, k) == RegionOf(s, p);
    assert RegionOf(s, p).content == OpenInstruction(s, p);
    OpenedIsValid(s, p);
  }

  /** The validators imply the CHECK constraints, so an integrity error can only mean a duplicate. */
  lemma ValidatorsImplyChecks(c: Config, s: Suite)
    requires Wired(c, s)
    ensures Sane(c)
    ensures forall k :: c.region(k).content.Opens? ==> ValidInstruction(c.region(k).content.instruction)
  {
    hide RegionAt, IsUuid, IsIdentifier, IsCurrency;
    forall k | c.region(k).content.Opens?
      ensures ValidInstruction(c.region(k).content.instruction)
      ensures 0 < c.region(k).content.instruction.amountMinor
      ensures c.region(k).content.instruction.packetId == c.region(k).packetId
    {
      assert c.region(k) == RegionAt(s, k);
      RegionAtIsSound(s, k);
    }
  }

  /** Every copy on the queue is the reading of some message body. */
  predicate FromBodies(s: Suite, st: State, bodies: map<nat, Bytes>) {
    forall id :: id in st.copies ==> id in bodies && st.copies[id].msg == ReadBody(s, bodies[id])
  }

  /** The instruction a row records. */
  function InstructionOf(row: Row): Instruction {
    Instruction(row.packetId, row.payerId, row.payeeId, row.amountMinor, row.currency, row.packetCreatedAt)
  }

  /** The packet carries, sealed for its own header, exactly the instruction the row records. */
  ghost predicate Carries(s: Suite, p: Packet, row: Row) {
    && p.packetId == row.packetId && p.senderId == row.senderId
    && p.envelope.aad == BuildAad(row.packetId, row.senderId)
    && exists plain ::
         OpenEnvelope(s, p.envelope) == Some(plain) && InstructionFromBytes(plain) == Good(InstructionOf(row))
  }

  lemma RowIsCarried(s: Suite, p: Packet, row: Row, c: Config)
    requires c.region(IdempotencyKey(s, p)) == RegionOf(s, p)
    requires RegionOf(s, p).aadMatches && RegionOf(s, p).content.Opens?
    requires row == RowFor(c, IdempotencyKey(s, p), |p.hops|)
    ensures Carries(s, p, row)
  {
    var plain := OpenEnvelope(s, p.envelope).value;
    OpenedIsValid(s, p);
    assert InstructionFromBytes(plain) == Good(InstructionOf(row));
  }

  /**
    Every row ever committed came from a body whose signature verified, whose outer timestamp was inside
    the window at that worker's check, and whose envelope opens, under additional data that name exactly
    the row's packet id and sender and under no other, to exactly the row's instruction.
  */
  lemma EndToEndIntegrity(c: Config, s: Suite, st: State, bodies: map<nat, Bytes>, n: nat)
    requires CollisionFree(s) && BindingLaw(s) && Wired(c, s)
    requires Reachable(c, st) && FromBodies(s, st, bodies) && n < |st.table|
    ensures var e := st.table[n];
      && e.origin in bodies && ParsePacket(bodies[e.origin]).Some?
      && var p := ParsePacket(bodies[e.origin]).value;
         && Verifies(s, p) && e.row.key == IdempotencyKey(s, p) && e.row.hopCount == |p.hops|
         && e.checkedAt <= st.now
         && p.createdAt - c.clockSkew <= e.checkedAt <= p.createdAt + c.freshnessWindow
         && Carries(s, p, e.row)
         && (forall id, sender :: BuildAad(id, sender) == p.envelope.aad ==>
               id == e.row.packetId && sender == e.row.senderId)
         && (forall aad :: s.open(Sealed(p.envelope.encryptedKey, p.envelope.nonce, p.envelope.ciphertext), aad).Some?
               ==> aad == BuildAad(e.row.packetId, e.row.senderId))
  {
    hide ParsePacket, BuildAad, InstructionFromBytes, SigningBytes, ValidPacket;
    ValidatorsImplyChecks(c, s);
    ReachableInv(c, st);
    var e := st.table[n];
    assert Justified(c, st.copies, st.now, e);
    var p := ParsePacket(bodies[e.origin]).value;
    KeyFixesRegion(s, p);
    assert c.region(IdempotencyKey(s, p)) == RegionAt(s, IdempotencyKey(s, p));
    RowIsCarried(s, p, e.row, c);
    forall id, sender | BuildAad(id, sender) == p.envelope.aad
      ensures id == e.row.packetId && sender == e.row.senderId
    {
      AadInjective(id, sender, e.row.packetId, e.row.senderId);
    }
  }

  // --- What every message body is answered ---

  /** An answer of the failure-free pipeline that refuses a packet: code, detail, and one piece of evidence. */
  predicate IsRefused(
    before: Pipeline.Store, after: Pipeline.Store, r: Option<Outcome>, code: ErrorCode, detail: Detail,
    key: Option<Key>, packetId: Option<PacketId>)
  {
    && r == Some(Outcome(Rejected, detail, Some(code), key, packetId, None, false))
    && after.rows == before.rows && after.redis == before.redis
    && after.rejections == before.rejections + [Pipeline.Rejection(code, detail, key, packetId)]
  }

  /**
    Every refusal of a delivery without failures, from the body alone: what does not parse, what does not
    verify, what is too old or too far ahead, what carries other additional data than its header implies;
    and, on a free key, what does not decrypt and what decrypts to something unusable.
  */
  lemma BodiesAreAnswered(c: Config, s: Suite, st: Pipeline.Store, body: Bytes)
    requires CollisionFree(s) && Wired(c, s)
    ensures var (st', r) := Pipeline.Process(c, st, ReadBody(s, body), Pipeline.NO_FAULTS);
      match ParsePacket(body)
      case None => IsRefused(st, st', r, MalformedPayload, DetailSchema, None, None)
      case Some(p) =>
        var key, id := Some(IdempotencyKey(s, p)), Some(p.packetId);
        var age := st.now - p.createdAt;
        if !Verifies(s, p) then IsRefused(st, st', r, InvalidSignature, DetailSignature, key, id)
        else if age > c.freshnessWindow then IsRefused(st, st', r, PacketExpired, DetailTooOld(age), key, id)
        else if age < -c.clockSkew then IsRefused(st, st', r, PacketNotYetValid, DetailTooFarAhead(-age), key, id)
        else if p.envelope.aad != BuildAad(p.packetId, p.senderId) then
          IsRefused(st, st', r, MalformedPayload, DetailAad, key, id)
        else IdempotencyKey(s, p) !in st.redis ==>
          match OpenEnvelope(s, p.envelope)
          case None => IsRefused(st, st', r, DecryptionFailed, DetailSealed, key, id)
          case Some(plain) =>
            match InstructionFromBytes(plain)
            case Bad(flaw) => IsRefused(st, st', r, MalformedPayload, DetailFlaw(flaw), key, id)
            case Good(i) =>
              i.packetId != p.packetId ==>
                IsRefused(st, st', r, MalformedPayload, DetailFlaw(PacketIdMismatch), key, id)
  {
    hide ParsePacket, BuildAad, InstructionFromBytes, SigningBytes, ValidPacket, OpenEnvelope;
    if ParsePacket(body).Some? {
      var p := ParsePacket(body).value;
      var k := IdempotencyKey(s, p);
      KeyFixesRegion(s, p);
      assert c.region(k) == RegionAt(s, k) == RegionOf(s, p);
      assert c.region(k).content == OpenInstruction(s, p);
      hide RegionAt, IdempotencyKey, CollisionFree, Wired, Verifies;
      assert k !in st.redis ==> st.redis[k := Entry(ClaimedMarker, st.now + c.claimTtl)] - {k} == st.redis;
    }
  }

  // --- Only what the sender signed ---

  /** One use of the sender's key: the arguments of `Create`. */
  datatype Order = Order(instruction: Instruction, senderId: string, createdAt: int, seed: Bytes)

  function PacketOf(s: Suite, o: Order): Packet {
    Create(s, o.instruction, o.senderId, o.createdAt, o.seed)
  }

  predicate ValidOrder(o: Order) {
    ValidInstruction(o.instruction) && IsIdentifier(o.senderId)
  }

  /** The signed bytes of this body, if it verifies, were signed in one of the orders. */
  ghost predicate SignedInOrder(s: Suite, body: Bytes, orders: set<Order>) {
    ParsePacket(body).Some? && Verifies(s, ParsePacket(body).value) ==>
      exists o :: o in orders && SigningBytes(PacketOf(s, o)) == SigningBytes(ParsePacket(body).value)
  }

  /** Unforgeability: nobody but the sender, in these orders, has signed what verifies on the queue. */
  ghost predicate Unforged(s: Suite, bodies: map<nat, Bytes>, orders: set<Order>) {
    forall id :: id in bodies ==> SignedInOrder(s, bodies[id], orders)
  }

  /** The hypothesis holds of every queue that carries only created packets, after any hops. */
  lemma CreatedBodiesAreUnforged(s: Suite, bodies: map<nat, Bytes>, orders: set<Order>)
    requires forall id :: id in bodies && ParsePacket(bodies[id]).Some? ==>
      exists o :: o in orders && Mesh.FurtherAlong(s, PacketOf(s, o), ParsePacket(bodies[id]).value)
    ensures Unforged(s, bodies, orders)
  {
    hide ParsePacket, PacketOf, SigningBytes, Verifies;
    forall id | id in bodies && ParsePacket(bodies[id]).Some? ensures SignedInOrder(s, bodies[id], orders) {
      var p := ParsePacket(bodies[id]).value;
      var o :| o in orders && Mesh.FurtherAlong(s, PacketOf(s, o), p);
      SigningBytesExactly(PacketOf(s, o), p);
    }
  }

  /** A packet with the signed fields of an order carries that order and nothing else. */
  lemma CarriesItsOrder(s: Suite, p: Packet, row: Row, o: Order)
    requires SignatureLaw(s) && SealingLaw(s) && ValidOrder(o)
    requires Carries(s, p, row) && SignedFields(p) == SignedFields(PacketOf(s, o))
    ensures InstructionOf(row) == o.instruction && row.senderId == o.senderId && p.createdAt == o.createdAt
  {
    hide BuildAad, InstructionFromBytes, InstructionBytes, SigningBytes, IsIdentifier, ValidInstruction;
    CreatedPacketOpens(s, o.instruction, o.senderId, o.createdAt, o.seed);
  }

  /**
    Every settled row is exactly one order of the sender, settled within the window of that order's
    timestamp, and no other row is for the same order.
  */
  lemma SettledAsOrdered(
    c: Config, s: Suite, st: State, bodies: map<nat, Bytes>, orders: set<Order>, n: nat) returns (o: Order)
    requires SignatureLaw(s) && SealingLaw(s) && BindingLaw(s) && CollisionFree(s) && Wired(c, s)
    requires Unforged(s, bodies, orders) && forall x :: x in orders ==> ValidOrder(x)
    requires Reachable(c, st) && FromBodies(s, st, bodies) && n < |st.table|
    ensures o in orders && InstructionOf(st.table[n].row) == o.instruction
    ensures st.table[n].row.senderId == o.senderId
    ensures o.createdAt - c.clockSkew <= st.table[n].checkedAt <= o.createdAt + c.freshnessWindow
    ensures forall m :: 0 <= m < |st.table| && st.table[m].row.key == IdempotencyKey(s, PacketOf(s, o)) <==> m == n
  {
    hide ParsePacket, PacketOf, SigningBytes, Verifies, ValidOrder, Carries, BuildAad, Reachable;
    EndToEndIntegrity(c, s, st, bodies, n);
    ValidatorsImplyChecks(c, s);
    ReachableInv(c, st);
    var body := bodies[st.table[n].origin];
    var p := ParsePacket(body).value;
    assert SignedInOrder(s, body, orders);
    o :| o in orders && SigningBytes(PacketOf(s, o)) == SigningBytes(p);
    SigningBytesExactly(PacketOf(s, o), p);
    KeyExactly(s, PacketOf(s, o), p);
    CarriesItsOrder(s, p, st.table[n].row, o);
  }

  /** A created packet's key stands for its order. */
  lemma OrderRegion(c: Config, s: Suite, o: Order)
    requires SignatureLaw(s) && SealingLaw(s) && CollisionFree(s) && Wired(c, s) && ValidOrder(o)
    ensures c.region(IdempotencyKey(s, PacketOf(s, o)))
      == Region(o.instruction.packetId, o.senderId, o.createdAt, true, Opens(o.instruction))
  {
    hide SigningBytes, IsIdentifier, ValidInstruction, IdempotencyKey;
    CreatedPacketOpens(s, o.instruction, o.senderId, o.createdAt, o.seed);
    KeyFixesRegion(s, PacketOf(s, o));
    assert c.region(IdempotencyKey(s, PacketOf(s, o))) == RegionAt(s, IdempotencyKey(s, PacketOf(s, o)));
  }

  predicate DistinctOrders(orders: set<Order>) {
    forall x, y :: x in orders && y in orders && x.instruction.packetId == y.instruction.packetId ==> x == y
  }

  /**
    In any interleaved run that is steady for an order, with any number of workers and copies and whatever
    else fails: once the order has been published and none of its copies is outstanding, it was refused for
    its age or the ledger holds exactly one row for it, with exactly its instruction.
  */
  lemma SteadyOrderSettles(
    c: Config, s: Suite, t0: int, steps: seq<Step>, bodies: map<nat, Bytes>, orders: set<Order>, o: Order)
    requires SignatureLaw(s) && SealingLaw(s) && BindingLaw(s) && CollisionFree(s) && Wired(c, s)
    requires DistinctOrders(orders) && o in orders && forall x :: x in orders ==> ValidOrder(x)
    requires Legal(c, Start(t0), steps) && FromBodies(s, Exec(c, Start(t0), steps), bodies)
    requires Unforged(s, bodies, orders)
    requires Steady(c, Start(t0), steps, IdempotencyKey(s, PacketOf(s, o)))
    requires Published(Exec(c, Start(t0), steps), IdempotencyKey(s, PacketOf(s, o)))
    requires forall id :: !Outstanding(Exec(c, Start(t0), steps), id, IdempotencyKey(s, PacketOf(s, o)))
    ensures var k, table := IdempotencyKey(s, PacketOf(s, o)), Exec(c, Start(t0), steps).table;
      Refused(Exec(c, Start(t0), steps), k)
      || exists n :: 0 <= n < |table| && InstructionOf(table[n].row) == o.instruction
           && table[n].row.senderId == o.senderId
           && forall m :: 0 <= m < |table| && table[m].row.key == k <==> m == n
  {
    hide ParsePacket, PacketOf, SigningBytes, Verifies, ValidOrder, Unforged, FromBodies, IdempotencyKey, Wired,
      CollisionFree, SealingLaw, Legal, Exec, Steady;
    var k, st := IdempotencyKey(s, PacketOf(s, o)), Exec(c, Start(t0), steps);
    ValidatorsImplyChecks(c, s);
    OrderRegion(c, s, o);
    SteadyRunKeepsPayment(c, t0, steps, k);
    if !Refused(st, k) {
      var n :| 0 <= n < |st.table| && st.table[n].row.packetId == c.region(k).packetId;
      var x := SettledAsOrdered(c, s, st, bodies, orders, n);
      assert x.instruction.packetId == st.table[n].row.packetId;
      assert x == o;
    }
  }

  /** A created packet, after any hops, reads as a genuine settleable payment. */
  lemma CreatedPacketReads(c: Config, s: Suite, i: Instruction, sender: string, at: int, seed: Bytes, q: Packet)
    requires SignatureLaw(s) && SealingLaw(s) && CollisionFree(s) && Wired(c, s)
    requires ValidInstruction(i) && IsIdentifier(sender)
    requires ValidPacket(q) && Mesh.FurtherAlong(s, Create(s, i, sender, at, seed), q)
    ensures var k := IdempotencyKey(s, q);
      && ReadBody(s, Serialise(q)) == Parsed(k, true, |q.hops|)
      && c.region(k) == Region(i.packetId, sender, at, true, Opens(i))
  {
    hide ParsePacket, Serialise, SigningBytes, IsIdentifier, IsUuid;
    var p := Create(s, i, sender, at, seed);
    CreatedPacketOpens(s, i, sender, at, seed);
    PacketRoundTrip(q);
    KeyFixesRegion(s, q);
    assert c.region(IdempotencyKey(s, q)) == RegionAt(s, IdempotencyKey(s, q));
  }

  /** Creating a packet and processing it within the window settles exactly the given instruction. */
  lemma CreateThenSettle(
    c: Config, s: Suite, i: Instruction, sender: string, at: int, seed: Bytes, q: Packet, st: Pipeline.Store)
    requires SignatureLaw(s) && SealingLaw(s) && CollisionFree(s) && Wired(c, s)
    requires ValidInstruction(i) && IsIdentifier(sender)
    requires ValidPacket(q) && Mesh.FurtherAlong(s, Create(s, i, sender, at, seed), q)
    requires at - c.clockSkew <= st.now <= at + c.freshnessWindow
    requires IdempotencyKey(s, q) !in st.redis
    requires !Pipeline.KeyTaken(st.rows, IdempotencyKey(s, q)) && !Pipeline.PidTaken(st.rows, i.packetId)
    ensures var (st', r) := Pipeline.Process(c, st, ReadBody(s, Serialise(q)), Pipeline.NO_FAULTS);
      && r == Some(SettledAs(IdempotencyKey(s, q), i.packetId, |st.rows|))
      && |st'.rows| == |st.rows| + 1 && st'.rows[..|st.rows|] == st.rows
      && InstructionOf(st'.rows[|st.rows|]) == i && st'.rows[|st.rows|].senderId == sender
  {
    hide ParsePacket, Serialise, SigningBytes, IsIdentifier, IsUuid, IdempotencyKey, Create, ReadBody;
    CreatedPacketReads(c, s, i, sender, at, seed, q);
  }

  /**
    The whole journey: a payment submitted to a calm, uniform mesh within its hop limit is enqueued once,
    and that message, processed in time against a ledger that has not seen it, settles the instruction.
  */
  lemma SubmittedPaymentSettles(
    c: Config, s: Suite, i: Instruction, sender: string, at: int, seed: Bytes,
    net: Mesh.Network, url: string, weather: Mesh.Weather, target: nat, limit: nat, st: Pipeline.Store)
    requires SignatureLaw(s) && SealingLaw(s) && CollisionFree(s) && Wired(c, s)
    requires ValidInstruction(i) && IsIdentifier(sender)
    requires Mesh.Bounded(net) && url in net.relays && Mesh.Uniform(net, target, limit) && Mesh.Calm(weather)
    requires Mesh.Max(target, 1) <= limit
    requires at - c.clockSkew <= st.now <= at + c.freshnessWindow
    requires var k := IdempotencyKey(s, Create(s, i, sender, at, seed));
      k !in st.redis && !Pipeline.KeyTaken(st.rows, k) && !Pipeline.PidTaken(st.rows, i.packetId)
    ensures var p := Create(s, i, sender, at, seed);
      var (reply, published, _) := Mesh.RelayReply(net, s, url, Serialise(p), weather);
      && reply.Accepted? && |published| == 1
      && var (st', r) := Pipeline.Process(c, st, ReadBody(s, published[0].body), Pipeline.NO_FAULTS);
         && r == Some(SettledAs(IdempotencyKey(s, p), i.packetId, |st.rows|))
         && |st'.rows| == |st.rows| + 1 && InstructionOf(st'.rows[|st.rows|]) == i
         && st'.rows[|st.rows|].hopCount == Mesh.Max(target, 1)
  {
    hide ParsePacket, Serialise, SigningBytes, IsIdentifier, IsUuid, IdempotencyKey, Create,
      Mesh.RelayReply, Mesh.FurtherAlong, Mesh.Bounded, Mesh.Uniform, Mesh.Calm, Pipeline.Process, ReadBody,
      ValidPacket, Verifies, SealingLaw, CollisionFree, Wired;
    var p := Create(s, i, sender, at, seed);
    CreatedPacketOpens(s, i, sender, at, seed);
    CreatedPacketIsNew(s, i, sender, at, seed);
    PacketRoundTrip(p);
    Mesh.MeshOutcome(net, s, url, Serialise(p), weather, target, limit);
    var m := Mesh.RelayReply(net, s, url, Serialise(p), weather).1[0];
    PublishedIsFurtherAlong(net, s, url, p, weather, m);
    ArrivedSettles(c, s, i, sender, at, seed, m.body, st);
  }

  /** A body that a created packet has become on its way settles the instruction, with its own hop count. */
  lemma ArrivedSettles(
    c: Config, s: Suite, i: Instruction, sender: string, at: int, seed: Bytes, body: Bytes, st: Pipeline.Store)
    requires SignatureLaw(s) && SealingLaw(s) && CollisionFree(s) && Wired(c, s)
    requires ValidInstruction(i) && IsIdentifier(sender)
    requires ParsePacket(body).Some? && Mesh.FurtherAlong(s, Create(s, i, sender, at, seed), ParsePacket(body).value)
    requires at - c.clockSkew <= st.now <= at + c.freshnessWindow
    requires var k := IdempotencyKey(s, Create(s, i, sender, at, seed));
      k !in st.redis && !Pipeline.KeyTaken(st.rows, k) && !Pipeline.PidTaken(st.rows, i.packetId)
    ensures var (st', r) := Pipeline.Process(c, st, ReadBody(s, body), Pipeline.NO_FAULTS);
      && r == Some(SettledAs(IdempotencyKey(s, Create(s, i, sender, at, seed)), i.packetId, |st.rows|))
      && |st'.rows| == |st.rows| + 1 && InstructionOf(st'.rows[|st.rows|]) == i
      && st'.rows[|st.rows|].hopCount == Mesh.HopsIn(body)
  {
    hide Serialise, SigningBytes, IsIdentifier, IsUuid, Create, Pipeline.Process, ValidPacket, Verifies,
      SealingLaw, CollisionFree, Wired, IdempotencyKey;
    var q := ParsePacket(body).value;
    assert IdempotencyKey(s, q) == IdempotencyKey(s, Create(s, i, sender, at, seed));
    SameReading(s, body, Serialise(q));
    CreateThenSettle(c, s, i, sender, at, seed, q, st);
    assert ReadBody(s, body).hopCount == |q.hops|;
    hide ParsePacket;
    SettledHops(c, st, ReadBody(s, body));
  }

  lemma PublishedIsFurtherAlong(
    net: Mesh.Network, s: Suite, url: string, p: Packet, weather: Mesh.Weather, m: Mesh.Message)
    requires Mesh.Bounded(net) && url in net.relays && ValidPacket(p)
    requires m in Mesh.RelayReply(net, s, url, Serialise(p), weather).1
    ensures ParsePacket(m.body).Some? && Mesh.FurtherAlong(s, p, ParsePacket(m.body).value)
  {
    hide ParsePacket, Serialise, ValidPacket, IdempotencyKey, Verifies, Mesh.RelayReply, Mesh.FurtherAlong;
    PacketRoundTrip(p);
    Mesh.MeshTransparency(net, s, url, Serialise(p), weather);
  }

  lemma CreatedPacketIsNew(s: Suite, i: Instruction, sender: string, at: int, seed: Bytes)
    ensures Create(s, i, sender, at, seed).hops == []
  {
  }

  /** A body and its canonical re-serialisation read the same. */
  lemma SameReading(s: Suite, body: Bytes, again: Bytes)
    requires ParsePacket(body).Some? && again == Serialise(ParsePacket(body).value)
    ensures ReadBody(s, again) == ReadBody(s, body)
  {
    hide ParsePacket, Serialise, IdempotencyKey, Verifies;
    PacketRoundTrip(ParsePacket(body).value);
  }

  lemma SettledHops(c: Config, st: Pipeline.Store, m: Reading)
    requires m.Parsed? && Pipeline.Process(c, st, m, Pipeline.NO_FAULTS).1.Some?
    requires Pipeline.Process(c, st, m, Pipeline.NO_FAULTS).1.value.status.Settled?
    ensures var rows := Pipeline.Process(c, st, m, Pipeline.NO_FAULTS).0.rows;
      |rows| == |st.rows| + 1 && rows[|st.rows|].hopCount == m.hopCount
  {
  }
}
