/** The optional value, used for absent fields and failed reads. */
module Options {
  datatype Option<+T> = None | Some(value: T)
}

/**
  The vocabulary shared by the settlement pipeline, the step system and the packet format.

  Times and durations are integer microseconds.  Everything that the sender signs is a function of
  the idempotency key (`Config.region`): the key is a digest of the signed bytes, and module EndToEnd
  builds this function from the wire format under an explicit collision-freeness hypothesis.
*/
module Domain {
  import opened Options

  type Key = string
  type PacketId = string

  datatype ErrorCode =
    | MalformedPayload | InvalidSignature | DuplicatePacket | DecryptionFailed
    | PacketExpired | PacketNotYetValid | InternalError

  datatype PacketStatus = Created | Relayed | Bridged | Settled | Rejected

  /** The payment, as it lives inside the sealed envelope. */
  datatype Instruction = Instruction(
    packetId: PacketId, payerId: string, payeeId: string,
    amountMinor: int, currency: string, createdAt: int)

  /** Why a decrypted plaintext is refused by the cross-check. */
  datatype Flaw = NotJson | NotAnObject | InvalidInstruction | PacketIdMismatch

  /** What opening the envelope with the settlement key yields. */
  datatype Content = Undecryptable | Unusable(flaw: Flaw) | Opens(instruction: Instruction)

  /** What the signed region of a packet fixes, hops and signature excluded. */
  datatype Region = Region(
    packetId: PacketId, senderId: string, createdAt: int, aadMatches: bool, content: Content)

  /** What a worker reads out of a message body before any state is consulted. */
  datatype Reading = Malformed | Parsed(key: Key, signatureOk: bool, hopCount: nat)

  datatype Config = Config(
    region: Key -> Region, freshnessWindow: int, clockSkew: int, claimTtl: int, settledTtl: int)

  /** The instruction validators, the inner/outer cross-check and the bounds on the settings. */
  ghost predicate Sane(c: Config) {
    && 0 < c.claimTtl && 0 < c.settledTtl && 0 < c.freshnessWindow && 0 <= c.clockSkew
    && forall k :: c.region(k).content.Opens? ==>
      && 0 < c.region(k).content.instruction.amountMinor
      && c.region(k).content.instruction.packetId == c.region(k).packetId
  }

  /** The text of an outcome, by meaning. */
  datatype Detail =
    | DetailSettled | DetailAlreadySettled | DetailBeingSettled | DetailSchema | DetailSignature
    | DetailTooOld(age: int) | DetailTooFarAhead(ahead: int) | DetailAad | DetailSealed
    | DetailFlaw(flaw: Flaw) | DetailUnexpected

  datatype Outcome = Outcome(
    status: PacketStatus, detail: Detail, code: Option<ErrorCode>, key: Option<Key>,
    packetId: Option<PacketId>, settlementId: Option<nat>, retryable: bool)

  function SettledAs(k: Key, p: PacketId, id: nat): Outcome {
    Outcome(Settled, DetailSettled, None, Some(k), Some(p), Some(id), false)
  }

  function Refusal(code: ErrorCode, detail: Detail, k: Key, p: PacketId): Outcome {
    Outcome(Rejected, detail, Some(code), Some(k), Some(p), None, false)
  }

  const SCHEMA_REFUSAL: Outcome :=
    Outcome(Rejected, DetailSchema, Some(MalformedPayload), None, None, None, false)

  function UnexpectedFailure(k: Key, p: PacketId): Outcome {
    Refusal(InternalError, DetailUnexpected, k, p).(retryable := true)
  }

  function Duplicate(detail: Detail, k: Key, p: PacketId): Outcome {
    Refusal(DuplicatePacket, detail, k, p)
  }

  /** The freshness window, inclusive at both edges. */
  predicate Fresh(c: Config, k: Key, at: int) {
    var age := at - c.region(k).createdAt;
    age <= c.freshnessWindow && -age <= c.clockSkew
  }

  /** Steps 1 to 2b: everything decided before the claim.  `None` lets the packet through. */
  function Screen(c: Config, m: Reading, now: int): Option<Outcome> {
    if m.Malformed? then Some(SCHEMA_REFUSAL)
    else
      var r := c.region(m.key);
      var age := now - r.createdAt;
      if !m.signatureOk then Some(Refusal(InvalidSignature, DetailSignature, m.key, r.packetId))
      else if age > c.freshnessWindow then
        Some(Refusal(PacketExpired, DetailTooOld(age), m.key, r.packetId))
      else if -age > c.clockSkew then
        Some(Refusal(PacketNotYetValid, DetailTooFarAhead(-age), m.key, r.packetId))
      else if !r.aadMatches then Some(Refusal(MalformedPayload, DetailAad, m.key, r.packetId))
      else None
  }

  /** The refusal for an envelope that does not open to a usable instruction. */
  function ContentRefusal(c: Config, k: Key): Option<Outcome> {
    var r := c.region(k);
    match r.content
    case Undecryptable => Some(Refusal(DecryptionFailed, DetailSealed, k, r.packetId))
    case Unusable(flaw) => Some(Refusal(MalformedPayload, DetailFlaw(flaw), k, r.packetId))
    case Opens(_) => None
  }

  /** A settlements row, without its surrogate id and its settlement time. */
  datatype Row = Row(
    key: Key, packetId: PacketId, senderId: string, payerId: string, payeeId: string,
    amountMinor: int, currency: string, packetCreatedAt: int, hopCount: int)

  function RowFor(c: Config, k: Key, hopCount: nat): Row
    requires c.region(k).content.Opens?
  {
    var r := c.region(k);
    var i := r.content.instruction;
    Row(k, r.packetId, r.senderId, i.payerId, i.payeeId, i.amountMinor, i.currency, i.createdAt, hopCount)
  }

  /** The CHECK constraints of the settlements table. */
  predicate MeetsChecks(row: Row) {
    row.amountMinor > 0 && row.hopCount >= 0
  }

  datatype Marker = ClaimedMarker | SettledMarker

  datatype Entry = Entry(marker: Marker, expiry: int)

  type Markers = map<Key, Entry>

  /** The entries still alive at `now`. */
  function Purge(redis: Markers, now: int): Markers {
    map k | k in redis && now < redis[k].expiry :: redis[k]
  }

  /** How one call to Redis or Postgres goes: it works, or it raises without or with its effect. */
  datatype Fault = Works | FailsBefore | FailsAfter
}
