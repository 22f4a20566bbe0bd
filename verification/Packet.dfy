/**
  The packet format: instruction, envelope, signed region, wire form.

  Cryptography is symbolic.  A `Suite` is any family of functions for one sender key and one
  settlement key; what is assumed about it is spelled out in the `...Law` predicates, and no lemma uses
  a law it does not require.
*/
module Packets {
  import opened Options
  import opened Octets
  import opened Domain
  import opened Json
  import opened Canonical
  import Base64Url
  import Utf8

  datatype Envelope = Envelope(encryptedKey: Bytes, nonce: Bytes, ciphertext: Bytes, aad: Bytes)

  datatype Hop = Hop(nodeId: string, receivedAt: int)

  datatype Packet = Packet(
    packetId: PacketId, senderId: string, createdAt: int, envelope: Envelope, signature: Bytes, hops: seq<Hop>)

  /** What sealing yields; the additional data is not part of it. */
  datatype Sealed = Sealed(encryptedKey: Bytes, nonce: Bytes, ciphertext: Bytes)

  datatype Suite = Suite(
    sign: Bytes -> Bytes,
    verify: (Bytes, Bytes) -> bool,              // message, signature
    seal: (Bytes, Bytes, Bytes) -> Sealed,       // plaintext, additional data, randomness
    open: (Sealed, Bytes) -> Option<Bytes>,      // sealed text, additional data
    digest: Bytes -> string)

  /** Ed25519 (section 5.1 of RFC 8032): signatures are 64 bytes and verify. */
  ghost predicate SignatureLaw(s: Suite) {
    forall m :: |s.sign(m)| == 64 && s.verify(m, s.sign(m))
  }

  /** RSAES-OAEP key transport (section 7.1 of RFC 8017) with AES-GCM: what was sealed opens again. */
  ghost predicate SealingLaw(s: Suite) {
    forall plain, aad, seed ::
      var e := s.seal(plain, aad, seed);
      |e.nonce| == 12 && e.encryptedKey != [] && e.ciphertext != [] && s.open(e, aad) == Some(plain)
  }

  /** AEAD (section 2 of RFC 5116): a sealed text opens under one additional data only. */
  ghost predicate BindingLaw(s: Suite) {
    forall e, a, b :: s.open(e, a).Some? && s.open(e, b).Some? ==> a == b
  }

  /** SHA-256 taken as collision-free. */
  ghost predicate CollisionFree(s: Suite) {
    forall a, b :: s.digest(a) == s.digest(b) ==> a == b
  }

  // --- Validators ---

  predicate IsIdentifierChar(ch: char) {
    'A' <= ch <= 'Z' || 'a' <= ch <= 'z' || '0' <= ch <= '9' || ch == '_' || ch == '.' || ch == ':' || ch == '-'
  }

  predicate IsIdentifier(text: string) {
    1 <= |text| <= 64 && forall i :: 0 <= i < |text| ==> IsIdentifierChar(text[i])
  }

  /** The canonical spelling of a UUID. */
  predicate IsUuid(text: string) {
    |text| == 36 && forall i :: 0 <= i < 36 ==>
      if i == 8 || i == 13 || i == 18 || i == 23 then text[i] == '-'
      else '0' <= text[i] <= '9' || 'a' <= text[i] <= 'f'
  }

  predicate IsCurrency(text: string) {
    |text| == 3 && forall i :: 0 <= i < 3 ==> 'A' <= text[i] <= 'Z'
  }

  const MAX_AMOUNT_MINOR := 1_000_000_000_000

  predicate ValidInstruction(i: Instruction) {
    && IsUuid(i.packetId) && IsIdentifier(i.payerId) && IsIdentifier(i.payeeId)
    && 0 < i.amountMinor <= MAX_AMOUNT_MINOR && IsCurrency(i.currency) && i.payerId != i.payeeId
  }

  predicate ValidEnvelope(e: Envelope) {
    |e.nonce| == 12 && e.encryptedKey != [] && e.ciphertext != [] && e.aad != []
  }

  predicate ValidPacket(p: Packet) {
    && IsUuid(p.packetId) && IsIdentifier(p.senderId) && ValidEnvelope(p.envelope) && |p.signature| == 64
    && forall i :: 0 <= i < |p.hops| ==> IsIdentifier(p.hops[i].nodeId)
  }

  // --- Fields of a JSON object ---

  /** The value under a key; a repeated key means its last occurrence. */
  function Lookup(members: seq<Member>, key: string): Option<Value> {
    if members == [] then None
    else if members[|members| - 1].key == key then Some(members[|members| - 1].value)
    else Lookup(members[..|members| - 1], key)
  }

  lemma {:induction false} LookupFinds(members: seq<Member>, i: nat)
    requires DistinctKeys(members) && i < |members|
    ensures Lookup(members, members[i].key) == Some(members[i].value)
  {
    if i < |members| - 1 {
      LookupFinds(members[..|members| - 1], i);
    }
  }

  /** Sorting does not change what a lookup finds, nor which keys there are. */
  lemma LookupSorted(members: seq<Member>, i: nat)
    requires DistinctKeys(members) && i < |members|
    ensures Lookup(Sort(members), members[i].key) == Some(members[i].value)
  {
    SortSorts(members);
    var sorted := Sort(members);
    assert members[i] in Items(sorted);
    var j :| 0 <= j < |sorted| && sorted[j] == members[i];
    forall a, b | 0 <= a < b < |sorted| ensures sorted[a].key != sorted[b].key {
      BeforeIsTotal(sorted[a].key, sorted[b].key);
    }
    LookupFinds(sorted, j);
  }

  predicate OnlyKeys(members: seq<Member>, keys: seq<string>) {
    forall i :: 0 <= i < |members| ==> members[i].key in keys
  }

  lemma OnlyKeysSorted(members: seq<Member>, keys: seq<string>)
    requires DistinctKeys(members) && OnlyKeys(members, keys)
    ensures OnlyKeys(Sort(members), keys)
  {
    SortSorts(members);
    forall i | 0 <= i < |Sort(members)| ensures Sort(members)[i].key in keys {
      assert Sort(members)[i] in Items(members);
    }
  }

  function TextField(members: seq<Member>, key: string): Option<string> {
    match Lookup(members, key)
    case Some(Str(text)) => Some(text)
    case _ => None
  }

  function BytesField(members: seq<Member>, key: string): Option<Bytes> {
    match Lookup(members, key)
    case Some(Str(text)) => Base64Url.Decode(text)
    case _ => None
  }

  /** An instant, as its decimal count of microseconds. */
  function TimeField(members: seq<Member>, key: string): Option<int> {
    match Lookup(members, key)
    case Some(Str(text)) => ReadTime(text)
    case _ => None
  }

  function TimeText(t: int): string {
    IntText(t)
  }

  function ReadTime(text: string): Option<int> {
    match ReadInt(text)
    case Some((t, "")) => Some(t)
    case _ => None
  }

  lemma TimeRoundTrip(t: int)
    ensures ReadTime(TimeText(t)) == Some(t)
  {
    ReadIntText(t, "");
    assert IntText(t) + "" == IntText(t);
  }

  // --- The instruction ---

  function InstructionMembers(i: Instruction): seq<Member> {
    [Member("packet_id", Str(i.packetId)), Member("payer_id", Str(i.payerId)), Member("payee_id", Str(i.payeeId)),
     Member("amount_minor", Num(i.amountMinor)), Member("currency", Str(i.currency)),
     Member("created_at", Str(TimeText(i.createdAt)))]
  }

  const INSTRUCTION_KEYS := ["packet_id", "payer_id", "payee_id", "amount_minor", "currency", "created_at"]

  function InstructionBytes(i: Instruction): Bytes {
    CanonicalJson(InstructionMembers(i))
  }

  datatype InstructionResult = Good(instruction: Instruction) | Bad(flaw: Flaw)

  function InstructionFromMembers(ms: seq<Member>): InstructionResult {
    var currency := if Lookup(ms, "currency").None? then Some("INR") else TextField(ms, "currency");
    match (TextField(ms, "packet_id"), TextField(ms, "payer_id"), TextField(ms, "payee_id"),
           Lookup(ms, "amount_minor"), currency, TimeField(ms, "created_at"))
    case (Some(id), Some(payer), Some(payee), Some(Num(amount)), Some(cur), Some(at)) =>
      var i := Instruction(id, payer, payee, amount, cur, at);
      if OnlyKeys(ms, INSTRUCTION_KEYS) && ValidInstruction(i) then Good(i) else Bad(InvalidInstruction)
    case _ => Bad(InvalidInstruction)
  }

  function InstructionFromBytes(raw: Bytes): InstructionResult {
    match ReadDocument(raw)
    case None => Bad(NotJson)
    case Some(Obj(members)) => InstructionFromMembers(members)
    case Some(_) => Bad(NotAnObject)
  }

  lemma InstructionKeysDiffer(i: Instruction)
    ensures DistinctKeys(InstructionMembers(i)) && OnlyKeys(InstructionMembers(i), INSTRUCTION_KEYS)
  {
    var ms := InstructionMembers(i);
    assert forall j :: 0 <= j < 6 ==> ms[j].key == INSTRUCTION_KEYS[j];
    assert |INSTRUCTION_KEYS[0]| == 9 && |INSTRUCTION_KEYS[1]| == 8 && |INSTRUCTION_KEYS[2]| == 8;
    assert |INSTRUCTION_KEYS[3]| == 12 && |INSTRUCTION_KEYS[4]| == 8 && |INSTRUCTION_KEYS[5]| == 10;
    assert INSTRUCTION_KEYS[1][2] == 'y' && INSTRUCTION_KEYS[2][2] == 'y';
    assert INSTRUCTION_KEYS[1][4] == 'r' && INSTRUCTION_KEYS[2][4] == 'e' && INSTRUCTION_KEYS[4][0] == 'c';
  }

  lemma InstructionFieldsFound(i: Instruction)
    ensures var ms := Sort(InstructionMembers(i));
      && Lookup(ms, "packet_id") == Some(Str(i.packetId)) && Lookup(ms, "payer_id") == Some(Str(i.payerId))
      && Lookup(ms, "payee_id") == Some(Str(i.payeeId)) && Lookup(ms, "amount_minor") == Some(Num(i.amountMinor))
      && Lookup(ms, "currency") == Some(Str(i.currency))
      && Lookup(ms, "created_at") == Some(Str(TimeText(i.createdAt)))
      && OnlyKeys(ms, INSTRUCTION_KEYS)
  {
    var ms := InstructionMembers(i);
    InstructionKeysDiffer(i);
    OnlyKeysSorted(ms, INSTRUCTION_KEYS);
    hide TimeText;
    LookupSorted(ms, 0);
    LookupSorted(ms, 1);
    LookupSorted(ms, 2);
    LookupSorted(ms, 3);
    LookupSorted(ms, 4);
    LookupSorted(ms, 5);
  }

  /** A valid instruction comes back from its canonical bytes unchanged. */
  lemma InstructionRoundTrip(i: Instruction)
    requires ValidInstruction(i)
    ensures InstructionFromBytes(InstructionBytes(i)) == Good(i)
  {
    ReadCanonical(InstructionMembers(i));
    InstructionFieldsFound(i);
    TimeRoundTrip(i.createdAt);
    hide InstructionMembers, Lookup, OnlyKeys, Sort, CanonicalJson, ReadDocument, ReadTime, TimeText, IsUuid,
      IsIdentifier, IsCurrency;
  }

  // --- The signed region ---

  function AadMembers(packetId: PacketId, senderId: string): seq<Member> {
    [Member("packet_id", Str(packetId)), Member("sender_id", Str(senderId))]
  }

  function BuildAad(packetId: PacketId, senderId: string): Bytes {
    CanonicalJson(AadMembers(packetId, senderId))
  }

  /** The additional data names exactly one packet id and one sender. */
  lemma AadInjective(p: PacketId, s: string, q: PacketId, t: string)
    requires BuildAad(p, s) == BuildAad(q, t)
    ensures p == q && s == t
  {
    var a, b := AadMembers(p, s), AadMembers(q, t);
    assert a[0].key[0] == 'p' && a[1].key[0] == 's' && b[0].key[0] == 'p' && b[1].key[0] == 's';
    SameShape(a, b);
    assert a[0] == b[0] && a[1] == b[1];
  }

  function B64(raw: Bytes): Value {
    Str(Base64Url.Encode(raw))
  }

  function SigningMembers(p: Packet): seq<Member> {
    [Member("packet_id", Str(p.packetId)), Member("sender_id", Str(p.senderId)),
     Member("created_at", Str(TimeText(p.createdAt))), Member("encrypted_key", B64(p.envelope.encryptedKey)),
     Member("nonce", B64(p.envelope.nonce)), Member("ciphertext", B64(p.envelope.ciphertext)),
     Member("aad", B64(p.envelope.aad))]
  }

  function SigningBytes(p: Packet): Bytes {
    CanonicalJson(SigningMembers(p))
  }

  /** The seven signed fields. */
  function SignedFields(p: Packet): (PacketId, string, int, Envelope) {
    (p.packetId, p.senderId, p.createdAt, p.envelope)
  }

  lemma SigningKeysDiffer(p: Packet)
    ensures DistinctKeys(SigningMembers(p))
  {
    var ms := SigningMembers(p);
    assert |ms[0].key| == 9 && |ms[1].key| == 9 && |ms[2].key| == 10 && |ms[3].key| == 13;
    assert |ms[4].key| == 5 && |ms[5].key| == 10 && |ms[6].key| == 3;
    assert ms[0].key[0] == 'p' && ms[1].key[0] == 's' && ms[2].key[1] == 'r' && ms[5].key[1] == 'i';
  }

  /** Two packets have the same signing bytes exactly when all seven signed fields agree. */
  lemma SigningBytesExactly(p: Packet, q: Packet)
    ensures SigningBytes(p) == SigningBytes(q) <==> SignedFields(p) == SignedFields(q)
  {
    if SigningBytes(p) == SigningBytes(q) {
      var a, b := SigningMembers(p), SigningMembers(q);
      SigningKeysDiffer(p);
      SigningKeysDiffer(q);
      SameShape(a, b);
      assert a[0] == b[0] && a[1] == b[1] && a[2] == b[2] && a[3] == b[3];
      assert a[4] == b[4] && a[5] == b[5] && a[6] == b[6];
      TimeRoundTrip(p.createdAt);
      TimeRoundTrip(q.createdAt);
      Base64Url.EncodeInjective(p.envelope.encryptedKey, q.envelope.encryptedKey);
      Base64Url.EncodeInjective(p.envelope.nonce, q.envelope.nonce);
      Base64Url.EncodeInjective(p.envelope.ciphertext, q.envelope.ciphertext);
      Base64Url.EncodeInjective(p.envelope.aad, q.envelope.aad);
    }
  }

  const KEY_PREFIX := "settle:"

  function IdempotencyKey(s: Suite, p: Packet): Key {
    KEY_PREFIX + s.digest(SigningBytes(p))
  }

  /** With a collision-free digest the dedupe key stands for the signed fields, no more and no less. */
  lemma KeyExactly(s: Suite, p: Packet, q: Packet)
    requires CollisionFree(s)
    ensures IdempotencyKey(s, p) == IdempotencyKey(s, q) <==> SignedFields(p) == SignedFields(q)
  {
    SigningBytesExactly(p, q);
    if IdempotencyKey(s, p) == IdempotencyKey(s, q) {
      assert s.digest(SigningBytes(p)) == IdempotencyKey(s, p)[|KEY_PREFIX|..];
      assert s.digest(SigningBytes(q)) == IdempotencyKey(s, q)[|KEY_PREFIX|..];
    }
  }

  // --- Creating, verifying, opening ---

  predicate Verifies(s: Suite, p: Packet) {
    s.verify(SigningBytes(p), p.signature)
  }

  function AppendHop(p: Packet, hop: Hop): Packet {
    p.(hops := p.hops + [hop])
  }

  function Create(s: Suite, i: Instruction, senderId: string, createdAt: int, seed: Bytes): Packet {
    var aad := BuildAad(i.packetId, senderId);
    var e := s.seal(InstructionBytes(i), aad, seed);
    var bare := Packet(i.packetId, senderId, createdAt, Envelope(e.encryptedKey, e.nonce, e.ciphertext, aad), [], []);
    bare.(signature := s.sign(SigningBytes(bare)))
  }

  function OpenEnvelope(s: Suite, e: Envelope): Option<Bytes> {
    s.open(Sealed(e.encryptedKey, e.nonce, e.ciphertext), e.aad)
  }

  function OpenInstruction(s: Suite, p: Packet): Content {
    match OpenEnvelope(s, p.envelope)
    case None => Undecryptable
    case Some(plain) =>
      match InstructionFromBytes(plain)
      case Bad(flaw) => Unusable(flaw)
      case Good(i) => if i.packetId != p.packetId then Unusable(PacketIdMismatch) else Opens(i)
  }

  /**
    What opening reports, from the decryption and the plaintext alone: undecryptable exactly when the
    envelope does not open; a mismatch exactly when it opens to a valid instruction for another packet id;
    otherwise the plaintext's own flaw or its instruction.
  */
  lemma OpeningExactly(s: Suite, p: Packet)
    ensures var e := p.envelope;
      var plain := s.open(Sealed(e.encryptedKey, e.nonce, e.ciphertext), e.aad);
      && (OpenInstruction(s, p) == Undecryptable <==> plain.None?)
      && (OpenInstruction(s, p) == Unusable(PacketIdMismatch) <==>
            plain.Some? && InstructionFromBytes(plain.value).Good?
            && InstructionFromBytes(plain.value).instruction.packetId != p.packetId)
      && (forall flaw :: flaw != PacketIdMismatch ==>
            (OpenInstruction(s, p) == Unusable(flaw) <==>
               plain.Some? && InstructionFromBytes(plain.value) == Bad(flaw)))
      && (forall i :: OpenInstruction(s, p) == Opens(i) <==>
            plain.Some? && InstructionFromBytes(plain.value) == Good(i) && i.packetId == p.packetId)
  {
    var plain := OpenEnvelope(s, p.envelope);
    if plain.Some? {
      FlawsExactly(plain.value);
    }
    hide InstructionFromBytes;
  }

  /** Which flaw a plaintext has. */
  lemma FlawsExactly(raw: Bytes)
    ensures InstructionFromBytes(raw) == Bad(NotJson) <==> ReadDocument(raw).None?
    ensures InstructionFromBytes(raw) == Bad(NotAnObject) <==> ReadDocument(raw).Some? && !ReadDocument(raw).value.Obj?
    ensures InstructionFromBytes(raw) != Bad(PacketIdMismatch)
  {
    hide ReadDocument, Lookup, TimeField, ValidInstruction;
  }

  /**
    Which object is which instruction: six fields of the right kind and no others, the currency INR when it
    is left out, and the validators met.
  */
  lemma InstructionExactly(ms: seq<Member>, i: Instruction)
    ensures InstructionFromMembers(ms) == Good(i) <==>
      && Lookup(ms, "packet_id") == Some(Str(i.packetId)) && Lookup(ms, "payer_id") == Some(Str(i.payerId))
      && Lookup(ms, "payee_id") == Some(Str(i.payeeId)) && Lookup(ms, "amount_minor") == Some(Num(i.amountMinor))
      && (Lookup(ms, "currency") == Some(Str(i.currency)) || (Lookup(ms, "currency").None? && i.currency == "INR"))
      && Lookup(ms, "created_at").Some? && Lookup(ms, "created_at").value.Str?
      && ReadTime(Lookup(ms, "created_at").value.text) == Some(i.createdAt)
      && (forall j :: 0 <= j < |ms| ==>
            ms[j].key in ["packet_id", "payer_id", "payee_id", "amount_minor", "currency", "created_at"])
      && ValidInstruction(i)
  {
    hide Lookup, ReadTime, ValidInstruction;
  }

  /** A key given twice counts as given last. */
  lemma LookupLast(ms: seq<Member>, key: string, value: Value)
    ensures Lookup(ms + [Member(key, value)], key) == Some(value)
  {
  }

  function ExpectedAad(p: Packet): Bytes {
    BuildAad(p.packetId, p.senderId)
  }

  lemma CanonicalNotEmpty(ms: seq<Member>)
    ensures CanonicalJson(ms) != []
  {
    var text := Render(Obj(Sort(ms)));
    assert text != "" && Utf8.Encode(text) == Utf8.EncodeChar(text[0]) + Utf8.Encode(text[1..]);
  }

  /** A created packet is valid, verifies, matches its own additional data, and opens to its instruction. */
  lemma CreatedPacketOpens(s: Suite, i: Instruction, senderId: string, createdAt: int, seed: Bytes)
    requires SignatureLaw(s) && SealingLaw(s)
    requires ValidInstruction(i) && IsIdentifier(senderId)
    ensures var p := Create(s, i, senderId, createdAt, seed);
      && ValidPacket(p) && Verifies(s, p) && p.envelope.aad == ExpectedAad(p)
      && OpenInstruction(s, p) == Opens(i)
  {
    var p := Create(s, i, senderId, createdAt, seed);
    SigningBytesExactly(p, p.(signature := []));
    CanonicalNotEmpty(AadMembers(i.packetId, senderId));
    InstructionRoundTrip(i);
  }

  /** Lifting a sealed envelope under another header shows: the additional data no longer match or do not open. */
  lemma LiftedEnvelopeIsRefused(s: Suite, p: Packet, q: Packet)
    requires BindingLaw(s)
    requires OpenEnvelope(s, p.envelope).Some? && p.envelope.aad == ExpectedAad(p)
    requires Sealed(q.envelope.encryptedKey, q.envelope.nonce, q.envelope.ciphertext)
          == Sealed(p.envelope.encryptedKey, p.envelope.nonce, p.envelope.ciphertext)
    requires q.packetId != p.packetId || q.senderId != p.senderId
    ensures q.envelope.aad != ExpectedAad(q) || OpenEnvelope(s, q.envelope).None?
  {
    if q.envelope.aad == ExpectedAad(q) && OpenEnvelope(s, q.envelope).Some? {
      assert q.envelope.aad == p.envelope.aad;
      AadInjective(p.packetId, p.senderId, q.packetId, q.senderId);
    }
  }

  /** A hop changes neither the signed fields nor the key nor the verdict on the signature. */
  lemma HopsAreOutside(s: Suite, p: Packet, hop: Hop)
    ensures SigningBytes(AppendHop(p, hop)) == SigningBytes(p)
    ensures IdempotencyKey(s, AppendHop(p, hop)) == IdempotencyKey(s, p)
    ensures Verifies(s, AppendHop(p, hop)) == Verifies(s, p)
  {
    assert SigningMembers(AppendHop(p, hop)) == SigningMembers(p);
  }
}
