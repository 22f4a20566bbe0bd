/** The packet as a JSON document: how every node writes it and reads it back. */
module Wire {
  import opened Options
  import opened Octets
  import opened Json
  import opened Canonical
  import opened Packets
  import Base64Url
  import Utf8

  function EnvelopeMembers(e: Envelope): seq<Member> {
    [Member("encrypted_key", B64(e.encryptedKey)), Member("nonce", B64(e.nonce)),
     Member("ciphertext", B64(e.ciphertext)), Member("aad", B64(e.aad))]
  }

  function HopMembers(h: Hop): seq<Member> {
    [Member("node_id", Str(h.nodeId)), Member("received_at", Str(TimeText(h.receivedAt)))]
  }

  function HopValues(hops: seq<Hop>): seq<Value> {
    if hops == [] then [] else [Obj(HopMembers(hops[0]))] + HopValues(hops[1..])
  }

  function PacketMembers(p: Packet): seq<Member> {
    [Member("packet_id", Str(p.packetId)), Member("sender_id", Str(p.senderId)),
     Member("created_at", Str(TimeText(p.createdAt))), Member("envelope", Obj(EnvelopeMembers(p.envelope))),
     Member("signature", B64(p.signature)), Member("hops", Arr(HopValues(p.hops)))]
  }

  function Serialise(p: Packet): Bytes {
    Utf8.Encode(Render(Obj(PacketMembers(p))))
  }

  const ENVELOPE_KEYS := ["encrypted_key", "nonce", "ciphertext", "aad"]
  const HOP_KEYS := ["node_id", "received_at"]
  const PACKET_KEYS := ["packet_id", "sender_id", "created_at", "envelope", "signature", "hops"]

  function ReadEnvelope(v: Option<Value>): Option<Envelope> {
    match v
    case Some(Obj(ms)) =>
      (match (BytesField(ms, "encrypted_key"), BytesField(ms, "nonce"),
              BytesField(ms, "ciphertext"), BytesField(ms, "aad"))
       case (Some(k), Some(n), Some(t), Some(a)) =>
         if OnlyKeys(ms, ENVELOPE_KEYS) then Some(Envelope(k, n, t, a)) else None
       case _ => None)
    case _ => None
  }

  function ReadHop(v: Value): Option<Hop> {
    match v
    case Obj(ms) =>
      (match (TextField(ms, "node_id"), TimeField(ms, "received_at"))
       case (Some(node), Some(at)) => if OnlyKeys(ms, HOP_KEYS) then Some(Hop(node, at)) else None
       case _ => None)
    case _ => None
  }

  function ReadHops(vs: seq<Value>): Option<seq<Hop>> {
    if vs == [] then Some([])
    else
      match (ReadHop(vs[0]), ReadHops(vs[1..]))
      case (Some(h), Some(hs)) => Some([h] + hs)
      case _ => None
  }

  /** `hops` may be left out; a packet without it has made none. */
  function ReadHopList(v: Option<Value>): Option<seq<Hop>> {
    match v
    case None => Some([])
    case Some(Arr(vs)) => ReadHops(vs)
    case Some(_) => None
  }

  function ReadPacketMembers(ms: seq<Member>): Option<Packet> {
    match (TextField(ms, "packet_id"), TextField(ms, "sender_id"), TimeField(ms, "created_at"),
           ReadEnvelope(Lookup(ms, "envelope")), BytesField(ms, "signature"), ReadHopList(Lookup(ms, "hops")))
    case (Some(id), Some(sender), Some(at), Some(e), Some(sig), Some(hops)) =>
      var p := Packet(id, sender, at, e, sig, hops);
      if OnlyKeys(ms, PACKET_KEYS) && ValidPacket(p) then Some(p) else None
    case _ => None
  }

  /** Parsing and validating a message body; `None` is a malformed payload. */
  function ParsePacket(raw: Bytes): (r: Option<Packet>)
    ensures r.Some? ==> ValidPacket(r.value)
  {
    match ReadDocument(raw)
    case Some(Obj(ms)) => ReadPacketMembers(ms)
    case _ => None
  }

  lemma EnvelopeFieldsFound(e: Envelope)
    ensures var ms := EnvelopeMembers(e);
      && Lookup(ms, "encrypted_key") == Some(B64(e.encryptedKey)) && Lookup(ms, "nonce") == Some(B64(e.nonce))
      && Lookup(ms, "ciphertext") == Some(B64(e.ciphertext)) && Lookup(ms, "aad") == Some(B64(e.aad))
      && OnlyKeys(ms, ENVELOPE_KEYS)
  {
    var ms := EnvelopeMembers(e);
    assert forall j :: 0 <= j < 4 ==> ms[j].key == ENVELOPE_KEYS[j];
    assert |ms[0].key| == 13 && |ms[1].key| == 5 && |ms[2].key| == 10 && |ms[3].key| == 3;
    hide Base64Url.Encode;
    LookupFinds(ms, 0);
    LookupFinds(ms, 1);
    LookupFinds(ms, 2);
    LookupFinds(ms, 3);
  }

  lemma EnvelopeRoundTrip(e: Envelope)
    ensures ReadEnvelope(Some(Obj(EnvelopeMembers(e)))) == Some(e)
  {
    EnvelopeFieldsFound(e);
    Base64Url.RoundTrip(e.encryptedKey);
    Base64Url.RoundTrip(e.nonce);
    Base64Url.RoundTrip(e.ciphertext);
    Base64Url.RoundTrip(e.aad);
    hide EnvelopeMembers, Lookup, OnlyKeys, Base64Url.Decode, Base64Url.Encode;
  }

  lemma HopRoundTrip(h: Hop)
    ensures ReadHop(Obj(HopMembers(h))) == Some(h)
  {
    var ms := HopMembers(h);
    assert forall j :: 0 <= j < 2 ==> ms[j].key == HOP_KEYS[j];
    assert |ms[0].key| == 7 && |ms[1].key| == 11;
    LookupFinds(ms, 0);
    LookupFinds(ms, 1);
    TimeRoundTrip(h.receivedAt);
  }

  lemma {:induction false} HopsRoundTrip(hops: seq<Hop>)
    ensures ReadHops(HopValues(hops)) == Some(hops)
  {
    if hops != [] {
      HopRoundTrip(hops[0]);
      HopsRoundTrip(hops[1..]);
      assert hops == [hops[0]] + hops[1..];
      assert HopValues(hops)[1..] == HopValues(hops[1..]);
    }
  }

  lemma PacketKeysDiffer(p: Packet)
    ensures DistinctKeys(PacketMembers(p)) && OnlyKeys(PacketMembers(p), PACKET_KEYS)
  {
    var ms := PacketMembers(p);
    assert forall j :: 0 <= j < 6 ==> ms[j].key == PACKET_KEYS[j];
    assert |ms[0].key| == 9 && |ms[1].key| == 9 && |ms[2].key| == 10;
    assert |ms[3].key| == 8 && |ms[4].key| == 9 && |ms[5].key| == 4;
    assert ms[0].key[0] == 'p' && ms[1].key[1] == 'e' && ms[4].key[1] == 'i';
  }

  lemma PacketFieldsFound(p: Packet)
    ensures var ms := PacketMembers(p);
      && Lookup(ms, "packet_id") == Some(Str(p.packetId)) && Lookup(ms, "sender_id") == Some(Str(p.senderId))
      && Lookup(ms, "created_at") == Some(Str(TimeText(p.createdAt)))
      && Lookup(ms, "envelope") == Some(Obj(EnvelopeMembers(p.envelope)))
      && Lookup(ms, "signature") == Some(B64(p.signature)) && Lookup(ms, "hops") == Some(Arr(HopValues(p.hops)))
  {
    var ms := PacketMembers(p);
    PacketKeysDiffer(p);
    LookupFinds(ms, 0);
    LookupFinds(ms, 1);
    LookupFinds(ms, 2);
    LookupFinds(ms, 3);
    LookupFinds(ms, 4);
    LookupFinds(ms, 5);
  }

  lemma PacketMembersRoundTrip(p: Packet)
    requires ValidPacket(p)
    ensures ReadPacketMembers(PacketMembers(p)) == Some(p)
  {
    var ms := PacketMembers(p);
    PacketKeysDiffer(p);
    PacketFieldsFound(p);
    TimeRoundTrip(p.createdAt);
    EnvelopeRoundTrip(p.envelope);
    Base64Url.RoundTrip(p.signature);
    HopsRoundTrip(p.hops);
    hide PacketMembers, EnvelopeMembers, HopValues, Lookup, ReadEnvelope, ReadHops, TimeText, Base64Url.Decode;
  }

  /** Every node reads exactly the packet that was written. */
  lemma PacketRoundTrip(p: Packet)
    requires ValidPacket(p)
    ensures ParsePacket(Serialise(p)) == Some(p)
  {
    ReadWritten(Obj(PacketMembers(p)));
    PacketMembersRoundTrip(p);
  }

  // --- Which documents are packets ---

  predicate Text(ms: seq<Member>, key: string, text: string) {
    Lookup(ms, key) == Some(Str(text))
  }

  predicate Base64Text(ms: seq<Member>, key: string, raw: Bytes) {
    Lookup(ms, key).Some? && Lookup(ms, key).value.Str? && Base64Url.Decode(Lookup(ms, key).value.text) == Some(raw)
  }

  predicate Instant(ms: seq<Member>, key: string, t: int) {
    Lookup(ms, key).Some? && Lookup(ms, key).value.Str? && ReadTime(Lookup(ms, key).value.text) == Some(t)
  }

  lemma FieldsExactly(ms: seq<Member>, key: string)
    ensures forall text :: TextField(ms, key) == Some(text) <==> Text(ms, key, text)
    ensures forall raw :: BytesField(ms, key) == Some(raw) <==> Base64Text(ms, key, raw)
    ensures forall t :: TimeField(ms, key) == Some(t) <==> Instant(ms, key, t)
  {
    hide Lookup, ReadTime, Base64Url.Decode;
  }

  /** Which value is which envelope: four fields of base64url text and no others. */
  lemma EnvelopeExactly(v: Value, e: Envelope)
    ensures ReadEnvelope(Some(v)) == Some(e) <==>
      && v.Obj?
      && Base64Text(v.members, "encrypted_key", e.encryptedKey) && Base64Text(v.members, "nonce", e.nonce)
      && Base64Text(v.members, "ciphertext", e.ciphertext) && Base64Text(v.members, "aad", e.aad)
      && forall j :: 0 <= j < |v.members| ==> v.members[j].key in ["encrypted_key", "nonce", "ciphertext", "aad"]
  {
    hide Lookup, Base64Url.Decode;
  }

  lemma HopExactly(v: Value, h: Hop)
    ensures ReadHop(v) == Some(h) <==>
      && v.Obj? && Text(v.members, "node_id", h.nodeId) && Instant(v.members, "received_at", h.receivedAt)
      && forall j :: 0 <= j < |v.members| ==> v.members[j].key in ["node_id", "received_at"]
  {
    hide Lookup, ReadTime;
  }

  /** The hop list: absent means none, and every entry must be a hop. */
  lemma {:induction false} HopsExactly(vs: seq<Value>, hs: seq<Hop>)
    ensures ReadHops(vs) == Some(hs) <==>
      |vs| == |hs| && forall j :: 0 <= j < |vs| ==> ReadHop(vs[j]) == Some(hs[j])
  {
    hide ReadHop;
    if vs != [] {
      if hs != [] {
        HopsExactly(vs[1..], hs[1..]);
        assert hs == [hs[0]] + hs[1..];
        assert forall j :: 0 <= j < |vs| - 1 ==> vs[1..][j] == vs[j + 1];
        if |vs| == |hs| {
          assert (forall j :: 0 <= j < |vs| ==> ReadHop(vs[j]) == Some(hs[j])) <==>
            (ReadHop(vs[0]) == Some(hs[0])
             && forall j :: 0 <= j < |vs| - 1 ==> ReadHop(vs[1..][j]) == Some(hs[1..][j]));
        }
      }
    }
  }

  /** The fields of a packet document. */
  predicate PacketFields(ms: seq<Member>, p: Packet) {
    && Text(ms, "packet_id", p.packetId) && Text(ms, "sender_id", p.senderId)
    && Instant(ms, "created_at", p.createdAt) && Base64Text(ms, "signature", p.signature)
    && Lookup(ms, "envelope").Some? && ReadEnvelope(Lookup(ms, "envelope")) == Some(p.envelope)
    && (if Lookup(ms, "hops").None? then p.hops == []
        else Lookup(ms, "hops").value.Arr? && ReadHops(Lookup(ms, "hops").value.items) == Some(p.hops))
  }

  /** Which object is which packet: the fields of the schema, none beside them, and the validators met. */
  lemma PacketExactly(ms: seq<Member>, p: Packet)
    ensures ReadPacketMembers(ms) == Some(p) <==>
      && PacketFields(ms, p) && ValidPacket(p)
      && forall j :: 0 <= j < |ms| ==>
           ms[j].key in ["packet_id", "sender_id", "created_at", "envelope", "signature", "hops"]
  {
    FieldsRead(ms, p);
    assert OnlyKeys(ms, PACKET_KEYS) <==> forall j :: 0 <= j < |ms| ==>
      ms[j].key in ["packet_id", "sender_id", "created_at", "envelope", "signature", "hops"];
    hide OnlyKeys, Lookup, ReadEnvelope, ReadHopList, ValidPacket, PacketFields, TextField, BytesField, TimeField;
  }

  lemma FieldsRead(ms: seq<Member>, p: Packet)
    ensures PacketFields(ms, p) <==>
      && TextField(ms, "packet_id") == Some(p.packetId) && TextField(ms, "sender_id") == Some(p.senderId)
      && TimeField(ms, "created_at") == Some(p.createdAt) && BytesField(ms, "signature") == Some(p.signature)
      && ReadEnvelope(Lookup(ms, "envelope")) == Some(p.envelope)
      && ReadHopList(Lookup(ms, "hops")) == Some(p.hops)
  {
    FieldsExactly(ms, "packet_id");
    FieldsExactly(ms, "sender_id");
    FieldsExactly(ms, "created_at");
    FieldsExactly(ms, "signature");
    assert Lookup(ms, "envelope").None? ==> ReadEnvelope(Lookup(ms, "envelope")).None?;
    hide Lookup, ReadEnvelope, ReadHops, Text, Base64Text, Instant, TextField, BytesField, TimeField;
  }
}
