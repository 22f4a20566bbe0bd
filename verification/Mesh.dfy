/**
  The relay mesh and the bridge: a packet is verified, given a hop record, written out and posted to
  the next node, over any graph of relays, until a node with connectivity hands it to the bridge.
  Requests and replies may be lost on every link.
*/
module Mesh {
  import opened Options
  import opened Octets
  import opened Domain
  import opened Packets
  import opened Wire

  datatype RelayConfig = RelayConfig(
    nodeId: string, nextRelay: string, bridge: string, hopCountTarget: nat, hopLimit: nat)
  {
    /** Where a packet goes after this hop, and the status to report. */
    function NextDestination(hopCount: nat): (Destination, PacketStatus) {
      if hopCount >= hopCountTarget then (ToBridge(bridge), Bridged) else (ToRelay(nextRelay), Relayed)
    }
  }

  datatype Destination = ToBridge(url: string) | ToRelay(url: string)

  /** Any graph of relays; `ceiling` bounds their hop limits. */
  datatype Network = Network(relays: map<string, RelayConfig>, bridges: set<string>, ceiling: nat)

  ghost predicate Bounded(net: Network) {
    forall url :: url in net.relays ==> net.relays[url].hopLimit <= net.ceiling
  }

  /** What becomes of one POST. */
  datatype Link = Carries | LosesRequest | LosesReply | Throttles

  /** What becomes of a publish: an unconfirmed message may be on the queue or not. */
  datatype Confirm = Confirmed | UnconfirmedLost | UnconfirmedKept

  /** The surroundings of one submission; links and clocks by the hop count at which they are met. */
  datatype Weather = Weather(link: nat -> Link, confirm: Confirm, clock: nat -> int)

  datatype Reply = Accepted(status: PacketStatus, hopCount: nat) | Failed(http: nat)

  datatype Message = Message(body: Bytes, messageId: Key)

  /** One POST of a body to the next node. */
  datatype Post = Post(destination: Destination, body: Bytes)

  /** What an HTTP client makes of a call: any failure on the way is a 502 of its own. */
  function Posted(link: Link, answer: Reply, published: seq<Message>, posts: seq<Post>, onSuccess: Reply)
    : (Reply, seq<Message>, seq<Post>)
  {
    match link
    case LosesRequest | Throttles => (Failed(502), [], [])
    case LosesReply => (Failed(502), published, posts)
    case Carries => (if answer.Accepted? then onSuccess else Failed(502), published, posts)
  }

  function BridgeReply(s: Suite, body: Bytes, confirm: Confirm): (Reply, seq<Message>) {
    match ParsePacket(body)
    case None => (Failed(422), [])
    case Some(p) =>
      if !Verifies(s, p) then (Failed(400), [])
      else
        var message := Message(Serialise(p), IdempotencyKey(s, p));
        match confirm
        case Confirmed => (Accepted(Bridged, |p.hops|), [message])
        case UnconfirmedLost => (Failed(503), [])
        case UnconfirmedKept => (Failed(503), [message])
  }

  function HopsIn(body: Bytes): nat {
    match ParsePacket(body)
    case None => 0
    case Some(p) => |p.hops|
  }

  /** How many more hops the limits allow. */
  function Remaining(net: Network, body: Bytes): nat {
    if HopsIn(body) <= net.ceiling then net.ceiling + 1 - HopsIn(body) else 0
  }

  /** The packet after this node's hop. */
  function Hopped(cfg: RelayConfig, p: Packet, at: int): Packet {
    AppendHop(p, Hop(cfg.nodeId, at))
  }

  /** The next node reads exactly what this node wrote. */
  lemma HopArrives(cfg: RelayConfig, p: Packet, at: int)
    requires ValidPacket(p) && IsIdentifier(cfg.nodeId)
    ensures ParsePacket(Serialise(Hopped(cfg, p, at))) == Some(Hopped(cfg, p, at))
    ensures |Hopped(cfg, p, at).hops| == |p.hops| + 1
  {
    PacketRoundTrip(Hopped(cfg, p, at));
  }

  /**
    The relay handler, and with it the whole chain behind it: the reply, what is enqueued, and every POST
    made on the way, in order.  The chain ends because every hop brings the packet nearer to the largest
    limit.
  */
  function RelayReply(net: Network, s: Suite, url: string, body: Bytes, weather: Weather)
    : (Reply, seq<Message>, seq<Post>)
    requires Bounded(net) && url in net.relays
    decreases Remaining(net, body)
  {
    var cfg := net.relays[url];
    match ParsePacket(body)
    case None => (Failed(422), [], [])
    case Some(p) =>
      if !Verifies(s, p) then (Failed(400), [], [])
      else if |p.hops| >= cfg.hopLimit then (Failed(400), [], [])
      else if !IsIdentifier(cfg.nodeId) then (Failed(500), [], [])
      else
        var q := Hopped(cfg, p, weather.clock(|p.hops|));
        var (destination, status) := cfg.NextDestination(|q.hops|);
        var out := Serialise(q);
        HopArrives(cfg, p, weather.clock(|p.hops|));
        var (answer, published, posts) :=
          match destination
          case ToBridge(u) =>
            var (answer, published) :=
              if u in net.bridges then BridgeReply(s, out, weather.confirm) else (Failed(502), []);
            (answer, published, [])
          case ToRelay(u) => if u in net.relays then RelayReply(net, s, u, out, weather) else (Failed(502), [], []);
        var (reply, kept, further) :=
          Posted(weather.link(|p.hops|), answer, published, posts, Accepted(status, |q.hops|));
        (reply, kept, [Post(destination, out)] + further)
  }

  // --- The handlers as they run ---

  class Broker {
    var queue: seq<Message>

    constructor ()
      ensures queue == []
    {
      queue := [];
    }

    /** Publish with confirmation; `false` is a PublishError. */
    method Publish(message: Message, confirm: Confirm) returns (ok: bool)
      modifies this
      ensures ok == confirm.Confirmed?
      ensures queue == if confirm.UnconfirmedLost? then old(queue) else old(queue) + [message]
    {
      if !confirm.UnconfirmedLost? {
        queue := queue + [message];
      }
      ok := confirm.Confirmed?;
    }
  }

  /** The HTTP clients of all nodes, and what they have sent. */
  class Client {
    var sent: seq<Post>

    constructor ()
      ensures sent == []
    {
      sent := [];
    }

    method Send(destination: Destination, body: Bytes)
      modifies this
      ensures sent == old(sent) + [Post(destination, body)]
    {
      sent := sent + [Post(destination, body)];
    }
  }

  method Bridge(s: Suite, body: Bytes, confirm: Confirm, broker: Broker) returns (reply: Reply)
    modifies broker
    ensures reply == BridgeReply(s, body, confirm).0
    ensures broker.queue == old(broker.queue) + BridgeReply(s, body, confirm).1
  {
    var packet := ParsePacket(body);
    if packet.None? {
      return Failed(422);
    }
    var p := packet.value;
    if !Verifies(s, p) {
      return Failed(400);
    }
    var ok := broker.Publish(Message(Serialise(p), IdempotencyKey(s, p)), confirm);
    reply := if ok then Accepted(Bridged, |p.hops|) else Failed(503);
  }

  method Relay(net: Network, s: Suite, url: string, body: Bytes, weather: Weather, broker: Broker, client: Client)
    returns (reply: Reply)
    requires Bounded(net) && url in net.relays
    modifies broker, client
    ensures reply == RelayReply(net, s, url, body, weather).0
    ensures broker.queue == old(broker.queue) + RelayReply(net, s, url, body, weather).1
    ensures client.sent == old(client.sent) + RelayReply(net, s, url, body, weather).2
    decreases Remaining(net, body)
  {
    hide ParsePacket, Serialise, IsIdentifier, Verifies, IdempotencyKey;
    var cfg := net.relays[url];
    var packet := ParsePacket(body);
    if packet.None? {
      return Failed(422);
    }
    var p := packet.value;
    if !Verifies(s, p) || |p.hops| >= cfg.hopLimit {
      return Failed(400);
    }
    if !IsIdentifier(cfg.nodeId) {
      return Failed(500);
    }
    var q := Hopped(cfg, p, weather.clock(|p.hops|));
    HopArrives(cfg, p, weather.clock(|p.hops|));
    var (destination, status) := cfg.NextDestination(|q.hops|);
    var link := weather.link(|p.hops|);
    client.Send(destination, Serialise(q));
    if link.LosesRequest? || link.Throttles? {
      return Failed(502);
    }
    var answer := Failed(502);
    match destination {
      case ToBridge(u) =>
        if u in net.bridges {
          answer := Bridge(s, Serialise(q), weather.confirm, broker);
        }
      case ToRelay(u) =>
        if u in net.relays {
          answer := Relay(net, s, u, Serialise(q), weather, broker, client);
        }
    }
    reply := if link.Carries? && answer.Accepted? then Accepted(status, |q.hops|) else Failed(502);
  }

  // --- What each node refuses, and what it does with the rest ---

  /** The bridge's answer, code by code, and what it enqueues. */
  lemma BridgeExactly(s: Suite, body: Bytes, confirm: Confirm)
    ensures var (reply, published) := BridgeReply(s, body, confirm);
      && (reply == Failed(422) <==> ParsePacket(body).None?)
      && (reply == Failed(400) <==> ParsePacket(body).Some? && !Verifies(s, ParsePacket(body).value))
      && (reply == Failed(503) <==>
            ParsePacket(body).Some? && Verifies(s, ParsePacket(body).value) && confirm != Confirmed)
      && (reply.Accepted? <==>
            ParsePacket(body).Some? && Verifies(s, ParsePacket(body).value) && confirm == Confirmed)
      && (reply.Accepted? ==> reply == Accepted(Bridged, |ParsePacket(body).value.hops|))
      && published ==
           if ParsePacket(body).Some? && Verifies(s, ParsePacket(body).value) && confirm != UnconfirmedLost
           then [Message(Serialise(ParsePacket(body).value), IdempotencyKey(s, ParsePacket(body).value))]
           else []
  {
    hide ParsePacket, Serialise, Verifies, IdempotencyKey;
  }

  /** A relay passes on a body that parses, verifies, is below the limit and can be given a hop record. */
  predicate PassesOn(cfg: RelayConfig, s: Suite, body: Bytes) {
    && ParsePacket(body).Some? && Verifies(s, ParsePacket(body).value)
    && |ParsePacket(body).value.hops| < cfg.hopLimit && IsIdentifier(cfg.nodeId)
  }

  /**
    The entry relay's refusals, code by code, over any graph and with any losses; and what is refused is
    sent to no other node and enqueued nowhere.
  */
  lemma RefusalsExactly(net: Network, s: Suite, url: string, body: Bytes, weather: Weather)
    requires Bounded(net) && url in net.relays
    ensures var cfg := net.relays[url]; var packet := ParsePacket(body);
      var (reply, published, posts) := RelayReply(net, s, url, body, weather);
      && (reply == Failed(422) <==> packet.None?)
      && (reply == Failed(400) <==>
            packet.Some? && (!Verifies(s, packet.value) || |packet.value.hops| >= cfg.hopLimit))
      && (reply == Failed(500) <==>
            && packet.Some? && Verifies(s, packet.value) && |packet.value.hops| < cfg.hopLimit
            && !IsIdentifier(cfg.nodeId))
      && (PassesOn(cfg, s, body) <==> reply.Accepted? || reply == Failed(502))
      && (posts == [] <==> !PassesOn(cfg, s, body)) && (posts == [] ==> published == [])
  {
    hide ParsePacket, Serialise, IsIdentifier, Verifies, IdempotencyKey, Hopped;
  }

  /** What the next node answers, enqueues and posts, if the request reaches it. */
  function NextAnswer(net: Network, s: Suite, post: Post, weather: Weather): (Reply, seq<Message>, seq<Post>)
    requires Bounded(net)
  {
    match post.destination
    case ToBridge(u) =>
      if u in net.bridges then
        var (answer, published) := BridgeReply(s, post.body, weather.confirm);
        (answer, published, [])
      else (Failed(502), [], [])
    case ToRelay(u) => if u in net.relays then RelayReply(net, s, u, post.body, weather) else (Failed(502), [], [])
  }

  /**
    What a relay does with a packet it passes on: the first POST carries the packet with this node's name and
    time appended, to the bridge once the target is reached and to the next relay before; the reply is 202,
    with that stage and the new hop count, exactly when the link works and the next node accepted, and
    nothing that happened behind a request that arrived is undone.
  */
  lemma PassesOnExactly(net: Network, s: Suite, url: string, body: Bytes, weather: Weather)
    requires Bounded(net) && url in net.relays && PassesOn(net.relays[url], s, body)
    ensures var cfg := net.relays[url]; var p := ParsePacket(body).value; var n := |p.hops|;
      var (reply, published, posts) := RelayReply(net, s, url, body, weather);
      && posts != []
      && posts[0].body == Serialise(Packet(p.packetId, p.senderId, p.createdAt, p.envelope, p.signature,
           p.hops + [Hop(cfg.nodeId, weather.clock(n))]))
      && posts[0].destination ==
           (if n + 1 >= cfg.hopCountTarget then ToBridge(cfg.bridge) else ToRelay(cfg.nextRelay))
      && var (answer, behind, further) := NextAnswer(net, s, posts[0], weather);
         && (reply.Accepted? <==> weather.link(n).Carries? && answer.Accepted?)
         && (reply.Accepted? ==>
               reply == Accepted(if n + 1 >= cfg.hopCountTarget then Bridged else Relayed, n + 1))
         && published == (if weather.link(n).Carries? || weather.link(n).LosesReply? then behind else [])
         && posts[1..] == (if weather.link(n).Carries? || weather.link(n).LosesReply? then further else [])
  {
    hide ParsePacket, Serialise, IsIdentifier, Verifies, IdempotencyKey;
  }

  /** Every POST of the chain carries a packet that verifies, one hop longer than the one before. */
  lemma {:induction false} OnlyVerifiedTravel(net: Network, s: Suite, url: string, body: Bytes, weather: Weather)
    requires Bounded(net) && url in net.relays
    ensures Travels(s, RelayReply(net, s, url, body, weather).2, HopsIn(body))
    decreases Remaining(net, body), 0
  {
    hide RelayReply, ParsePacket, Serialise, IsIdentifier, Verifies, IdempotencyKey, Travels, NextAnswer;
    var cfg := net.relays[url];
    RefusalsExactly(net, s, url, body, weather);
    if PassesOn(cfg, s, body) {
      var p := ParsePacket(body).value;
      var hop := Hop(cfg.nodeId, weather.clock(|p.hops|));
      var posts := RelayReply(net, s, url, body, weather).2;
      PassesOnExactly(net, s, url, body, weather);
      HopsAreOutside(s, p, hop);
      HopArrives(cfg, p, hop.receivedAt);
      NextTravels(net, s, posts[0], weather);
      NoneTravel(s, |p.hops| + 1);
      FirstTravels(s, posts, |p.hops|);
    } else {
      NoneTravel(s, HopsIn(body));
    }
  }

  lemma {:induction false} NextTravels(net: Network, s: Suite, post: Post, weather: Weather)
    requires Bounded(net)
    ensures Travels(s, NextAnswer(net, s, post, weather).2, HopsIn(post.body))
    decreases Remaining(net, post.body), 1
  {
    hide RelayReply, ParsePacket, Travels;
    if post.destination.ToRelay? && post.destination.url in net.relays {
      OnlyVerifiedTravel(net, s, post.destination.url, post.body, weather);
    } else {
      NoneTravel(s, HopsIn(post.body));
    }
  }

  /** Every body parses and verifies, the first with one hop more than `n`, each with one more than the last. */
  predicate Travels(s: Suite, posts: seq<Post>, n: nat) {
    forall i :: 0 <= i < |posts| ==>
      && ParsePacket(posts[i].body).Some? && Verifies(s, ParsePacket(posts[i].body).value)
      && HopsIn(posts[i].body) == n + i + 1
  }

  lemma NoneTravel(s: Suite, n: nat)
    ensures Travels(s, [], n)
  {
  }

  lemma FirstTravels(s: Suite, posts: seq<Post>, n: nat)
    requires posts != [] && Travels(s, posts[1..], n + 1)
    requires ParsePacket(posts[0].body).Some? && Verifies(s, ParsePacket(posts[0].body).value)
    requires HopsIn(posts[0].body) == n + 1
    ensures Travels(s, posts, n)
  {
    hide ParsePacket, Verifies;
    forall i | 0 <= i < |posts|
      ensures ParsePacket(posts[i].body).Some? && Verifies(s, ParsePacket(posts[i].body).value)
      ensures HopsIn(posts[i].body) == n + i + 1
    {
      assert i > 0 ==> posts[i] == posts[1..][i - 1];
    }
  }

  // --- Accounting of publishes against replies ---

  /**
    However many requests and replies are lost on the way: a submission answered 202 was enqueued
    exactly once, and one answered with an error at most once.
  */
  lemma {:induction false} PublishAccounting(net: Network, s: Suite, url: string, body: Bytes, weather: Weather)
    requires Bounded(net) && url in net.relays
    ensures var (reply, published, _) := RelayReply(net, s, url, body, weather);
      |published| <= 1 && (reply.Accepted? ==> |published| == 1)
    decreases Remaining(net, body)
  {
    hide ParsePacket, Serialise, IsIdentifier, Verifies, IdempotencyKey;
    var cfg := net.relays[url];
    var packet := ParsePacket(body);
    if packet.Some? && |packet.value.hops| < cfg.hopLimit && IsIdentifier(cfg.nodeId) {
      var q := Hopped(cfg, packet.value, weather.clock(|packet.value.hops|));
      HopArrives(cfg, packet.value, weather.clock(|packet.value.hops|));
      if |q.hops| < cfg.hopCountTarget && cfg.nextRelay in net.relays {
        PublishAccounting(net, s, cfg.nextRelay, Serialise(q), weather);
      }
    }
  }

  // --- Transparency ---

  /** `q` is `p` further along: everything signed is the same, and the trail has only grown. */
  predicate FurtherAlong(s: Suite, p: Packet, q: Packet) {
    && SignedFields(q) == SignedFields(p) && q.signature == p.signature
    && Verifies(s, q) == Verifies(s, p) && IdempotencyKey(s, q) == IdempotencyKey(s, p)
    && p.hops <= q.hops
  }

  lemma OneHop(s: Suite, p: Packet, hop: Hop)
    ensures FurtherAlong(s, p, AppendHop(p, hop))
  {
    HopsAreOutside(s, p, hop);
  }

  /** Whatever reaches the queue is the submitted packet with a longer trail, under its own key. */
  lemma {:induction false} MeshTransparency(net: Network, s: Suite, url: string, body: Bytes, weather: Weather)
    requires Bounded(net) && url in net.relays
    ensures forall m :: m in RelayReply(net, s, url, body, weather).1 ==>
      && ParsePacket(body).Some? && ParsePacket(m.body).Some?
      && FurtherAlong(s, ParsePacket(body).value, ParsePacket(m.body).value)
      && Verifies(s, ParsePacket(m.body).value)
      && m.messageId == IdempotencyKey(s, ParsePacket(body).value)
    decreases Remaining(net, body)
  {
    hide ParsePacket, Serialise, IsIdentifier, Verifies, IdempotencyKey;
    var cfg := net.relays[url];
    var packet := ParsePacket(body);
    if packet.Some? && |packet.value.hops| < cfg.hopLimit && IsIdentifier(cfg.nodeId) {
      var p := packet.value;
      var hop := Hop(cfg.nodeId, weather.clock(|p.hops|));
      var q := AppendHop(p, hop);
      OneHop(s, p, hop);
      HopArrives(cfg, p, hop.receivedAt);
      if |q.hops| < cfg.hopCountTarget && cfg.nextRelay in net.relays {
        MeshTransparency(net, s, cfg.nextRelay, Serialise(q), weather);
      }
    }
  }

  // --- Where a packet ends up ---

  /** All relays share a target and a limit, know each other and a bridge, and carry a valid name. */
  predicate Uniform(net: Network, target: nat, limit: nat) {
    forall url :: url in net.relays ==>
      var cfg := net.relays[url];
      && cfg.hopCountTarget == target && cfg.hopLimit == limit && IsIdentifier(cfg.nodeId)
      && cfg.nextRelay in net.relays && cfg.bridge in net.bridges
  }

  ghost predicate Calm(weather: Weather) {
    weather.confirm.Confirmed? && forall n: nat :: weather.link(n).Carries?
  }

  function Max(a: nat, b: nat): nat {
    if a < b then b else a
  }

  /**
    With a shared target and limit and nothing failing, a packet entering with h hops reaches the
    bridge exactly when max(target, h + 1) is within the limit, and then with exactly that many hops.
  */
  lemma {:induction false} MeshOutcome(
    net: Network, s: Suite, url: string, body: Bytes, weather: Weather, target: nat, limit: nat)
    requires Bounded(net) && url in net.relays && Uniform(net, target, limit) && Calm(weather)
    requires ParsePacket(body).Some? && Verifies(s, ParsePacket(body).value)
    ensures var arrives := Max(target, HopsIn(body) + 1);
      var (reply, published, _) := RelayReply(net, s, url, body, weather);
      && (reply.Accepted? <==> arrives <= limit)
      && (reply.Accepted? <==> |published| == 1) && (!reply.Accepted? <==> published == [])
      && (reply.Accepted? ==> HopsIn(published[0].body) == arrives)
    decreases Remaining(net, body)
  {
    hide ParsePacket, Serialise, IsIdentifier, Verifies, IdempotencyKey;
    var cfg := net.relays[url];
    var p := ParsePacket(body).value;
    if |p.hops| < limit {
      var hop := Hop(cfg.nodeId, weather.clock(|p.hops|));
      var q := AppendHop(p, hop);
      HopsAreOutside(s, p, hop);
      HopArrives(cfg, p, hop.receivedAt);
      if |q.hops| < target {
        MeshOutcome(net, s, cfg.nextRelay, Serialise(q), weather, target, limit);
      }
    }
  }
}
