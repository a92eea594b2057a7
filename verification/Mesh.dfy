/**
 Mesh control packets: signing and checking payloads, and the accounting of every packet a
 node handles. Encoding, the keyed hash and the test for blank text are uninterpreted.
 */
module Mesh {
  import opened Options
  import Routing

  type Bytes = seq<bv8>

  datatype GossipRoute = GossipRoute(dst: string, lat: int, thr: int)

  datatype Payload = Payload(timestamp: int, addr: string, routes: seq<GossipRoute>, signature: Bytes)

  datatype Codec = Codec(
    encode: Payload -> Bytes,
    sign: (Bytes, string) -> Bytes,
    blank: string -> bool,
    blankBytes: Bytes -> bool
  )

  /** A keyed hash in hexadecimal is never blank. */
  ghost predicate SignsVisibly(c: Codec) {
    forall data, key :: !c.blankBytes(c.sign(data, key))
  }

  function Unsigned(p: Payload): Payload { p.(signature := []) }

  // ----- signing and checking

  /** The payload that goes on the wire; a blank key leaves it as it is. */
  function Sealed(c: Codec, p: Payload, key: string): Payload {
    if c.blank(key) then p else p.(signature := c.sign(c.encode(Unsigned(p)), key))
  }

  lemma XorAccumulates(acc: bv8, x: bv8, y: bv8)
    ensures acc | (x ^ y) == 0 <==> acc == 0 && x == y
  {
  }

  /** Compare without an early exit, gathering differences. It is equality. */
  method SecureEquals(a: Bytes, b: Bytes) returns (same: bool)
    ensures same <==> a == b
  {
    if |a| != |b| { return false; }
    var out: bv8 := 0;
    for i := 0 to |a|
      invariant out == 0 <==> a[..i] == b[..i]
    {
      XorAccumulates(out, a[i], b[i]);
      assert a[..i + 1] == a[..i] + [a[i]] && b[..i + 1] == b[..i] + [b[i]];
      out := out | (a[i] ^ b[i]);
    }
    assert a[..|a|] == a && b[..|b|] == b;
    same := out == 0;
  }

  /** Accepted: nothing to check against, or signed with one of the keys. */
  ghost predicate Authentic(c: Codec, p: Payload, keys: seq<string>) {
    keys == [] ||
    (!c.blankBytes(p.signature) &&
     exists i :: 0 <= i < |keys| && !c.blank(keys[i]) && p.signature == c.sign(c.encode(Unsigned(p)), keys[i]))
  }

  method VerifyPayload(c: Codec, p: Payload, keys: seq<string>) returns (ok: bool)
    ensures ok <==> Authentic(c, p, keys)
  {
    if |keys| == 0 { return true; }
    if c.blankBytes(p.signature) { return false; }
    var base := c.encode(Unsigned(p));
    for i := 0 to |keys|
      invariant forall k :: 0 <= k < i ==> c.blank(keys[k]) || p.signature != c.sign(base, keys[k])
    {
      if !c.blank(keys[i]) {
        var same := SecureEquals(p.signature, c.sign(base, keys[i]));
        if same { return true; }
      }
    }
    ok := false;
  }

  /** What is sealed with a visible key is accepted wherever that key is a candidate. */
  lemma SealedIsAuthentic(c: Codec, p: Payload, key: string, keys: seq<string>)
    requires SignsVisibly(c) && !c.blank(key) && key in keys
    ensures Authentic(c, Sealed(c, p, key), keys)
  {
    var s := Sealed(c, p, key);
    assert Unsigned(s) == Unsigned(p);
    var i :| 0 <= i < |keys| && keys[i] == key;
    assert s.signature == c.sign(c.encode(Unsigned(s)), keys[i]);
  }

  // ----- keys

  datatype Config = Config(bindAddr: string, tenantID: string, sharedKeys: seq<string>, peerKeys: map<string, string>, routeTTL: int)

  function SharedKeyFor(c: Codec, cfg: Config, peer: string): string {
    if !c.blank(peer) && peer in cfg.peerKeys && !c.blank(cfg.peerKeys[peer]) then cfg.peerKeys[peer]
    else if cfg.sharedKeys != [] then cfg.sharedKeys[0]
    else ""
  }

  function KeyCandidates(cfg: Config, source: Option<string>, claimed: string): seq<string> {
    (if claimed != "" && claimed in cfg.peerKeys then [cfg.peerKeys[claimed]] else [])
    + (if source.Some? && source.value in cfg.peerKeys then [cfg.peerKeys[source.value]] else [])
    + cfg.sharedKeys
  }

  /** Which key a packet to a peer is signed with: the peer's own if it is visible, else the first of
      the shared ones, else none. And which keys a packet is checked with: those set for the address
      it claims and for the one it came from, and the shared ones, and no others. */
  lemma KeysInFields(c: Codec, cfg: Config, peer: string, source: Option<string>, claimed: string, key: string)
    ensures !c.blank(peer) && peer in cfg.peerKeys && !c.blank(cfg.peerKeys[peer]) ==> SharedKeyFor(c, cfg, peer) == cfg.peerKeys[peer]
    ensures c.blank(peer) || peer !in cfg.peerKeys || c.blank(cfg.peerKeys[peer]) ==>
              SharedKeyFor(c, cfg, peer) == if cfg.sharedKeys == [] then "" else cfg.sharedKeys[0]
    ensures key in KeyCandidates(cfg, source, claimed) <==>
              || key in cfg.sharedKeys
              || (claimed != "" && claimed in cfg.peerKeys && cfg.peerKeys[claimed] == key)
              || (source.Some? && source.value in cfg.peerKeys && cfg.peerKeys[source.value] == key)
    ensures |KeyCandidates(cfg, source, claimed)| >= |cfg.sharedKeys|
  {
    var own := if claimed != "" && claimed in cfg.peerKeys then [cfg.peerKeys[claimed]] else [];
    var from := if source.Some? && source.value in cfg.peerKeys then [cfg.peerKeys[source.value]] else [];
    assert key in own + from + cfg.sharedKeys <==> key in own || key in from || key in cfg.sharedKeys;
  }

  /** Two nodes that share a key understand each other: when the sender's key for the peer is
      visible and the receiver holds it, for everyone or for the sender, the packet passes. */
  lemma SharedKeyIsEnough(c: Codec, sender: Config, receiver: Config, peer: string, p: Payload, source: Option<string>)
    requires SignsVisibly(c)
    requires var key := SharedKeyFor(c, sender, peer);
             !c.blank(key) &&
             (key in receiver.sharedKeys ||
              (p.addr != "" && p.addr in receiver.peerKeys && receiver.peerKeys[p.addr] == key) ||
              (source.Some? && source.value in receiver.peerKeys && receiver.peerKeys[source.value] == key))
    ensures Authentic(c, Sealed(c, p, SharedKeyFor(c, sender, peer)), KeyCandidates(receiver, source, p.addr))
  {
    SealedIsAuthentic(c, p, SharedKeyFor(c, sender, peer), KeyCandidates(receiver, source, p.addr));
  }

  // ----- handling packets

  datatype Control = Heartbeat | Handshake | OtherControl

  /** A packet as the decoders see it. */
  datatype Packet = Garbled | Message(control: Control, tenantID: string, payload: Option<Payload>)

  datatype Verdict = Accepted | RejectedAuth | RejectedParse

  ghost function Judge(c: Codec, cfg: Config, packet: Packet, source: string): Verdict {
    match packet
    case Garbled => RejectedParse
    case Message(control, tenantID, payload) =>
      if control.OtherControl? then RejectedParse
      else if !c.blank(cfg.tenantID) && tenantID != "" && tenantID != cfg.tenantID then RejectedAuth
      else if payload.None? then RejectedParse
      else if Authentic(c, payload.value, KeyCandidates(cfg, Some(source), payload.value.addr)) then Accepted
      else RejectedAuth
  }

  /** Which packets are refused, in their own terms: by form, what does not decode or is neither a
      heartbeat nor a handshake; by authority, what names another tenant than the one this node is
      set to, and what is not signed with a key the node has for its sender, if it has any. The
      tenant is looked at before the payload is. */
  lemma JudgeInFields(c: Codec, cfg: Config, packet: Packet, source: string)
    ensures var v := Judge(c, cfg, packet, source);
            && (packet.Garbled? ==> v == RejectedParse)
            && (packet.Message? ==>
                  var foreign := !c.blank(cfg.tenantID) && packet.tenantID != "" && packet.tenantID != cfg.tenantID;
                  && (packet.control == OtherControl ==> v == RejectedParse)
                  && (packet.control == Heartbeat || packet.control == Handshake ==>
                        && (foreign ==> v == RejectedAuth)
                        && (!foreign && packet.payload.None? ==> v == RejectedParse)
                        && (!foreign && packet.payload.Some? ==>
                              (v == Accepted || v == RejectedAuth) &&
                              (v == Accepted <==>
                                 Authentic(c, packet.payload.value, KeyCandidates(cfg, Some(source), packet.payload.value.addr))))))
  {
  }

  const HOUR_MS := 3_600_000

  function Latency(timestamp: int, nowMs: int): (latency: int)
    ensures 0 <= latency < HOUR_MS
    ensures timestamp > 0 && timestamp < nowMs < timestamp + 3_600_000 ==> latency == nowMs - timestamp
    ensures timestamp <= 0 || nowMs <= timestamp || nowMs >= timestamp + 3_600_000 ==> latency == 0
  {
    var delta := nowMs - timestamp;
    if timestamp > 0 && 0 < delta < HOUR_MS then delta else 0
  }

  /** The address a payload claims, or where it came from if it claims none. */
  function RouteAddr(p: Payload, source: string): (addr: string)
    ensures p.addr != "" ==> addr == p.addr
    ensures p.addr == "" ==> addr == source
  {
    if p.addr != "" then p.addr else source
  }

  function Learn(c: Codec, rs: seq<Routing.Route>, gossip: seq<GossipRoute>, ttl: int, now: int): seq<Routing.Route> {
    if gossip == [] then rs
    else
      var g := gossip[|gossip| - 1];
      var before := Learn(c, rs, gossip[..|gossip| - 1], ttl, now);
      if c.blank(g.dst) then before
      else Routing.WithRoute(before, g.dst, Routing.Metric(g.lat, g.thr), ttl, now)
  }

  datatype PeerStat = PeerStat(lastSeen: int, latencyMs: int, packets: nat)

  datatype Stats = Stats(received: nat, accepted: nat, rejected: nat, rejectedAuth: nat, rejectedParse: nat)

  ghost function PacketSum(peers: map<string, PeerStat>): nat {
    if peers == map[] then 0
    else
      var k :| k in peers;
      peers[k].packets + PacketSum(peers - {k})
  }

  lemma {:induction false} PacketSumWithout(peers: map<string, PeerStat>, k: string)
    requires k in peers
    ensures PacketSum(peers) == peers[k].packets + PacketSum(peers - {k})
    decreases |peers|
  {
    var j :| j in peers && PacketSum(peers) == peers[j].packets + PacketSum(peers - {j});
    if j != k {
      assert peers.Keys == (peers - {j}).Keys + {j};
      PacketSumWithout(peers - {j}, k);
      assert peers.Keys == (peers - {k}).Keys + {k};
      PacketSumWithout(peers - {k}, j);
      assert peers - {j} - {k} == peers - {k} - {j};
    }
  }

  /** One more packet from a peer, new or known, is one more in the sum. */
  lemma PacketSumGrows(peers: map<string, PeerStat>, k: string, s: PeerStat)
    requires s.packets == (if k in peers then peers[k].packets else 0) + 1
    ensures PacketSum(peers[k := s]) == PacketSum(peers) + 1
  {
    PacketSumWithout(peers[k := s], k);
    if k in peers {
      PacketSumWithout(peers, k);
      assert peers[k := s] - {k} == peers - {k};
    } else {
      assert peers[k := s] - {k} == peers;
    }
  }

  /** Where the handling of the current packet stands. */
  datatype Progress = Idle | Examining | PeerCounted

  class Node {
    const codec: Codec
    const cfg: Config
    const router: Routing.Engine
    var stats: Stats
    var peers: map<string, PeerStat>
    ghost var progress: Progress

    /** The books balance between any two steps of the handler: every packet received has
        been accepted or rejected, but for the one in hand; rejections split by cause; and
        peers' packets add up to the accepted ones, but for the one being accepted. */
    ghost predicate Balanced()
      reads this
    {
      && stats.received == stats.accepted + stats.rejected + (if progress.Idle? then 0 else 1)
      && stats.rejected == stats.rejectedAuth + stats.rejectedParse
      && PacketSum(peers) == stats.accepted + if progress.PeerCounted? then 1 else 0
    }

    constructor (codec: Codec, cfg: Config, router: Routing.Engine)
      ensures Balanced() && progress.Idle? && stats == Stats(0, 0, 0, 0, 0) && peers == map[]
      ensures this.codec == codec && this.cfg == cfg && this.router == router
    {
      this.codec, this.cfg, this.router := codec, cfg, router;
      stats, peers, progress := Stats(0, 0, 0, 0, 0), map[], Idle;
    }

    method Receive()
      requires Balanced() && progress.Idle?
      modifies this`stats, this`progress
      ensures Balanced() && progress.Examining? && stats == old(stats).(received := old(stats).received + 1)
    {
      stats, progress := stats.(received := stats.received + 1), Examining;
    }

    method Reject(auth: bool)
      requires Balanced() && progress.Examining?
      modifies this`stats, this`progress
      ensures Balanced() && progress.Idle? && stats == Counted(old(stats), if auth then RejectedAuth else RejectedParse)
    {
      stats := stats.(rejected := stats.rejected + 1);
      if auth {
        stats := stats.(rejectedAuth := stats.rejectedAuth + 1);
      } else {
        stats := stats.(rejectedParse := stats.rejectedParse + 1);
      }
      progress := Idle;
    }

    method CountPeer(addr: string, latency: int, now: int)
      requires Balanced() && progress.Examining?
      modifies this`peers, this`progress
      ensures Balanced() && progress.PeerCounted?
      ensures peers == old(peers)[addr := PeerStat(now, latency, (if addr in old(peers) then old(peers)[addr].packets else 0) + 1)]
    {
      var packets := if addr in peers then peers[addr].packets else 0;
      PacketSumGrows(peers, addr, PeerStat(now, latency, packets + 1));
      peers, progress := peers[addr := PeerStat(now, latency, packets + 1)], PeerCounted;
    }

    method Accept()
      requires Balanced() && progress.PeerCounted?
      modifies this`stats, this`progress
      ensures Balanced() && progress.Idle? && stats == Counted(old(stats), Accepted)
    {
      stats, progress := stats.(accepted := stats.accepted + 1), Idle;
    }

    /** Handle one packet from `source`. `now` is the time, which the routing table and the peer's
        entry go by; `nowMs` is the time in milliseconds, which latency goes by. */
    method HandlePacket(packet: Packet, source: string, now: int, nowMs: int)
      requires Balanced() && progress.Idle?
      modifies this`stats, this`peers, this`progress, router
      ensures Balanced() && progress.Idle?
      ensures var v := Judge(codec, cfg, packet, source);
              && stats == Counted(old(stats).(received := old(stats).received + 1), v)
              && (!v.Accepted? ==> peers == old(peers) && router.routes == old(router.routes))
              && (v.Accepted? ==>
                    var p := packet.payload.value;
                    var addr, latency := RouteAddr(p, source), Latency(p.timestamp, nowMs);
                    && peers == old(peers)[addr := PeerStat(now, latency,
                                             (if addr in old(peers) then old(peers)[addr].packets else 0) + 1)]
                    && router.routes == Learn(codec, Routing.WithRoute(old(router.routes), addr, Routing.Metric(latency, 0),
                                                                       cfg.routeTTL, now), p.routes, cfg.routeTTL, now))
    {
      Receive();
      match packet {
        case Garbled =>
          Reject(false);
        case Message(control, tenantID, payload) =>
          if control.OtherControl? {
            Reject(false);
          } else if !codec.blank(cfg.tenantID) && tenantID != "" && tenantID != cfg.tenantID {
            Reject(true);
          } else if payload.None? {
            Reject(false);
          } else {
            var p := payload.value;
            var ok := VerifyPayload(codec, p, KeyCandidates(cfg, Some(source), p.addr));
            if ok {
              var latency := Latency(p.timestamp, nowMs);
              var _ := router.AddRouteWithTTL(RouteAddr(p, source), Routing.Metric(latency, 0), cfg.routeTTL, now);
              LearnRoutes(p.routes, now);
              CountPeer(RouteAddr(p, source), latency, now);
              Accept();
            } else {
              Reject(true);
            }
          }
      }
    }

    method LearnRoutes(gossip: seq<GossipRoute>, now: int)
      modifies router
      ensures router.routes == Learn(codec, old(router.routes), gossip, cfg.routeTTL, now)
    {
      for i := 0 to |gossip|
        invariant router.routes == Learn(codec, old(router.routes), gossip[..i], cfg.routeTTL, now)
      {
        assert gossip[..i + 1][..i] == gossip[..i];
        if !codec.blank(gossip[i].dst) {
          var _ := router.AddRouteWithTTL(gossip[i].dst, Routing.Metric(gossip[i].lat, gossip[i].thr), cfg.routeTTL, now);
        }
      }
      assert gossip[..|gossip|] == gossip;
    }
  }

  /** One verdict, counted. */
  function Counted(s: Stats, v: Verdict): Stats {
    match v
    case Accepted => s.(accepted := s.accepted + 1)
    case RejectedAuth => s.(rejected := s.rejected + 1, rejectedAuth := s.rejectedAuth + 1)
    case RejectedParse => s.(rejected := s.rejected + 1, rejectedParse := s.rejectedParse + 1)
  }

  /** Whatever peers send, every route learnt has a destination and no negative metric, and
      the routes that were there stay; and everything sent with a visible destination and no
      negative metric is learnt. */
  lemma {:induction false} LearntRoutesAreSound(c: Codec, rs: seq<Routing.Route>, gossip: seq<GossipRoute>, ttl: int, now: int)
    ensures rs <= Learn(c, rs, gossip, ttl, now)
    ensures forall i :: |rs| <= i < |Learn(c, rs, gossip, ttl, now)| ==>
              var r := Learn(c, rs, gossip, ttl, now)[i];
              r.destination != "" && r.metric.latency >= 0 && r.metric.throughput >= 0
    ensures forall g :: g in gossip && !c.blank(g.dst) && g.dst != "" && g.lat >= 0 && g.thr >= 0 ==>
              Routing.Route(g.dst, Routing.Metric(g.lat, g.thr), now, if ttl > 0 then Some(now + ttl) else None, false, map[])
              in Learn(c, rs, gossip, ttl, now)
  {
    if gossip != [] {
      LearntRoutesAreSound(c, rs, gossip[..|gossip| - 1], ttl, now);
      assert forall g :: g in gossip <==> g in gossip[..|gossip| - 1] || g == gossip[|gossip| - 1];
    }
  }
}
