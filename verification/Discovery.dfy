// What the discovery task does with a datagram.

module Discovery {
  import opened Types
  import opened Signing
  import opened Proto

  datatype Event =
    | NetworkChanged
    | GoodbyeFrom(source: Ip)
    | AdvFrom(source: Ip, url: Url)

  // The parts of the node that datagrams are judged by. `netUrl` builds the URL
  // of a peer from its address and port.
  datatype Node = Node(
    scheme: Scheme,
    codec: Codec,
    keys: Keys,
    netUrl: (Ip, Port) -> Url,
    localCache: Option<LocalCache>)

  // A datagram as received: its bytes, who sent it, and the wall clock.
  datatype Datagram = Datagram(bytes: seq<byte>, source: Ip, wall: u64)

  function AdvertisedUrl(node: Node, cache: LocalCache, source: Ip): Url {
    match cache
    case AtUrl(url) => url
    case AtPort(port) => node.netUrl(source, port)
  }

  // The event a datagram gives rise to, if any. Our own datagrams, the ones
  // from an address of a managed interface, are ignored.
  function Dispatch(node: Node, managed: set<Ip>, d: Datagram): Option<Event> {
    if d.source in managed then None
    else
      match Parse(node.scheme, node.codec, node.keys, d.bytes, d.wall)
      case Ok(Adv(cache)) => Some(AdvFrom(d.source, AdvertisedUrl(node, cache, d.source)))
      case Ok(Goodbye) => Some(GoodbyeFrom(d.source))
      case Ok(Req) => None
      case Err(_) => None
  }

  ghost predicate Authenticates(node: Node, d: Datagram, content: SignedContent) {
    Authentic(node.scheme, node.codec, node.keys, d.bytes, d.wall, content)
  }

  // From somewhere else, an authentic advert of this URL, or of a port at which
  // the sender serves under this URL.
  ghost predicate GenuineAdvert(node: Node, managed: set<Ip>, d: Datagram, url: Url) {
    && d.source !in managed
    && (Authenticates(node, d, SignedAdv(AtUrl(url))) ||
        exists port :: Authenticates(node, d, SignedAdv(AtPort(port))) && url == node.netUrl(d.source, port))
  }

  // A datagram counts as an advert, or as a goodbye, exactly when it is an
  // authentic one from somewhere else, and it speaks for its sender only.
  lemma DispatchIffAuthentic(node: Node, managed: set<Ip>, d: Datagram)
    ensures forall source, url :: Dispatch(node, managed, d) == Some(AdvFrom(source, url)) <==>
                                  source == d.source && GenuineAdvert(node, managed, d, url)
    ensures forall source :: Dispatch(node, managed, d) == Some(GoodbyeFrom(source)) <==>
                             source == d.source && d.source !in managed && Authenticates(node, d, SignedGoodbye)
    ensures Dispatch(node, managed, d) != Some(NetworkChanged)
  {
    AcceptedIffAuthentic(node.scheme, node.codec, node.keys, d.bytes, d.wall);
    var r := Parse(node.scheme, node.codec, node.keys, d.bytes, d.wall);
    forall cache
      ensures r == Ok(Adv(cache)) <==> Authenticates(node, d, SignedAdv(cache))
    {
      assert PacketOf(SignedAdv(cache)) == Adv(cache);
    }
    assert PacketOf(SignedGoodbye) == Goodbye;
    forall source, url
      ensures Dispatch(node, managed, d) == Some(AdvFrom(source, url)) <==>
              source == d.source && GenuineAdvert(node, managed, d, url)
    {
      if Dispatch(node, managed, d) == Some(AdvFrom(source, url)) {
        assert Authenticates(node, d, SignedAdv(r.value.cache));
      }
    }
  }

  // An advert of a URL gives rise to the event for exactly that URL, and an
  // advert of a port to the event for exactly that port of its sender.
  lemma AdvertDispatched(node: Node, managed: set<Ip>, d: Datagram)
    requires d.source !in managed
    ensures forall url | Authenticates(node, d, SignedAdv(AtUrl(url))) ::
              Dispatch(node, managed, d) == Some(AdvFrom(d.source, url))
    ensures forall port | Authenticates(node, d, SignedAdv(AtPort(port))) ::
              Dispatch(node, managed, d) == Some(AdvFrom(d.source, node.netUrl(d.source, port)))
  {
    DispatchIffAuthentic(node, managed, d);
    forall url | Authenticates(node, d, SignedAdv(AtUrl(url)))
      ensures Dispatch(node, managed, d) == Some(AdvFrom(d.source, url))
    {
      assert GenuineAdvert(node, managed, d, url);
    }
    forall port | Authenticates(node, d, SignedAdv(AtPort(port)))
      ensures Dispatch(node, managed, d) == Some(AdvFrom(d.source, node.netUrl(d.source, port)))
    {
      assert GenuineAdvert(node, managed, d, node.netUrl(d.source, port));
    }
  }

  datatype CtxError = MissingKey

  class DiscoverCtx {
    const scheme: Scheme
    const codec: Codec
    const netUrl: (Ip, Port) -> Url
    const localCache: Option<LocalCache>
    const keystore: KeyStore
    var managed: map<Ip, Ip>    // interface address to broadcast address

    constructor (scheme: Scheme, codec: Codec, netUrl: (Ip, Port) -> Url, localCache: Option<LocalCache>,
                 keystore: KeyStore)
      requires keystore.scheme == scheme
      ensures managed == map[] && this.keystore == keystore && this.scheme == scheme && this.codec == codec
      ensures this.netUrl == netUrl && this.localCache == localCache
    {
      this.scheme, this.codec, this.keystore := scheme, codec, keystore;
      this.netUrl, this.localCache := netUrl, localCache;
      managed := map[];
    }

    ghost function View(): Node
      reads keystore
    {
      Node(scheme, codec, keystore.View(), netUrl, localCache)
    }

    // A new list of eligible interfaces replaces the old one.
    method Rediscover(ips: seq<(Ip, Ip)>)
      modifies this`managed
      ensures managed.Keys == set i | 0 <= i < |ips| :: ips[i].0
      ensures forall i | 0 <= i < |ips| && (forall j | i < j < |ips| :: ips[j].0 != ips[i].0) ::
                managed[ips[i].0] == ips[i].1
    {
      managed := map[];
      for k := 0 to |ips|
        invariant managed.Keys == set i | 0 <= i < k :: ips[i].0
        invariant forall i | 0 <= i < k && (forall j | i < j < k :: ips[j].0 != ips[i].0) ::
                    managed[ips[i].0] == ips[i].1
      {
        managed := managed[ips[k].0 := ips[k].1];
      }
    }

    // A request is answered with one advert to the broadcast address of every
    // managed network, or not at all when the advert cannot be made.
    method HandleDatagram(d: Datagram)
      returns (event: Option<Event>, sent: seq<(Ip, seq<byte>)>, error: Option<CtxError>)
      requires keystore.scheme == scheme
      ensures event == Dispatch(View(), managed.Keys, d)
      ensures if IsRequest(View(), managed.Keys, d) && localCache.Some?
              then AnswersRequest(View(), managed, localCache.value, d.wall, sent, error)
              else sent == [] && error == None
    {
      event, sent, error := None, [], None;
      if d.source in managed {
        return;
      }
      match Parse(scheme, codec, keystore.View(), d.bytes, d.wall) {
        case Ok(Req) =>
          if localCache.Some? {
            sent, error := Advertise(localCache.value, d.wall);
          }
        case Ok(Adv(cache)) =>
          var url := match cache case AtUrl(url) => url case AtPort(port) => netUrl(d.source, port);
          event := Some(AdvFrom(d.source, url));
        case Ok(Goodbye) =>
          event := Some(GoodbyeFrom(d.source));
        case Err(_) =>
      }
    }

    method Advertise(cache: LocalCache, wall: u64) returns (sent: seq<(Ip, seq<byte>)>, error: Option<CtxError>)
      requires keystore.scheme == scheme
      ensures AnswersRequest(View(), managed, cache, wall, sent, error)
    {
      sent, error := [], None;
      ghost var order: seq<Ip> := [];
      ghost var advert := Advert(View(), cache, wall);
      var todo := managed;
      while todo != map[]
        invariant todo.Keys <= managed.Keys && forall ip | ip in todo :: todo[ip] == managed[ip]
        invariant |order| == |sent| && (forall i, j | 0 <= i < j < |order| :: order[i] != order[j])
        invariant forall ip :: ip in order <==> ip in managed && ip !in todo
        invariant forall i | 0 <= i < |order| :: order[i] in managed && sent[i] == (managed[order[i]], advert)
        invariant sent != [] ==> keystore.private.Some? && |advert| <= UDP_MAX_DATAGRAM_SIZE
        decreases todo.Keys
      {
        var ip :| ip in todo;
        var bytes := ToBytes(codec, keystore, Adv(cache), wall);
        if bytes.Err? {
          error := Some(CtxError.MissingKey);
          return;
        }
        sent := sent + [(todo[ip], bytes.value)];
        order := order + [ip];
        todo := todo - {ip};
      }
      assert Sends(managed, advert, order, sent);
    }
  }

  ghost predicate IsRequest(node: Node, managed: set<Ip>, d: Datagram) {
    d.source !in managed && Parse(node.scheme, node.codec, node.keys, d.bytes, d.wall) == Ok(Req)
  }

  ghost function Advert(node: Node, cache: LocalCache, wall: u64): seq<byte> {
    Frame(node.scheme, node.codec, node.keys.private.GetOr([]), Adv(cache), wall)
  }

  // The advert goes to the broadcast address of each network once.
  ghost predicate Sends(managed: map<Ip, Ip>, advert: seq<byte>, order: seq<Ip>, sent: seq<(Ip, seq<byte>)>) {
    && |order| == |sent|
    && (forall i, j | 0 <= i < j < |order| :: order[i] != order[j])
    && (forall ip :: ip in order <==> ip in managed)
    && (forall i | 0 <= i < |order| :: order[i] in managed && sent[i] == (managed[order[i]], advert))
  }

  // Without a private key, or with an advert too big for a datagram, the first
  // network fails and nothing is sent.
  ghost predicate AnswersRequest(node: Node, managed: map<Ip, Ip>, cache: LocalCache, wall: u64,
                                 sent: seq<(Ip, seq<byte>)>, error: Option<CtxError>) {
    var advert := Advert(node, cache, wall);
    if managed != map[] && (node.keys.private.None? || |advert| > 65507)
    then sent == [] && error == Some(CtxError.MissingKey)
    else error == None && exists order :: Sends(managed, advert, order, sent)
  }

  // A node's advert reaches a peer that has its key: one of a URL as an advert of
  // exactly that URL, and one of a port as an advert of exactly that port of the
  // address it was sent from.
  lemma AdvertReachesPeer(node: Node, managed: set<Ip>, sender: PrivateKey, source: Ip, cache: LocalCache, sentAt: u64,
                          wall: u64)
    requires Sound(node.scheme) && Faithful(node.codec)
    requires node.scheme.publicOf(sender) in node.keys.public
    requires source !in managed
    requires sentAt as int - wall <= 5 && wall as int - sentAt <= 5
    requires |Frame(node.scheme, node.codec, sender, Adv(cache), sentAt)| <= 1024
    ensures var d := Datagram(Received(Frame(node.scheme, node.codec, sender, Adv(cache), sentAt)), source, wall);
            match cache
            case AtUrl(url) => Dispatch(node, managed, d) == Some(AdvFrom(source, url))
            case AtPort(port) => Dispatch(node, managed, d) == Some(AdvFrom(source, node.netUrl(source, port)))
  {
    WireRoundTrip(node.scheme, node.codec, sender, node.keys, Adv(cache), sentAt, wall);
  }

  // What a node sends out when it is asked, to every network it manages, is
  // heard by a peer that has its key as an advert of what the node serves.
  lemma AnswerReachesPeer(asked: Node, networks: map<Ip, Ip>, cache: LocalCache, sentAt: u64,
                          sent: seq<(Ip, seq<byte>)>,
                          i: nat, peer: Node, managed: set<Ip>, source: Ip, wall: u64)
    requires AnswersRequest(asked, networks, cache, sentAt, sent, None) && i < |sent|
    requires asked.scheme == peer.scheme && asked.codec == peer.codec && Sound(peer.scheme) && Faithful(peer.codec)
    requires asked.keys.private.Some? && peer.scheme.publicOf(asked.keys.private.value) in peer.keys.public
    requires source !in managed && |sent[i].1| <= 1024
    requires sentAt as int - wall <= 5 && wall as int - sentAt <= 5
    ensures sent[i].0 in networks.Values
    ensures var d := Datagram(sent[i].1, source, wall);
            match cache
            case AtUrl(url) => Dispatch(peer, managed, d) == Some(AdvFrom(source, url))
            case AtPort(port) => Dispatch(peer, managed, d) == Some(AdvFrom(source, peer.netUrl(source, port)))
  {
    var order :| Sends(networks, Advert(asked, cache, sentAt), order, sent);
    AdvertReachesPeer(peer, managed, asked.keys.private.value, source, cache, sentAt, wall);
  }
}
