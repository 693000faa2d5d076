/** The gossip server and its peer table as code, and their place in the flood. */
module GossipServers {
  import opened Collections
  import opened Calendar
  import opened GossipRecords
  import opened GossipStores
  import opened Flood

  datatype Peer = Peer(lastSeen: int, active: bool)

  class PeerManager {
    var peers: map<string, Peer>

    /** Peers enter active, and nothing ever deactivates one. */
    ghost predicate AllActive()
      reads this
    {
      forall a :: a in peers ==> peers[a].active
    }

    constructor (bootstrap: seq<string>, now: int)
      ensures AllActive() && peers.Keys == set a | a in bootstrap
    {
      peers := map a | a in bootstrap :: Peer(now, true);
    }

    method Add(addr: string, now: int)
      requires AllActive()
      modifies this
      ensures AllActive() && peers.Keys == old(peers.Keys) + {addr}
      ensures peers == if addr in old(peers) then old(peers) else old(peers)[addr := Peer(now, true)]
    {
      if addr !in peers {
        peers := peers[addr := Peer(now, true)];
      }
    }

    method Seen(addr: string, now: int)
      requires AllActive()
      modifies this
      ensures AllActive() && peers.Keys == old(peers.Keys)
      ensures addr in peers ==> peers[addr].lastSeen == now
      ensures forall a :: a in peers && a != addr ==> peers[a] == old(peers)[a]
    {
      if addr in peers {
        peers := peers[addr := Peer(now, true)];
      }
    }

    /** All known addresses, each once. */
    method ActiveAddrs() returns (out: seq<string>)
      requires AllActive()
      ensures multiset(out) == multiset(peers.Keys)
    {
      out := [];
      var todo := peers.Keys;
      while todo != {}
        invariant todo <= peers.Keys
        invariant multiset(out) == multiset(peers.Keys - todo)
      {
        var a :| a in todo;
        assert peers.Keys - (todo - {a}) == (peers.Keys - todo) + {a};
        todo := todo - {a};
        if peers[a].active {
          out := out + [a];
        }
      }
      assert peers.Keys - {} == peers.Keys;
    }
  }

  ghost function Elements(s: seq<string>): set<string> {
    set a | a in s
  }

  class Server {
    const own: string
    const store: Store
    const peers: PeerManager

    constructor (own: string, store: Store, peers: PeerManager)
      ensures this.own == own && this.store == store && this.peers == peers
    {
      this.own, this.store, this.peers := own, store, peers;
    }

    method ForwardRecord(r: Record, exclude: string) returns (sent: seq<Msg>)
      requires peers.AllActive()
      ensures multiset(sent) == Outgoing(own, peers.peers.Keys, {exclude}, r)
    {
      sent := [];
      var addrs := peers.ActiveAddrs();
      ghost var all := peers.peers.Keys;
      for i := 0 to |addrs|
        invariant forall k :: 0 <= k < |addrs| ==> multiset(addrs)[addrs[k]] == 1
        invariant multiset(sent) == Outgoing(own, Elements(addrs[..i]), {exclude}, r)
      {
        ghost var before := Elements(addrs[..i]);
        assert addrs[..i + 1] == addrs[..i] + [addrs[i]];
        OnceOnly(addrs, i);
        OutgoingOneMore(own, before, {exclude}, r, addrs[i]);
        assert Elements(addrs[..i + 1]) == before + {addrs[i]};
        if addrs[i] != exclude {
          sent := sent + [Msg(own, addrs[i], r)];
        }
      }
      assert addrs[..|addrs|] == addrs;
      assert Elements(addrs) == all by {
        assert forall a :: a in addrs <==> a in multiset(addrs);
      }
    }

    /** Returns the messages that forwarding sends. */
    method HandleNodeRecord(r: Record, from: string, verify: Record -> bool, now: int) returns (sent: seq<Msg>)
      requires peers.AllActive()
      modifies store
      ensures store.View() == GossipStores.Step(Node(own, verify), old(store.View()), Received(r, now))
      ensures multiset(sent) == if Takes(Node(own, verify), old(store.View()), r)
                                then Outgoing(own, peers.peers.Keys, {from}, r) else multiset{}
    {
      hide RecordKey;
      sent := [];
      if r.ServerId() == own {
        return;
      }
      if !verify(r) {
        return;
      }
      var key := RecordKey(r);
      var known := store.IsSeen(key);
      if known {
        return;
      }
      var stored := store.Put(r, now);
      if !stored {
        return;
      }
      sent := ForwardRecord(r, from);
    }

    /** `signed` is the outcome of the signature check against the known record's server id. */
    method HandleHeartbeat(id: string, signed: bool, from: string, now: int)
      requires peers.AllActive()
      modifies store, peers
      ensures peers.AllActive() && peers.peers.Keys == old(peers.peers.Keys)
      ensures signed && id in old(store.records) && from in peers.peers ==> peers.peers[from].lastSeen == now
      ensures !signed || id !in old(store.records) ==> peers.peers == old(peers.peers)
      ensures forall verify ::
                store.View() == GossipStores.Step(Node(own, verify), old(store.View()), Beat(id, signed, now))
    {
      var record := store.Get(id);
      if record.None? {
        return;
      }
      if !signed {
        return;
      }
      store.Heartbeat(id, now);
      peers.Seen(from, now);
    }
  }

  lemma OnceOnly(s: seq<string>, i: nat)
    requires i < |s| && multiset(s)[s[i]] == 1
    ensures s[i] !in s[..i]
  {
    assert s == s[..i] + [s[i]] + s[i + 1..];
    assert multiset(s) == multiset(s[..i]) + multiset{s[i]} + multiset(s[i + 1..]);
    assert s[i] in s[..i] <==> s[i] in multiset(s[..i]);
  }

  lemma OutgoingOneMore(own: string, peers: set<string>, exclude: set<string>, r: Record, a: string)
    requires a !in peers
    ensures Outgoing(own, peers + {a}, exclude, r)
         == Outgoing(own, peers, exclude, r) + if a in exclude then multiset{} else multiset{Msg(own, a, r)}
  {
  }

  /** A forwarding loop that runs through. */
  lemma {:induction false} SendAll(g: Graph, s: Net, ms: multiset<Msg>) returns (es: seq<NetEvent>)
    requires s.stores.Keys == g.peers.Keys && ms <= s.outbox
    ensures Valid(g, s, es) && Final(g, s, es) == s.(outbox := s.outbox - ms, wire := s.wire + ms)
    decreases |ms|
  {
    if ms == multiset{} {
      assert s.outbox - ms == s.outbox && s.wire + ms == s.wire;
      return [];
    }
    var m :| m in ms;
    var rest := ms - multiset{m};
    var q := Next(g, s, Sent(m));
    OneSent(s.outbox, s.wire, ms, m);
    hide Next, Enabled;
    var later := SendAll(g, q, rest);
    OneMore(g, s, Sent(m), later);
    es := [Sent(m)] + later;
  }

  lemma OneSent(outbox: multiset<Msg>, wire: multiset<Msg>, ms: multiset<Msg>, m: Msg)
    requires m in ms && ms <= outbox
    ensures ms - multiset{m} <= outbox - multiset{m} && |ms - multiset{m}| == |ms| - 1
    ensures outbox - multiset{m} - (ms - multiset{m}) == outbox - ms
    ensures wire + multiset{m} + (ms - multiset{m}) == wire + ms
  {
  }

  lemma HandlerStores(g: Graph, s: Net, m: Msg, now: int)
    requires Enabled(g, s, Arrived(m, now))
    ensures var q, n := Next(g, s, Arrived(m, now)), Node(m.dst, g.verify);
            && (!Passes(g, s, m) ==> q == s.(wire := s.wire - multiset{m}))
            && (Passes(g, s, m) ==>
                  && Enabled(g, q, Stored(m, now))
                  && Next(g, q, Stored(m, now))
                  == s.(stores := s.stores[m.dst := GossipStores.Step(n, s.stores[m.dst], Received(m.record, now))],
                        wire := s.wire - multiset{m},
                        outbox := s.outbox + Outgoing(m.dst, g.peers[m.dst], {m.src}, m.record)))
  {
    hide RecordKey, Outgoing;
    assert s.checked + multiset{m} - multiset{m} == s.checked;
  }

  /** A handler and its forwarding loop that run in one go are a run of the flood, with the same store at
      the end and exactly the handler's messages sent. */
  lemma HandlerIsFloodRun(g: Graph, s: Net, m: Msg, now: int) returns (es: seq<NetEvent>)
    requires Enabled(g, s, Arrived(m, now))
    ensures var n, st := Node(m.dst, g.verify), s.stores[m.dst];
            var sent :=
              if Takes(n, st, m.record) then Outgoing(m.dst, g.peers[m.dst], {m.src}, m.record) else multiset{};
            && Valid(g, s, es)
            && Final(g, s, es)
            == s.(stores := s.stores[m.dst := GossipStores.Step(n, st, Received(m.record, now))],
                  wire := s.wire - multiset{m} + sent)
  {
    HandlerStores(g, s, m, now);
    var q := Next(g, s, Arrived(m, now));
    hide RecordKey, Outgoing, Next;
    if Passes(g, s, m) {
      var sent := Outgoing(m.dst, g.peers[m.dst], {m.src}, m.record);
      var stored := Next(g, q, Stored(m, now));
      var sends := SendAll(g, stored, sent);
      assert s.outbox + sent - sent == s.outbox;
      OneMore(g, q, Stored(m, now), sends);
      OneMore(g, s, Arrived(m, now), [Stored(m, now)] + sends);
      es := [Arrived(m, now)] + ([Stored(m, now)] + sends);
    } else {
      OneMore(g, s, Arrived(m, now), []);
      es := [Arrived(m, now)] + [];
      assert s.wire - multiset{m} + multiset{} == s.wire - multiset{m};
    }
  }

  // ----- each node of the network, by itself -----

  /** A step of the network as its node `n` sees it. Every message that `n` handles appears as received,
      also one that it rejects or that another handler has stored meanwhile. */
  ghost function Local(g: Graph, e: NetEvent, s: Net, n: string): seq<StoreEvent> {
    match e
    case Announced(r, boot, now) =>
      if r.ServerId() != n then [] else if boot then [Boot(r, now)] else [Announce(r.timestamp, r.signature, now)]
    case Arrived(m, now) => if m.dst == n && !Passes(g, s, m) then [Received(m.record, now)] else []
    case Stored(m, now) => if m.dst == n then [Received(m.record, now)] else []
    case Maintained(k, now) => if k == n then [Expire(now)] else []
    case Confirmed(k, id, now) => if k == n then [Beat(id, true, now)] else []
    case _ => []
  }

  lemma LocalStep(g: Graph, s: Net, e: NetEvent, n: string, past: seq<StoreEvent>)
    requires Enabled(g, s, e) && Screened(g, s) && n in g.peers
    requires s.stores[n] == Run(Node(n, g.verify), past)
    ensures n in Next(g, s, e).stores
    ensures Next(g, s, e).stores[n] == Run(Node(n, g.verify), past + Local(g, e, s, n))
  {
    var more := Local(g, e, s, n);
    if more == [] {
      assert past + more == past;
      UntouchedStore(g, s, e, n);
    } else {
      assert (past + more)[..|past|] == past;
      LocalEffect(g, s, e, n);
    }
  }

  lemma LocalEffect(g: Graph, s: Net, e: NetEvent, n: string)
    requires Enabled(g, s, e) && Screened(g, s) && n in g.peers && Local(g, e, s, n) != []
    ensures |Local(g, e, s, n)| == 1 && n in Next(g, s, e).stores
    ensures Next(g, s, e).stores[n] == GossipStores.Step(Node(n, g.verify), s.stores[n], Local(g, e, s, n)[0])
  {
    hide RecordKey, Outgoing, UnixNanos, AfterPut, AfterExpire, AfterBeat, AfterAnnounce;
    if e.Stored? {
      assert e.m in s.checked;
    }
  }

  lemma UntouchedStore(g: Graph, s: Net, e: NetEvent, n: string)
    requires Enabled(g, s, e) && n in g.peers && Local(g, e, s, n) == []
    ensures n in Next(g, s, e).stores && Next(g, s, e).stores[n] == s.stores[n]
  {
    hide RecordKey, Forwards, UnixNanos, AfterPut, AfterExpire, AfterBeat, AfterAnnounce;
  }

  /** In every run of the network, whatever is injected, what a node stores is what its own history of
      store events leads to; so the facts about single stores hold for all of them. */
  lemma {:induction false} EachNodeRuns(g: Graph, s: Net, es: seq<NetEvent>, n: string, past: seq<StoreEvent>)
    returns (history: seq<StoreEvent>)
    requires Valid(g, s, es) && Screened(g, s) && n in g.peers
    requires s.stores[n] == Run(Node(n, g.verify), past)
    ensures n in Final(g, s, es).stores && Final(g, s, es).stores[n] == Run(Node(n, g.verify), history)
    decreases |es|
  {
    if es == [] {
      return past;
    }
    LocalStep(g, s, es[0], n, past);
    StepScreened(g, s, es[0]);
    hide Screened, Next, Enabled, Run;
    history := EachNodeRuns(g, Next(g, s, es[0]), es[1..], n, past + Local(g, es[0], s, n));
  }
}
