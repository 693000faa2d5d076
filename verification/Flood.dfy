/** Flooding of announcements through a fixed, lossless peer graph. Handlers run concurrently: the
    checks, the store and each single send are separate steps that may interleave with any other node's
    or handler's steps. Anyone can connect to a node, so at any time a message of any content may appear
    on the wire. A node's address is taken to be its server id. */
module Flood {
  import opened Collections
  import opened Calendar
  import opened GossipRecords
  import opened GossipStores

  datatype Msg = Msg(src: string, dst: string, record: Record)

  datatype Graph = Graph(peers: map<string, set<string>>, verify: Record -> bool)

  /** `outbox`: sends that a broadcast or forwarding loop still has to make; `wire`: sent, not yet
      handled; `checked`: handlers between their checks and the store. `announced` records which node
      announced which key. */
  datatype Net = Net(
    stores: map<string, StoreState>,
    announced: set<(string, string)>,
    outbox: multiset<Msg>,
    wire: multiset<Msg>,
    checked: multiset<Msg>)

  /** `Injected`: a client of any kind delivers a message of any content. */
  datatype NetEvent =
    | Announced(record: Record, boot: bool, now: int)
    | Injected(m: Msg)
    | Sent(m: Msg)
    | Arrived(m: Msg, now: int)
    | Stored(m: Msg, now: int)
    | Maintained(node: string, now: int)
    | Confirmed(node: string, id: string, now: int)

  ghost predicate GoodGraph(g: Graph) {
    forall n :: n in g.peers ==> g.peers[n] <= g.peers.Keys
  }

  ghost function Start(g: Graph): Net {
    Net(map n | n in g.peers :: EMPTY_STORE, {}, multiset{}, multiset{}, multiset{})
  }

  /** One message with record `r` to each of the peers that are not excluded. */
  ghost function Outgoing(own: string, peers: set<string>, exclude: set<string>, r: Record): multiset<Msg> {
    multiset(set p | p in peers - exclude :: Msg(own, p, r))
  }

  ghost function Forwards(g: Graph, n: string, sender: set<string>, r: Record): multiset<Msg>
    requires n in g.peers
  {
    Outgoing(n, g.peers[n], sender, r)
  }

  ghost predicate Enabled(g: Graph, s: Net, e: NetEvent) {
    s.stores.Keys == g.peers.Keys &&
    match e
    case Announced(r, _, _) => r.ServerId() in g.peers && g.verify(r)
    case Injected(m) => m.dst in g.peers
    case Sent(m) => m in s.outbox
    case Arrived(m, _) => m in s.wire && m.dst in g.peers
    case Stored(m, _) => m in s.checked && m.dst in g.peers
    case Maintained(n, _) => n in g.peers
    case Confirmed(n, _, _) => n in g.peers
  }

  /** This step stores the record at its destination, rather than finding that another handler did. */
  ghost predicate Fresh(s: Net, m: Msg) {
    m.dst in s.stores && IsNew(s.stores[m.dst], m.record)
  }

  /** The destination's handler gets past its checks. */
  ghost predicate Passes(g: Graph, s: Net, m: Msg) {
    m.dst in s.stores && Takes(Node(m.dst, g.verify), s.stores[m.dst], m.record)
  }

  ghost function Next(g: Graph, s: Net, e: NetEvent): Net
    requires Enabled(g, s, e)
  {
    match e
    case Announced(r, boot, now) =>
      var n := r.ServerId();
      var st := s.stores[n];
      s.(stores := s.stores[n := if boot then AfterPut(st, r, now) else AfterAnnounce(st, n, r.timestamp, r.signature)],
         announced := s.announced + {(n, RecordKey(r))},
         outbox := s.outbox + Forwards(g, n, {}, r))
    case Injected(m) => s.(wire := s.wire + multiset{m})
    case Sent(m) => s.(outbox := s.outbox - multiset{m}, wire := s.wire + multiset{m})
    case Arrived(m, _) =>
      if Passes(g, s, m)
      then s.(wire := s.wire - multiset{m}, checked := s.checked + multiset{m})
      else s.(wire := s.wire - multiset{m})
    case Stored(m, now) =>
      if Fresh(s, m)
      then s.(checked := s.checked - multiset{m},
              stores := s.stores[m.dst := AfterPut(s.stores[m.dst], m.record, now)],
              outbox := s.outbox + Forwards(g, m.dst, {m.src}, m.record))
      else s.(checked := s.checked - multiset{m})
    case Maintained(n, now) => s.(stores := s.stores[n := AfterExpire(s.stores[n], now)])
    case Confirmed(n, id, now) => s.(stores := s.stores[n := AfterBeat(s.stores[n], id, now)])
  }

  ghost predicate Valid(g: Graph, s: Net, es: seq<NetEvent>)
    decreases |es|
  {
    es == [] || (Enabled(g, s, es[0]) && Valid(g, Next(g, s, es[0]), es[1..]))
  }

  ghost function Final(g: Graph, s: Net, es: seq<NetEvent>): Net
    requires Valid(g, s, es)
    decreases |es|
  {
    if es == [] then s else Final(g, Next(g, s, es[0]), es[1..])
  }

  lemma OneMore(g: Graph, s: Net, e: NetEvent, rest: seq<NetEvent>)
    requires Enabled(g, s, e) && Valid(g, Next(g, s, e), rest)
    ensures Valid(g, s, [e] + rest) && Final(g, s, [e] + rest) == Final(g, Next(g, s, e), rest)
  {
    assert ([e] + rest)[1..] == rest;
  }

  lemma {:induction false} ThenMore(g: Graph, s: Net, es: seq<NetEvent>, more: seq<NetEvent>)
    requires Valid(g, s, es) && Valid(g, Final(g, s, es), more)
    ensures Valid(g, s, es + more) && Final(g, s, es + more) == Final(g, Final(g, s, es), more)
    decreases |es|
  {
    hide Next, Enabled;
    if es == [] {
      assert es + more == more;
    } else {
      assert (es + more)[1..] == es[1..] + more;
      ThenMore(g, Next(g, s, es[0]), es[1..], more);
    }
  }

  ghost function Transit(s: Net): multiset<Msg> {
    s.outbox + s.wire + s.checked
  }

  ghost predicate Quiet(s: Net) {
    Transit(s) == multiset{}
  }

  lemma ForwardsMember(g: Graph, n: string, sender: set<string>, r: Record, m: Msg)
    requires n in g.peers
    ensures m in Forwards(g, n, sender, r) <==> m.src == n && m.record == r && m.dst in g.peers[n] - sender
  {
  }

  /** Where the messages in transit after a step come from. */
  lemma TransitAfter(g: Graph, s: Net, e: NetEvent, m: Msg)
    requires Enabled(g, s, e) && m in Transit(Next(g, s, e))
    ensures || m in Transit(s)
            || (e.Injected? && m == e.m)
            || (e.Announced? && m in Forwards(g, e.record.ServerId(), {}, e.record))
            || (e.Stored? && Fresh(s, e.m) && m in Forwards(g, e.m.dst, {e.m.src}, e.m.record))
    ensures m in Next(g, s, e).checked ==> m in s.checked || (e.Arrived? && m == e.m && Passes(g, s, m))
  {
    hide RecordKey, Outgoing, AfterPut, AfterExpire, AfterBeat, AfterAnnounce, Passes, Fresh, IsNew;
  }

  /** The keys that a step adds to the deduplication set of a node. */
  ghost function NewKeys(s: Net, e: NetEvent, n: string): set<string> {
    if e.Stored? && e.m.dst == n && Fresh(s, e.m) then {RecordKey(e.m.record)}
    else if e.Announced? && e.boot && e.record.ServerId() == n then {RecordKey(e.record)}
    else {}
  }

  lemma SeenInStore(st: StoreState, now: int)
    ensures forall r :: AfterPut(st, r, now).seen == st.seen + {RecordKey(r)}
    ensures forall id :: AfterBeat(st, id, now).seen == st.seen
    ensures AfterExpire(st, now).seen == st.seen
    ensures forall id, t, signature :: AfterAnnounce(st, id, t, signature).seen == st.seen
  {
    hide RecordKey, UnixNanos;
  }

  lemma SeenAfterAt(g: Graph, s: Net, e: NetEvent, n: string)
    requires Enabled(g, s, e) && n in s.stores
    ensures n in Next(g, s, e).stores && Next(g, s, e).stores[n].seen == s.stores[n].seen + NewKeys(s, e, n)
  {
    hide RecordKey, Outgoing, AfterPut, AfterExpire, AfterBeat, AfterAnnounce, Passes, Fresh;
    var seen := s.stores[n].seen;
    assert seen + {} == seen;
    if e.Announced? || e.Stored? || e.Maintained? || e.Confirmed? {
      SeenInStore(s.stores[n], e.now);
    }
  }

  lemma SeenAfter(g: Graph, s: Net, e: NetEvent)
    requires Enabled(g, s, e)
    ensures var q := Next(g, s, e);
            && q.stores.Keys == s.stores.Keys
            && forall n :: n in s.stores ==> q.stores[n].seen == s.stores[n].seen + NewKeys(s, e, n)
  {
    assert Next(g, s, e).stores.Keys == s.stores.Keys;
    hide Next, Enabled, NewKeys;
    forall n | n in s.stores
      ensures n in Next(g, s, e).stores && Next(g, s, e).stores[n].seen == s.stores[n].seen + NewKeys(s, e, n)
    {
      SeenAfterAt(g, s, e, n);
    }
  }

  // ----- what holds whatever is injected -----

  /** No handler passes the checks with a record that is unverified or its own node's. */
  ghost predicate Screened(g: Graph, s: Net) {
    && GoodGraph(g)
    && s.stores.Keys == g.peers.Keys
    && (forall m :: m in Transit(s) ==> m.dst in g.peers)
    && (forall m :: m in s.checked ==> g.verify(m.record) && m.record.ServerId() != m.dst)
  }

  lemma StartScreened(g: Graph)
    requires GoodGraph(g)
    ensures Screened(g, Start(g))
  {
  }

  lemma DestinationInGraph(g: Graph, s: Net, e: NetEvent, m: Msg)
    requires Enabled(g, s, e) && Screened(g, s) && m in Transit(Next(g, s, e))
    ensures m.dst in g.peers
  {
    hide Next, Forwards, Transit, Fresh, Passes;
    TransitAfter(g, s, e, m);
    if m !in Transit(s) && e.Announced? {
      ForwardsMember(g, e.record.ServerId(), {}, e.record, m);
    } else if m !in Transit(s) && e.Stored? {
      ForwardsMember(g, e.m.dst, {e.m.src}, e.m.record, m);
    }
  }

  lemma CheckedIsScreened(g: Graph, s: Net, e: NetEvent, m: Msg)
    requires Enabled(g, s, e) && Screened(g, s) && m in Next(g, s, e).checked
    ensures g.verify(m.record) && m.record.ServerId() != m.dst
  {
    assert m in Transit(Next(g, s, e));
    hide Next, Forwards, Transit, Fresh, Enabled;
    TransitAfter(g, s, e, m);
  }

  lemma StepScreened(g: Graph, s: Net, e: NetEvent)
    requires Enabled(g, s, e) && Screened(g, s)
    ensures Screened(g, Next(g, s, e))
  {
    hide Next, Transit, Enabled;
    SeenAfter(g, s, e);
    forall m | m in Transit(Next(g, s, e)) ensures m.dst in g.peers {
      DestinationInGraph(g, s, e, m);
    }
    forall m | m in Next(g, s, e).checked ensures g.verify(m.record) && m.record.ServerId() != m.dst {
      CheckedIsScreened(g, s, e, m);
    }
  }

  lemma {:induction false} RunScreened(g: Graph, s: Net, es: seq<NetEvent>)
    requires Valid(g, s, es) && Screened(g, s)
    ensures Screened(g, Final(g, s, es))
    decreases |es|
  {
    hide Screened, Next, Enabled;
    if es != [] {
      StepScreened(g, s, es[0]);
      RunScreened(g, Next(g, s, es[0]), es[1..]);
    }
  }

  // ----- coverage -----

  /** The node has announced the key or accepted a record under it. */
  ghost predicate Has(s: Net, n: string, key: string) {
    (n, key) in s.announced || (n in s.stores && key in s.stores[n].seen)
  }

  /** A copy that the destination will not reject as unverified. */
  ghost predicate OnItsWay(g: Graph, s: Net, p: string, key: string) {
    exists m :: m in Transit(s) && m.dst == p && g.verify(m.record) && RecordKey(m.record) == key
  }

  /** Nothing is asked of a message whose record fails verification. A verified record of a node of the
      graph was announced by it, since nobody else can sign it; and a message whose sender is a peer of
      its destination is from that peer, which has the record. */
  ghost predicate HonestMsg(g: Graph, s: Net, m: Msg) {
    && SignedMsg(g, s, m)
    && (g.verify(m.record) && m.dst in g.peers && m.src in g.peers[m.dst] ==> Has(s, m.src, RecordKey(m.record)))
  }

  ghost predicate SignedMsg(g: Graph, s: Net, m: Msg) {
    g.verify(m.record) && m.record.ServerId() in g.peers ==>
      (m.record.ServerId(), RecordKey(m.record)) in s.announced
  }

  ghost predicate KeyOf(n: string, key: string) {
    exists r: Record :: r.ServerId() == n && RecordKey(r) == key
  }

  /** Nodes of the graph announce keys of their own. */
  ghost predicate OwnAnnouncements(g: Graph, s: Net) {
    forall a :: a in s.announced ==> a.0 in g.peers && KeyOf(a.0, a.1)
  }

  ghost predicate Honest(g: Graph, s: Net) {
    && Screened(g, s)
    && (forall m :: m in Transit(s) ==> HonestMsg(g, s, m))
    && OwnAnnouncements(g, s)
  }

  /** Each peer of a node that has a key has it too, or a copy is on its way to it. */
  ghost predicate Spreading(g: Graph, s: Net) {
    forall n, p, key :: n in g.peers && p in g.peers[n] && Has(s, n, key) ==> Has(s, p, key) || OnItsWay(g, s, p, key)
  }

  lemma SeenGrows(g: Graph, s: Net, e: NetEvent)
    requires Enabled(g, s, e)
    ensures var q := Next(g, s, e);
            && s.announced <= q.announced
            && (forall a :: a in q.announced - s.announced ==>
                  e.Announced? && a == (e.record.ServerId(), RecordKey(e.record)))
            && (forall n, key :: Has(s, n, key) ==> Has(q, n, key))
  {
    SeenAfter(g, s, e);
    hide RecordKey, Forwards, AfterPut, AfterExpire, AfterBeat, AfterAnnounce, NewKeys;
  }

  lemma HonestMsgStays(g: Graph, s: Net, q: Net, m: Msg)
    requires HonestMsg(g, s, m) && s.announced <= q.announced && forall n, key :: Has(s, n, key) ==> Has(q, n, key)
    ensures HonestMsg(g, q, m)
  {
    hide Has;
  }

  /** What a node sends on is honest. */
  lemma ForwardsHonest(g: Graph, s: Net, e: NetEvent, m: Msg)
    requires Enabled(g, s, e) && Honest(g, s)
    requires || (e.Announced? && m in Forwards(g, e.record.ServerId(), {}, e.record))
             || (e.Stored? && Fresh(s, e.m) && m in Forwards(g, e.m.dst, {e.m.src}, e.m.record))
    ensures HonestMsg(g, Next(g, s, e), m)
  {
    SeenAfter(g, s, e);
    hide Forwards, Outgoing, RecordKey;
    if e.Announced? {
      ForwardsMember(g, e.record.ServerId(), {}, e.record, m);
    } else {
      ForwardsMember(g, e.m.dst, {e.m.src}, e.m.record, m);
      assert e.m in Transit(s);
      assert HonestMsg(g, s, e.m);
      assert Has(Next(g, s, e), e.m.dst, RecordKey(e.m.record));
    }
  }

  lemma MessageAfterHonest(g: Graph, s: Net, e: NetEvent, m: Msg)
    requires Enabled(g, s, e) && Honest(g, s) && (e.Injected? ==> HonestMsg(g, s, e.m))
    requires m in Transit(Next(g, s, e))
    ensures HonestMsg(g, Next(g, s, e), m)
  {
    TransitAfter(g, s, e, m);
    SeenGrows(g, s, e);
    if m in Transit(s) || e.Injected? {
      assert HonestMsg(g, s, m);
      hide *;
      HonestMsgStays(g, s, Next(g, s, e), m);
    } else {
      hide *;
      ForwardsHonest(g, s, e, m);
    }
  }

  lemma InjectedMessage(g: Graph, s: Net, e: NetEvent)
    requires Enabled(g, s, e) && e.Injected?
    ensures e.m in Transit(Next(g, s, e)) && (HonestMsg(g, Next(g, s, e), e.m) <==> HonestMsg(g, s, e.m))
  {
    hide RecordKey;
  }

  lemma OwnAnnouncementsStay(g: Graph, s: Net, e: NetEvent)
    requires Enabled(g, s, e) && OwnAnnouncements(g, s)
    ensures OwnAnnouncements(g, Next(g, s, e))
  {
    hide Outgoing, AfterPut, AfterAnnounce, AfterExpire, AfterBeat, RecordKey;
    if e.Announced? {
      assert KeyOf(e.record.ServerId(), RecordKey(e.record));
    }
  }

  /** A step keeps the messages honest exactly when it does not inject a dishonest one. */
  lemma StepHonestIff(g: Graph, s: Net, e: NetEvent)
    requires Enabled(g, s, e) && Honest(g, s)
    ensures Honest(g, Next(g, s, e)) <==> (e.Injected? ==> HonestMsg(g, s, e.m))
  {
    hide Next, Screened, Transit, HonestMsg, Enabled, OwnAnnouncements;
    StepScreened(g, s, e);
    OwnAnnouncementsStay(g, s, e);
    if e.Injected? {
      InjectedMessage(g, s, e);
    }
    if e.Injected? ==> HonestMsg(g, s, e.m) {
      forall m | m in Transit(Next(g, s, e)) ensures HonestMsg(g, Next(g, s, e), m) {
        MessageAfterHonest(g, s, e, m);
      }
    }
  }

  /** Nothing that was on its way is lost unless it has arrived, and nodes that newly have a key pass it on. */
  lemma SpreadingCarries(g: Graph, s: Net, q: Net)
    requires Spreading(g, s)
    requires forall n, key :: Has(s, n, key) ==> Has(q, n, key)
    requires forall p, key :: OnItsWay(g, s, p, key) ==> OnItsWay(g, q, p, key) || Has(q, p, key)
    requires forall n, p, key :: n in g.peers && p in g.peers[n] && Has(q, n, key) && !Has(s, n, key)
               ==> Has(q, p, key) || OnItsWay(g, q, p, key)
    ensures Spreading(g, q)
  {
    hide Has, OnItsWay;
  }

  /** A message leaves only when it is handled. */
  lemma StillInTransit(g: Graph, s: Net, e: NetEvent, m: Msg)
    requires Enabled(g, s, e) && m in Transit(s)
    ensures m in Transit(Next(g, s, e))
            || (e.Arrived? && m == e.m && !Passes(g, s, m))
            || (e.Stored? && m == e.m)
  {
    hide RecordKey, Outgoing, AfterPut, AfterExpire, AfterBeat, AfterAnnounce, Passes, Fresh, IsNew;
  }

  /** Only the servers themselves can sign their records. */
  ghost predicate Signed(g: Graph, s: Net) {
    forall m :: m in Transit(s) ==> SignedMsg(g, s, m)
  }

  /** A verified record is turned away on arrival only by a node that has it. */
  lemma TurnedAwayHasIt(g: Graph, s: Net, m: Msg)
    requires Signed(g, s) && s.stores.Keys == g.peers.Keys
    requires m in s.wire && m.dst in s.stores && g.verify(m.record) && !Passes(g, s, m)
    ensures Has(s, m.dst, RecordKey(m.record))
  {
    hide RecordKey;
    assert m in Transit(s);
    assert SignedMsg(g, s, m);
  }

  lemma StoredHasIt(g: Graph, s: Net, e: NetEvent)
    requires Enabled(g, s, e) && e.Stored?
    ensures Has(Next(g, s, e), e.m.dst, RecordKey(e.m.record))
  {
    hide RecordKey, Outgoing;
  }

  lemma LostOnlyAfterArrival(g: Graph, s: Net, e: NetEvent, p: string, key: string)
    requires Enabled(g, s, e) && Signed(g, s) && OnItsWay(g, s, p, key)
    ensures OnItsWay(g, Next(g, s, e), p, key) || Has(Next(g, s, e), p, key)
  {
    var m :| m in Transit(s) && m.dst == p && g.verify(m.record) && RecordKey(m.record) == key;
    var q := Next(g, s, e);
    StillInTransit(g, s, e, m);
    if m !in Transit(q) {
      if e.Arrived? {
        TurnedAwayHasIt(g, s, m);
        SeenGrows(g, s, e);
      } else {
        StoredHasIt(g, s, e);
      }
    }
  }

  /** Only announcing and storing give a node a key. */
  lemma NewHas(g: Graph, s: Net, e: NetEvent, n: string, key: string)
    requires Enabled(g, s, e) && Has(Next(g, s, e), n, key) && !Has(s, n, key)
    ensures || (e.Announced? && n == e.record.ServerId() && key == RecordKey(e.record))
            || (e.Stored? && Fresh(s, e.m) && n == e.m.dst && key == RecordKey(e.m.record))
  {
    SeenAfter(g, s, e);
    SeenGrows(g, s, e);
    hide RecordKey, Next;
  }

  lemma SentOut(g: Graph, s: Net, e: NetEvent, m: Msg)
    requires Enabled(g, s, e)
    requires || (e.Announced? && m in Forwards(g, e.record.ServerId(), {}, e.record))
             || (e.Stored? && Fresh(s, e.m) && m in Forwards(g, e.m.dst, {e.m.src}, e.m.record))
    ensures m in Transit(Next(g, s, e))
  {
    hide RecordKey, Outgoing, AfterPut, AfterAnnounce, IsNew;
  }

  /** A handler stores a record that seemed to come from a peer which neither has it nor is about to get
      it, and so will not send it there. */
  ghost predicate Starves(g: Graph, s: Net, e: NetEvent) {
    && e.Stored? && Fresh(s, e.m) && e.m.dst in g.peers && e.m.src in g.peers[e.m.dst] && e.m.src != e.m.dst
    && !Has(s, e.m.src, RecordKey(e.m.record)) && !OnItsWay(g, s, e.m.src, RecordKey(e.m.record))
  }

  /** A node that comes to have a key starts a copy to each peer that may lack it. */
  lemma NewlyPassedOn(g: Graph, s: Net, e: NetEvent, n: string, p: string, key: string)
    requires Enabled(g, s, e) && Screened(g, s) && Signed(g, s) && !Starves(g, s, e) && n in g.peers && p in g.peers[n]
    requires Has(Next(g, s, e), n, key) && !Has(s, n, key)
    ensures Has(Next(g, s, e), p, key) || OnItsWay(g, Next(g, s, e), p, key)
  {
    NewHas(g, s, e, n, key);
    SeenGrows(g, s, e);
    var r := if e.Announced? then e.record else e.m.record;
    assert g.verify(r);
    var m := Msg(n, p, r);
    if e.Stored? && p == e.m.src {
      hide Next, Screened, Signed, Forwards, RecordKey, Transit, Has, OnItsWay, Fresh;
      if OnItsWay(g, s, p, key) {
        LostOnlyAfterArrival(g, s, e, p, key);
      }
    } else {
      ForwardsMember(g, n, if e.Announced? then {} else {e.m.src}, r, m);
      hide Next, Has, Screened, Signed, Forwards, RecordKey, Transit;
      SentOut(g, s, e, m);
    }
  }

  lemma StarvedPeer(g: Graph, s: Net, e: NetEvent)
    requires Enabled(g, s, e) && Starves(g, s, e)
    ensures !Spreading(g, Next(g, s, e))
  {
    var q, key, p := Next(g, s, e), RecordKey(e.m.record), e.m.src;
    StoredHasIt(g, s, e);
    if Has(q, p, key) {
      NewHas(g, s, e, p, key);
    }
    hide Next, Has, Transit, Forwards, Fresh;
    forall m | m in Transit(q) && m.dst == p && g.verify(m.record) && RecordKey(m.record) == key ensures false {
      TransitAfter(g, s, e, m);
      if m !in Transit(s) {
        ForwardsMember(g, e.m.dst, {e.m.src}, e.m.record, m);
      }
    }
    assert !OnItsWay(g, q, p, key);
  }

  /** The spreading survives a step, whatever is injected, exactly when the step starves no peer. */
  lemma StepSpreadsIff(g: Graph, s: Net, e: NetEvent)
    requires Enabled(g, s, e) && Screened(g, s) && Signed(g, s) && Spreading(g, s)
    ensures Spreading(g, Next(g, s, e)) <==> !Starves(g, s, e)
  {
    hide Screened, Signed, Spreading, Next, Enabled, Has, OnItsWay, Starves;
    if Starves(g, s, e) {
      StarvedPeer(g, s, e);
    } else {
      SeenGrows(g, s, e);
      var q := Next(g, s, e);
      forall p, key | OnItsWay(g, s, p, key) ensures OnItsWay(g, q, p, key) || Has(q, p, key) {
        LostOnlyAfterArrival(g, s, e, p, key);
      }
      forall n, p, key | n in g.peers && p in g.peers[n] && Has(q, n, key) && !Has(s, n, key)
        ensures Has(q, p, key) || OnItsWay(g, q, p, key)
      {
        NewlyPassedOn(g, s, e, n, p, key);
      }
      SpreadingCarries(g, s, q);
    }
  }

  /** Among honest messages nobody starves. */
  lemma HonestNeverStarves(g: Graph, s: Net, e: NetEvent)
    requires Enabled(g, s, e) && Honest(g, s)
    ensures Signed(g, s) && !Starves(g, s, e)
  {
    hide RecordKey, Has;
    if e.Stored? {
      assert e.m in Transit(s) && e.m in s.checked;
      assert HonestMsg(g, s, e.m);
    }
  }

  /** What every step of the protocol keeps, as long as nothing dishonest is injected. */
  lemma StepKeeps(g: Graph, s: Net, e: NetEvent)
    requires Enabled(g, s, e) && Honest(g, s) && Spreading(g, s)
    requires e.Injected? ==> HonestMsg(g, s, e.m)
    ensures Honest(g, Next(g, s, e)) && Spreading(g, Next(g, s, e))
  {
    HonestNeverStarves(g, s, e);
    assert Screened(g, s);
    hide Honest, Spreading, Next, Enabled, HonestMsg, Screened, Signed, Starves;
    StepHonestIff(g, s, e);
    StepSpreadsIff(g, s, e);
  }

  /** No injected message is dishonest when it appears: forged and damaged records, replayed ones and
      those of servers outside the graph may all occur. */
  ghost predicate Unforged(g: Graph, s: Net, es: seq<NetEvent>)
    requires Valid(g, s, es)
    decreases |es|
  {
    es == [] || ((es[0].Injected? ==> HonestMsg(g, s, es[0].m)) && Unforged(g, Next(g, s, es[0]), es[1..]))
  }

  lemma {:induction false} RunKeeps(g: Graph, s: Net, es: seq<NetEvent>)
    requires Valid(g, s, es) && Unforged(g, s, es) && Honest(g, s) && Spreading(g, s)
    ensures Honest(g, Final(g, s, es)) && Spreading(g, Final(g, s, es))
    decreases |es|
  {
    hide Honest, Spreading, Next, Enabled, HonestMsg;
    if es != [] {
      StepKeeps(g, s, es[0]);
      RunKeeps(g, Next(g, s, es[0]), es[1..]);
    }
  }

  lemma StartKeeps(g: Graph)
    requires GoodGraph(g)
    ensures Honest(g, Start(g)) && Spreading(g, Start(g))
  {
    assert forall n, key :: !Has(Start(g), n, key);
  }

  ghost predicate Path(g: Graph, ns: seq<string>) {
    ns != [] && ns[0] in g.peers && (|ns| > 1 ==> ns[1] in g.peers[ns[0]] && Path(g, ns[1..]))
  }

  lemma {:induction false} QuietPath(g: Graph, s: Net, ns: seq<string>, key: string)
    requires Honest(g, s) && Spreading(g, s) && Quiet(s) && Path(g, ns) && Has(s, ns[0], key)
    ensures Has(s, ns[|ns| - 1], key)
    decreases |ns|
  {
    hide Has, RecordKey;
    if |ns| > 1 {
      assert !OnItsWay(g, s, ns[1], key);
      QuietPath(g, s, ns[1..], key);
    }
  }

  lemma OneOrigin(g: Graph, s: Net, n: string, p: string, key: string)
    requires Honest(g, s) && (n, key) in s.announced && (p, key) in s.announced
    ensures n == p
  {
    assert KeyOf((n, key).0, (n, key).1) && KeyOf((p, key).0, (p, key).1);
    var a: Record :| a.ServerId() == n && RecordKey(a) == key;
    var b: Record :| b.ServerId() == p && RecordKey(b) == key;
    RecordKeyIff(a, b);
  }

  /** In any unforged run, once nothing is in transit, every node reachable from one that has a key has
      it, and every other node reachable from an announcer has accepted a record under the key. */
  lemma FloodCoverage(g: Graph, es: seq<NetEvent>, ns: seq<string>, key: string)
    requires GoodGraph(g) && Valid(g, Start(g), es) && Unforged(g, Start(g), es) && Quiet(Final(g, Start(g), es))
    requires Path(g, ns) && Has(Final(g, Start(g), es), ns[0], key)
    ensures Has(Final(g, Start(g), es), ns[|ns| - 1], key)
    ensures (ns[0], key) in Final(g, Start(g), es).announced && ns[|ns| - 1] != ns[0] ==>
              var st := Final(g, Start(g), es).stores; ns[|ns| - 1] in st && key in st[ns[|ns| - 1]].seen
  {
    StartKeeps(g);
    RunKeeps(g, Start(g), es);
    var f, last := Final(g, Start(g), es), ns[|ns| - 1];
    QuietPath(g, f, ns, key);
    if (ns[0], key) in f.announced && (last, key) in f.announced {
      OneOrigin(g, f, ns[0], last, key);
    }
  }
}
