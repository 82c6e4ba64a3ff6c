/** Building and finishing the topology graph. */
module TopologyGraphs {
  import opened Wrappers
  import opened UpsStatuses
  import opened AttachedClients
  import opened Topology

  /** What the graph takes from a device entry. */
  datatype Device = Device(
    name: string,
    manufacturer: Option<string>,
    model: Option<string>,
    serial: Option<string>,
    status: UpsStatus,
    attached: seq<ClientInfo>)

  function IdOf(d: Device, namespace: Namespace): DeviceId {
    DeviceId(d.manufacturer, d.model, d.serial, d.name, namespace)
  }

  datatype SemanticType = NoType | Info | Success | Warning | Error

  function SemanticTypeOf(status: UpsStatus): SemanticType {
    if NOCOMM in status || OFFLINE in status || BYPASS in status then NoType
    else if FORCED_SHUTDOWN in status || LOW_BATTERY in status || REPLACE_BATTERY in status
            || ALARM in status || OVERLOADED in status then Error
    else if ON_BATTERY in status || TRIM in status || BOOST in status then Warning
    else Success
  }

  /** A node shows nothing for a device that does not report, is off or bypassed, else the worst that the
      words of its status tell. */
  lemma SemanticTypeByWords(text: string)
    ensures var t := SemanticTypeOf(Parse(text));
            var silent := HasWord(text, "NOCOMM") || HasWord(text, "OFF") || HasWord(text, "BYPASS");
            var failing := HasWord(text, "FSD") || HasWord(text, "LB") || HasWord(text, "RB")
                           || HasWord(text, "ALARM") || HasWord(text, "OVER");
            var strained := HasWord(text, "OB") || HasWord(text, "TRIM") || HasWord(text, "BOOST");
            t == if silent then NoType else if failing then Error else if strained then Warning else Success
    ensures DataType(Parse(text)) == if HasWord(text, "NOCOMM") then Error else Info
  {
    FlagWords();
    forall k: nat ensures k in Parse(text) <==> k < |NAMES| && HasWord(text, NAMES[k]) {
      FlagsAreNamedWords(text, k);
    }
  }

  /** The node that is made for a device whose id is not known. */
  function NodeOf(d: Device, namespace: Namespace): DeviceNode {
    DeviceNode(0, IdOf(d, namespace), [Alias(d.name, namespace)], SemanticTypeOf(d.status))
  }

  function DataType(status: UpsStatus): SemanticType {
    if NOCOMM in status then Error else Info
  }

  datatype Alias = Alias(name: string, namespace: Namespace)

  datatype Link = DeviceLink(key: DeviceId) | ClientLink(addr: Addr) | ServerLink(namespace: Namespace)

  datatype EdgeType = Data | Power

  datatype EdgeRef = EdgeRef(from: Link, to: Link, edgeType: EdgeType, semanticType: SemanticType)

  datatype Counter = Counter(active: nat, degraded: nat, failed: nat) {
    function Total(): nat {
      active + degraded + failed
    }

    function Count(t: SemanticType): Counter {
      match t
      case NoType => this
      case Error => this.(failed := failed + 1)
      case Warning => this.(degraded := degraded + 1)
      case _ => this.(active := active + 1)
    }
  }

  datatype DeviceNode = DeviceNode(id: nat, key: DeviceId, aliases: seq<Alias>, semanticType: SemanticType)

  datatype ClientNode = ClientNode(id: nat, name: Option<string>, counter: Counter)

  datatype ServerNode = ServerNode(id: nat, counter: Counter)

  // ---------- Devices in their order ----------

  predicate Sorted(devices: seq<DeviceNode>) {
    forall i, j | 0 <= i < j < |devices| :: Cmp(devices[i].key, devices[j].key) == Less
  }

  /** Where a search for the key stops: at the first device from `i` on that does not come before
      it. */
  function Search(devices: seq<DeviceNode>, key: DeviceId, i: nat): (k: nat)
    requires i <= |devices|
    ensures i <= k <= |devices|
    ensures k < |devices| ==> Cmp(devices[k].key, key) != Less
    ensures forall j | i <= j < k :: Cmp(devices[j].key, key) == Less
    decreases |devices| - i
  {
    if i == |devices| || Cmp(devices[i].key, key) != Less then i else Search(devices, key, i + 1)
  }

  /** The device with an equal key, if the ordered search finds one. */
  function Find(devices: seq<DeviceNode>, key: DeviceId): Option<nat> {
    var k := Search(devices, key, 0);
    if k < |devices| && Cmp(devices[k].key, key) == Equal then Some(k) else None
  }

  /** In sorted devices the search finds a device if and only if there is one, and there is at most
      one. This needs the order to be a total preorder. */
  lemma FindIsExact(devices: seq<DeviceNode>, key: DeviceId, j: nat)
    requires Sorted(devices) && j < |devices|
    ensures Cmp(devices[j].key, key) == Equal <==> Find(devices, key) == Some(j)
  {
    var k := Search(devices, key, 0);
    if Cmp(devices[j].key, key) == Equal && k != j {
      assert k < j;
      CmpOfEquals(devices[j].key, key, devices[k].key);
    }
  }

  function InsertAt(devices: seq<DeviceNode>, node: DeviceNode): seq<DeviceNode> {
    var k := Search(devices, node.key, 0);
    devices[..k] + [node] + devices[k..]
  }

  lemma InsertKeepsSorted(devices: seq<DeviceNode>, node: DeviceNode)
    requires Sorted(devices) && Find(devices, node.key) == None
    ensures Sorted(InsertAt(devices, node))
  {
    var k := Search(devices, node.key, 0);
    forall j | k <= j < |devices| ensures Cmp(node.key, devices[j].key) == Less {
      CmpFlips(devices[k].key, node.key);
      if k < j {
        LessIsTransitive(node.key, devices[k].key, devices[j].key);
      }
    }
  }

  // ---------- What the devices are made of ----------

  function AliasOf(id: DeviceId): Alias {
    Alias(id.name, id.namespace)
  }

  /** The aliases of the entered ids that are equal to the key, in order. */
  function AliasesOf(entered: seq<DeviceId>, key: DeviceId): seq<Alias> {
    if entered == [] then []
    else
      var last := entered[|entered| - 1];
      AliasesOf(entered[..|entered| - 1], key) + (if Cmp(key, last) == Equal then [AliasOf(last)] else [])
  }

  /** Every entered id belongs to a device, and the aliases of a device are those of its ids. */
  predicate Partitioned(devices: seq<DeviceNode>, entered: seq<DeviceId>) {
    && Sorted(devices)
    && (forall i | 0 <= i < |devices| :: devices[i].aliases == AliasesOf(entered, devices[i].key))
    && (forall k | 0 <= k < |entered| :: Find(devices, entered[k]).Some?)
  }

  lemma {:induction false} AliasesOfUnknown(devices: seq<DeviceNode>, entered: seq<DeviceId>, key: DeviceId)
    requires Sorted(devices) && Find(devices, key) == None
    requires forall k | 0 <= k < |entered| :: Find(devices, entered[k]).Some?
    ensures AliasesOf(entered, key) == []
  {
    if entered != [] {
      var last := entered[|entered| - 1];
      AliasesOfUnknown(devices, entered[..|entered| - 1], key);
      var j := Find(devices, last).value;
      FindIsExact(devices, key, j);
      CmpFlips(key, last);
      if Cmp(key, last) == Equal {
        CmpOfEquals(key, last, devices[j].key);
      }
    }
  }

  lemma AliasesGrow(entered: seq<DeviceId>, id: DeviceId, key: DeviceId)
    ensures AliasesOf(entered + [id], key)
            == AliasesOf(entered, key) + (if Cmp(key, id) == Equal then [AliasOf(id)] else [])
  {
    assert (entered + [id])[..|entered|] == entered;
  }

  lemma SameKeysSorted(a: seq<DeviceNode>, b: seq<DeviceNode>)
    requires Sorted(a) && SameKeys(a, b)
    ensures Sorted(b)
  {
  }

  /** A device that is known gets one alias more. */
  lemma AliasPartitions(devices: seq<DeviceNode>, entered: seq<DeviceId>, id: DeviceId)
    requires Partitioned(devices, entered) && Find(devices, id).Some?
    ensures var k := Find(devices, id).value;
            var node := devices[k].(aliases := devices[k].aliases + [AliasOf(id)]);
            Partitioned(devices[k := node], entered + [id]) && SameKeys(devices, devices[k := node])
  {
    var k := Find(devices, id).value;
    var node := devices[k].(aliases := devices[k].aliases + [AliasOf(id)]);
    var after, all := devices[k := node], entered + [id];
    SameKeysSorted(devices, after);
    forall i | 0 <= i < |after| ensures after[i].aliases == AliasesOf(all, after[i].key) {
      FindIsExact(devices, id, i);
      AliasesGrow(entered, id, devices[i].key);
      assert devices[i].aliases == AliasesOf(entered, devices[i].key);
    }
    forall j | 0 <= j < |all| ensures Find(after, all[j]).Some? {
      SameKeysSameFind(devices, after, all[j]);
      assert j < |entered| ==> all[j] == entered[j];
    }
  }

  predicate SameKeys(a: seq<DeviceNode>, b: seq<DeviceNode>) {
    |a| == |b| && forall i | 0 <= i < |a| :: a[i].key == b[i].key
  }

  lemma SameKeysSameFind(a: seq<DeviceNode>, b: seq<DeviceNode>, key: DeviceId)
    requires SameKeys(a, b)
    ensures Find(a, key) == Find(b, key)
  {
    SameKeysSameSearch(a, b, key, 0);
  }

  lemma {:induction false} SameKeysSameSearch(a: seq<DeviceNode>, b: seq<DeviceNode>, key: DeviceId, i: nat)
    requires SameKeys(a, b) && i <= |a|
    ensures Search(a, key, i) == Search(b, key, i)
    decreases |a| - i
  {
    if i < |a| && Cmp(a[i].key, key) == Less {
      SameKeysSameSearch(a, b, key, i + 1);
    }
  }

  predicate Renumbered(devices: seq<DeviceNode>, after: seq<DeviceNode>) {
    |after| == |devices| && forall i | 0 <= i < |after| :: after[i] == devices[i].(id := after[i].id)
  }

  lemma RenumberedPartition(devices: seq<DeviceNode>, after: seq<DeviceNode>, entered: seq<DeviceId>)
    requires Partitioned(devices, entered) && Renumbered(devices, after)
    ensures Partitioned(after, entered) && SameKeys(after, devices)
    ensures forall key: DeviceId :: Find(after, key) == Find(devices, key)
  {
    forall key: DeviceId ensures Find(after, key) == Find(devices, key) {
      SameKeysSameFind(devices, after, key);
    }
  }

  /** A device that is not known gets a node of its own. */
  lemma NewNodePartitions(devices: seq<DeviceNode>, entered: seq<DeviceId>, node: DeviceNode)
    requires Partitioned(devices, entered) && Find(devices, node.key) == None
    requires node.aliases == [AliasOf(node.key)]
    ensures Partitioned(InsertAt(devices, node), entered + [node.key])
  {
    var k := Search(devices, node.key, 0);
    var after := InsertAt(devices, node);
    var all := entered + [node.key];
    assert all[..|entered|] == entered;
    InsertKeepsSorted(devices, node);
    AliasesOfUnknown(devices, entered, node.key);
    EqualMeans(node.key, node.key);
    forall i | 0 <= i < |devices| ensures devices[i].aliases == AliasesOf(all, devices[i].key) {
      FindIsExact(devices, node.key, i);
    }
    forall i | 0 <= i < |after| ensures after[i].aliases == AliasesOf(all, after[i].key) {
      assert after[i] == if i < k then devices[i] else if i == k then node else devices[i - 1];
    }
    forall j | 0 <= j < |all| ensures Find(after, all[j]).Some? {
      if j < |entered| {
        StillFound(devices, node, all[j]);
      } else {
        assert after[k] == node;
        FindIsExact(after, node.key, k);
      }
    }
  }

  lemma StillFound(devices: seq<DeviceNode>, node: DeviceNode, key: DeviceId)
    requires Sorted(devices) && Find(devices, node.key) == None && Find(devices, key).Some?
    ensures Find(InsertAt(devices, node), key).Some?
  {
    var j := Find(devices, key).value;
    var k := Search(devices, node.key, 0);
    var after := InsertAt(devices, node);
    InsertKeepsSorted(devices, node);
    var at := if j < k then j else j + 1;
    assert after[at] == devices[j];
    FindIsExact(after, key, at);
  }

  // ---------- Edges and counters ----------

  function PowerRef(c: ClientInfo, key: DeviceId, namespace: Namespace, t: SemanticType,
                    isLoopback: Addr -> bool): EdgeRef {
    EdgeRef(DeviceLink(key), if isLoopback(c.addr) then ServerLink(namespace) else ClientLink(c.addr), Power, t)
  }

  function PowerRefs(attached: seq<ClientInfo>, key: DeviceId, namespace: Namespace, t: SemanticType,
                     isLoopback: Addr -> bool): seq<EdgeRef> {
    if attached == [] then []
    else
      PowerRefs(attached[..|attached| - 1], key, namespace, t, isLoopback)
      + [PowerRef(attached[|attached| - 1], key, namespace, t, isLoopback)]
  }

  function DataRef(d: Device, key: DeviceId, namespace: Namespace): EdgeRef {
    EdgeRef(DeviceLink(key), ServerLink(namespace), Data, DataType(d.status))
  }

  /** A new device has one power edge for each attached client, in order: to its daemon if the client is on
      the daemon's own machine, and to the client otherwise. */
  lemma {:induction false} PowerRefsAt(attached: seq<ClientInfo>, key: DeviceId, namespace: Namespace,
                                       t: SemanticType, isLoopback: Addr -> bool, i: nat)
    requires i < |attached|
    ensures var edges := PowerRefs(attached, key, namespace, t, isLoopback);
            && |edges| == |attached|
            && edges[i].from == DeviceLink(key) && edges[i].edgeType.Power? && edges[i].semanticType == t
            && (isLoopback(attached[i].addr) ==> edges[i].to == ServerLink(namespace))
            && (!isLoopback(attached[i].addr) ==> edges[i].to == ClientLink(attached[i].addr))
  {
    var most := attached[..|attached| - 1];
    if most != [] {
      PowerRefsAt(most, key, namespace, t, isLoopback, if i < |most| then i else 0);
    }
  }

  /** How many power edges of a real semantic type lead to a node. */
  function PowerEdges(edges: seq<EdgeRef>, to: Link): nat {
    if edges == [] then 0
    else
      var last := edges[|edges| - 1];
      PowerEdges(edges[..|edges| - 1], to)
      + (if last.edgeType == Power && last.to == to && last.semanticType != NoType then 1 else 0)
  }

  /** The power edges that lead to a node, by what their semantic type says of the connection. */
  function Tally(edges: seq<EdgeRef>, to: Link): Counter {
    if edges == [] then Counter(0, 0, 0)
    else
      var before := Tally(edges[..|edges| - 1], to);
      var last := edges[|edges| - 1];
      if last.edgeType == Data || last.to != to then before
      else
        Counter(
          before.active + (if last.semanticType == Success || last.semanticType == Info then 1 else 0),
          before.degraded + (if last.semanticType == Warning then 1 else 0),
          before.failed + (if last.semanticType == Error then 1 else 0))
  }

  lemma {:induction false} TallyTotal(edges: seq<EdgeRef>, to: Link)
    ensures Tally(edges, to).Total() == PowerEdges(edges, to)
  {
    if edges != [] {
      TallyTotal(edges[..|edges| - 1], to);
    }
  }

  lemma TallyAppend(edges: seq<EdgeRef>, e: EdgeRef, to: Link)
    ensures Tally(edges + [e], to)
            == if e.edgeType == Power && e.to == to then Tally(edges, to).Count(e.semanticType) else Tally(edges, to)
  {
    assert (edges + [e])[..|edges|] == edges;
  }

  /** The counter of a client tells its power edges; an unknown client has none. */
  predicate ClientMatches(clients: map<Addr, ClientNode>, edges: seq<EdgeRef>, a: Addr) {
    Tally(edges, ClientLink(a)) == if a in clients then clients[a].counter else Counter(0, 0, 0)
  }

  ghost predicate ClientsMatch(clients: map<Addr, ClientNode>, edges: seq<EdgeRef>) {
    forall a: Addr :: ClientMatches(clients, edges, a)
  }

  predicate ServerMatches(servers: map<Namespace, ServerNode>, edges: seq<EdgeRef>, n: Namespace) {
    n in servers ==> Tally(edges, ServerLink(n)) == servers[n].counter
  }

  ghost predicate ServersMatch(servers: map<Namespace, ServerNode>, edges: seq<EdgeRef>) {
    forall n: Namespace :: ServerMatches(servers, edges, n)
  }

  predicate LinkKnown(devices: seq<DeviceNode>, clients: map<Addr, ClientNode>, namespaces: set<Namespace>, l: Link) {
    match l
    case DeviceLink(key) => Find(devices, key).Some?
    case ClientLink(a) => a in clients
    case ServerLink(n) => n in namespaces
  }

  predicate EdgeKnown(devices: seq<DeviceNode>, clients: map<Addr, ClientNode>, namespaces: set<Namespace>,
                      e: EdgeRef)
  {
    LinkKnown(devices, clients, namespaces, e.from) && LinkKnown(devices, clients, namespaces, e.to)
  }

  /** Both ends of every recorded edge are nodes. */
  predicate EdgesKnown(devices: seq<DeviceNode>, clients: map<Addr, ClientNode>, namespaces: set<Namespace>,
                       edges: seq<EdgeRef>) {
    forall i | 0 <= i < |edges| :: EdgeKnown(devices, clients, namespaces, edges[i])
  }

  lemma {:induction false} NoPowerEdges(devices: seq<DeviceNode>, clients: map<Addr, ClientNode>,
                                        namespaces: set<Namespace>, edges: seq<EdgeRef>, n: Namespace)
    requires EdgesKnown(devices, clients, namespaces, edges) && n !in namespaces
    ensures Tally(edges, ServerLink(n)) == Counter(0, 0, 0)
  {
    if edges != [] {
      assert EdgeKnown(devices, clients, namespaces, edges[|edges| - 1]);
      var most := edges[..|edges| - 1];
      assert forall i | 0 <= i < |most| :: most[i] == edges[i];
      NoPowerEdges(devices, clients, namespaces, most, n);
    }
  }

  lemma EdgesStayKnown(devices: seq<DeviceNode>, after: seq<DeviceNode>, clients: map<Addr, ClientNode>,
                       more: map<Addr, ClientNode>, namespaces: set<Namespace>, edges: seq<EdgeRef>)
    requires EdgesKnown(devices, clients, namespaces, edges) && clients.Keys <= more.Keys
    requires forall key: DeviceId | Find(devices, key).Some? :: Find(after, key).Some?
    ensures EdgesKnown(after, more, namespaces, edges)
  {
    forall i | 0 <= i < |edges| ensures EdgeKnown(after, more, namespaces, edges[i]) {
      assert EdgeKnown(devices, clients, namespaces, edges[i]);
    }
  }

  lemma MoreNamespaces(devices: seq<DeviceNode>, clients: map<Addr, ClientNode>, some: set<Namespace>,
                       more: set<Namespace>, edges: seq<EdgeRef>)
    requires EdgesKnown(devices, clients, some, edges) && some <= more
    ensures EdgesKnown(devices, clients, more, edges)
  {
    forall i | 0 <= i < |edges| ensures EdgeKnown(devices, clients, more, edges[i]) {
      assert EdgeKnown(devices, clients, some, edges[i]);
    }
  }

  /** The edges of a device that is being entered under the key. */
  predicate LinksFrom(key: DeviceId, clients: map<Addr, ClientNode>, namespaces: set<Namespace>, edges: seq<EdgeRef>) {
    forall i | 0 <= i < |edges| :: edges[i].from == DeviceLink(key) && LinkKnown([], clients, namespaces, edges[i].to)
  }

  /** A power edge to a daemon counts for that daemon only. */
  lemma PowerEdgeToServer(clients: map<Addr, ClientNode>, servers: map<Namespace, ServerNode>,
                          edges: seq<EdgeRef>, e: EdgeRef, namespace: Namespace)
    requires ClientsMatch(clients, edges) && ServersMatch(servers, edges) && namespace !in servers
    requires e.to == ServerLink(namespace) && e.edgeType == Power
    ensures ClientsMatch(clients, edges + [e]) && ServersMatch(servers, edges + [e])
    ensures Tally(edges + [e], ServerLink(namespace)) == Tally(edges, ServerLink(namespace)).Count(e.semanticType)
  {
    TallyAppend(edges, e, e.to);
    forall a: Addr ensures ClientMatches(clients, edges + [e], a) {
      assert ClientMatches(clients, edges, a);
      TallyAppend(edges, e, ClientLink(a));
    }
    OtherServersMatch(servers, edges, e);
  }

  lemma OtherServersMatch(servers: map<Namespace, ServerNode>, edges: seq<EdgeRef>, e: EdgeRef)
    requires ServersMatch(servers, edges)
    requires e.edgeType == Power && e.to.ServerLink? ==> e.to.namespace !in servers
    ensures ServersMatch(servers, edges + [e])
  {
    forall n: Namespace ensures ServerMatches(servers, edges + [e], n) {
      assert ServerMatches(servers, edges, n);
      TallyAppend(edges, e, ServerLink(n));
    }
  }

  lemma NewClientMatches(clients: map<Addr, ClientNode>, edges: seq<EdgeRef>, addr: Addr, client: ClientNode)
    requires ClientsMatch(clients, edges) && addr !in clients && client.counter == Counter(0, 0, 0)
    ensures ClientsMatch(clients[addr := client], edges)
  {
    var more := clients[addr := client];
    forall a: Addr ensures ClientMatches(more, edges, a) {
      assert ClientMatches(clients, edges, a);
    }
  }

  /** A power edge to a client counts for that client only. */
  lemma PowerEdgeToClient(clients: map<Addr, ClientNode>, more: map<Addr, ClientNode>,
                          servers: map<Namespace, ServerNode>, edges: seq<EdgeRef>, e: EdgeRef,
                          addr: Addr, namespace: Namespace)
    requires ClientsMatch(clients, edges) && ServersMatch(servers, edges)
    requires e.to == ClientLink(addr) && e.edgeType == Power
    requires more.Keys == clients.Keys + {addr}
    requires addr in clients
    requires more[addr].counter == clients[addr].counter.Count(e.semanticType)
    requires forall a | a in clients && a != addr :: more[a] == clients[a]
    ensures ClientsMatch(more, edges + [e])
    ensures ServersMatch(servers, edges + [e])
    ensures Tally(edges + [e], ServerLink(namespace)) == Tally(edges, ServerLink(namespace))
  {
    TallyAppend(edges, e, ServerLink(namespace));
    OtherServersMatch(servers, edges, e);
    forall a: Addr ensures ClientMatches(more, edges + [e], a) {
      assert ClientMatches(clients, edges, a);
      TallyAppend(edges, e, ClientLink(a));
    }
  }

  lemma NewServerMatches(servers: map<Namespace, ServerNode>, edges: seq<EdgeRef>, n: Namespace, counter: Counter)
    requires ServersMatch(servers, edges) && counter == Tally(edges, ServerLink(n))
    ensures ServersMatch(servers[n := ServerNode(0, counter)], edges)
  {
    var more := servers[n := ServerNode(0, counter)];
    forall m: Namespace ensures ServerMatches(more, edges, m) {
      assert ServerMatches(servers, edges, m);
    }
  }

  lemma SameCountersMatch(clients: map<Addr, ClientNode>, moreClients: map<Addr, ClientNode>,
                          servers: map<Namespace, ServerNode>, moreServers: map<Namespace, ServerNode>,
                          edges: seq<EdgeRef>)
    requires ClientsMatch(clients, edges) && ServersMatch(servers, edges)
    requires moreClients.Keys == clients.Keys && moreServers.Keys == servers.Keys
    requires forall a | a in clients :: moreClients[a].counter == clients[a].counter
    requires forall n | n in servers :: moreServers[n].counter == servers[n].counter
    ensures ClientsMatch(moreClients, edges) && ServersMatch(moreServers, edges)
  {
    forall a: Addr ensures ClientMatches(moreClients, edges, a) {
      assert ClientMatches(clients, edges, a);
    }
    forall n: Namespace ensures ServerMatches(moreServers, edges, n) {
      assert ServerMatches(servers, edges, n);
    }
  }

  /** The servers are numbered from 0 on in the order of their names. */
  predicate ServersNumbered(servers: map<Namespace, ServerNode>) {
    && (forall n | n in servers :: servers[n].id < |servers.Keys|)
    && forall m, n | m in servers && n in servers :: StrLess(m, n) <==> servers[m].id < servers[n].id
  }

  /** The clients are numbered from 0 on in the order of their addresses. */
  predicate ClientsNumbered(clients: map<Addr, ClientNode>) {
    && (forall a | a in clients :: clients[a].id < |clients.Keys|)
    && forall a, b | a in clients && b in clients :: AddrLess(a, b) <==> clients[a].id < clients[b].id
  }

  // ---------- The builder ----------

  class TopologyGraphBuilder {
    var servers: map<Namespace, ServerNode>
    var clients: map<Addr, ClientNode>
    var devices: seq<DeviceNode>
    var edgeRefs: seq<EdgeRef>
    ghost var entered: seq<DeviceId>

    /** `open` is the daemon whose devices are being entered. */
    ghost predicate Valid(open: set<Namespace>)
      reads this
    {
      && Partitioned(devices, entered)
      && ClientsMatch(clients, edgeRefs)
      && ServersMatch(servers, edgeRefs)
      && EdgesKnown(devices, clients, servers.Keys + open, edgeRefs)
    }

    constructor ()
      ensures Valid({}) && servers == map[] && edgeRefs == [] && entered == []
    {
      servers, clients, devices, edgeRefs, entered := map[], map[], [], [], [];
    }

    /** The node of a client is made when the first link to it is. */
    method OrInsert(c: ClientInfo)
      requires ClientsMatch(clients, edgeRefs)
      modifies this`clients
      ensures ClientsMatch(clients, edgeRefs)
      ensures clients.Keys == old(clients).Keys + {c.addr}
      ensures forall a | a in old(clients) :: clients[a] == old(clients)[a]
      ensures c.addr !in old(clients) ==> clients[c.addr].name == c.name
    {
      if c.addr !in clients {
        NewClientMatches(clients, edgeRefs, c.addr, ClientNode(0, c.name, Counter(0, 0, 0)));
        clients := clients[c.addr := ClientNode(0, c.name, Counter(0, 0, 0))];
      }
    }

    /** Links one attached client of a new device. */
    method LinkClient(c: ClientInfo, key: DeviceId, namespace: Namespace, t: SemanticType,
                      isLoopback: Addr -> bool, counter: Counter) returns (after: Counter)
      requires ClientsMatch(clients, edgeRefs) && ServersMatch(servers, edgeRefs) && namespace !in servers
      requires counter == Tally(edgeRefs, ServerLink(namespace))
      modifies this`clients, this`edgeRefs
      ensures ClientsMatch(clients, edgeRefs) && ServersMatch(servers, edgeRefs)
      ensures after == Tally(edgeRefs, ServerLink(namespace))
      ensures edgeRefs == old(edgeRefs) + [PowerRef(c, key, namespace, t, isLoopback)]
      ensures clients.Keys == old(clients).Keys + (if isLoopback(c.addr) then {} else {c.addr})
      ensures forall a | a in old(clients) :: clients[a].name == old(clients)[a].name
      ensures !isLoopback(c.addr) && c.addr !in old(clients) ==> clients[c.addr].name == c.name
    {
      var edge := PowerRef(c, key, namespace, t, isLoopback);
      if isLoopback(c.addr) {
        PowerEdgeToServer(clients, servers, edgeRefs, edge, namespace);
        after := counter.Count(t);
      } else {
        OrInsert(c);
        var client := clients[c.addr];
        var more := clients[c.addr := client.(counter := client.counter.Count(t))];
        PowerEdgeToClient(clients, more, servers, edgeRefs, edge, c.addr, namespace);
        clients := more;
        after := counter;
      }
      edgeRefs := edgeRefs + [edge];
    }

    /** Links all attached clients of a new device. */
    method LinkClients(attached: seq<ClientInfo>, key: DeviceId, namespace: Namespace, t: SemanticType,
                       isLoopback: Addr -> bool, counter: Counter) returns (after: Counter)
      requires ClientsMatch(clients, edgeRefs) && ServersMatch(servers, edgeRefs) && namespace !in servers
      requires counter == Tally(edgeRefs, ServerLink(namespace))
      modifies this`clients, this`edgeRefs
      ensures ClientsMatch(clients, edgeRefs) && ServersMatch(servers, edgeRefs)
      ensures after == Tally(edgeRefs, ServerLink(namespace))
      ensures var links := PowerRefs(attached, key, namespace, t, isLoopback);
              edgeRefs == old(edgeRefs) + links && LinksFrom(key, clients, servers.Keys + {namespace}, links)
      ensures old(clients).Keys <= clients.Keys
    {
      after := counter;
      ghost var known := servers.Keys + {namespace};
      ghost var links := [];
      for i := 0 to |attached|
        invariant ClientsMatch(clients, edgeRefs) && ServersMatch(servers, edgeRefs)
        invariant after == Tally(edgeRefs, ServerLink(namespace))
        invariant links == PowerRefs(attached[..i], key, namespace, t, isLoopback)
        invariant edgeRefs == old(edgeRefs) + links && LinksFrom(key, clients, known, links)
        invariant old(clients).Keys <= clients.Keys
      {
        assert attached[..i + 1][..i] == attached[..i];
        ghost var before := clients;
        after := LinkClient(attached[i], key, namespace, t, isLoopback, after);
        LinksGrow(key, before, clients, known, links, PowerRef(attached[i], key, namespace, t, isLoopback));
        links := links + [PowerRef(attached[i], key, namespace, t, isLoopback)];
      }
      assert attached[..|attached|] == attached;
    }

    /** A device whose id is not known: a node, power edges to its clients and a data edge. */
    method InsertNew(d: Device, namespace: Namespace, isLoopback: Addr -> bool, counter: Counter)
      returns (after: Counter)
      requires Valid({namespace}) && namespace !in servers
      requires counter == Tally(edgeRefs, ServerLink(namespace))
      requires Find(devices, IdOf(d, namespace)) == None
      modifies this
      ensures Valid({namespace}) && servers == old(servers)
      ensures after == Tally(edgeRefs, ServerLink(namespace))
      ensures entered == old(entered) + [IdOf(d, namespace)]
      ensures devices == InsertAt(old(devices), NodeOf(d, namespace))
      ensures var key := IdOf(d, namespace);
              edgeRefs == old(edgeRefs)
                          + PowerRefs(d.attached, key, namespace, SemanticTypeOf(d.status), isLoopback)
                          + [DataRef(d, key, namespace)]
    {
      var key := IdOf(d, namespace);
      var t := SemanticTypeOf(d.status);
      var node := NodeOf(d, namespace);
      after := LinkClients(d.attached, key, namespace, t, isLoopback, counter);
      ghost var links := PowerRefs(d.attached, key, namespace, t, isLoopback);
      ghost var known := servers.Keys + {namespace};
      LinksGrow(key, clients, clients, known, links, DataRef(d, key, namespace));
      DataEdgeCounts(edgeRefs, DataRef(d, key, namespace), clients, servers, namespace);
      edgeRefs := edgeRefs + [DataRef(d, key, namespace)];
      NodeEntered(devices, entered, node, old(clients), clients, known, old(edgeRefs),
                  links + [DataRef(d, key, namespace)]);
      entered := entered + [key];
      devices := InsertAt(devices, node);
      assert edgeRefs == old(edgeRefs) + (links + [DataRef(d, key, namespace)]);
    }

    /** A device whose id is known already: an alias more and a data edge. */
    method InsertAlias(d: Device, namespace: Namespace, k: nat)
      requires Valid({namespace}) && namespace !in servers
      requires Find(devices, IdOf(d, namespace)) == Some(k)
      modifies this
      ensures Valid({namespace}) && servers == old(servers)
      ensures Tally(edgeRefs, ServerLink(namespace)) == old(Tally(edgeRefs, ServerLink(namespace)))
      ensures entered == old(entered) + [IdOf(d, namespace)]
      ensures devices == old(devices)[k := old(devices)[k].(
                           aliases := old(devices)[k].aliases + [Alias(d.name, namespace)])]
      ensures edgeRefs == old(edgeRefs) + [DataRef(d, old(devices[k].key), namespace)]
    {
      var node := devices[k].(aliases := devices[k].aliases + [Alias(d.name, namespace)]);
      var edge := DataRef(d, node.key, namespace);
      AliasEntered(devices, entered, IdOf(d, namespace), clients, servers.Keys + {namespace}, edgeRefs, edge);
      DataEdgeCounts(edgeRefs, edge, clients, servers, namespace);
      devices := devices[k := node];
      entered := entered + [IdOf(d, namespace)];
      edgeRefs := edgeRefs + [edge];
    }

    /** `insert_from`. */
    method InsertFrom(d: Device, namespace: Namespace, isLoopback: Addr -> bool, counter: Counter)
      returns (after: Counter)
      requires Valid({namespace}) && namespace !in servers
      requires counter == Tally(edgeRefs, ServerLink(namespace))
      modifies this
      ensures Valid({namespace}) && servers == old(servers)
      ensures after == Tally(edgeRefs, ServerLink(namespace))
      ensures entered == old(entered) + [IdOf(d, namespace)]
      ensures old(Find(devices, IdOf(d, namespace)) == None) ==>
                var key := IdOf(d, namespace);
                devices == InsertAt(old(devices), NodeOf(d, namespace)) &&
                edgeRefs == old(edgeRefs)
                            + PowerRefs(d.attached, key, namespace, SemanticTypeOf(d.status), isLoopback)
                            + [DataRef(d, key, namespace)]
      ensures old(Find(devices, IdOf(d, namespace)).Some?) ==>
                var k := Find(old(devices), IdOf(d, namespace)).value;
                devices == old(devices)[k := old(devices)[k].(
                  aliases := old(devices)[k].aliases + [Alias(d.name, namespace)])] &&
                edgeRefs == old(edgeRefs) + [DataRef(d, old(devices)[k].key, namespace)]
    {
      match Find(devices, IdOf(d, namespace))
      case Some(k) =>
        InsertAlias(d, namespace, k);
        after := counter;
      case None =>
        after := InsertNew(d, namespace, isLoopback, counter);
    }

    /** Enters the devices of one daemon. */
    method InsertDevices(namespace: Namespace, reported: seq<Device>, isLoopback: Addr -> bool)
      returns (counter: Counter)
      requires Valid({namespace}) && namespace !in servers
      requires Tally(edgeRefs, ServerLink(namespace)) == Counter(0, 0, 0)
      modifies this
      ensures Valid({namespace}) && servers == old(servers)
      ensures counter == Tally(edgeRefs, ServerLink(namespace))
      ensures entered == old(entered) + IdsOf(reported, namespace)
    {
      counter := Counter(0, 0, 0);
      for i := 0 to |reported|
        invariant Valid({namespace}) && servers == old(servers)
        invariant counter == Tally(edgeRefs, ServerLink(namespace))
        invariant entered == old(entered) + IdsOf(reported[..i], namespace)
      {
        counter := InsertFrom(reported[i], namespace, isLoopback, counter);
        IdsGrow(reported, i, namespace);
        Regroup(old(entered), IdsOf(reported[..i], namespace), [IdOf(reported[i], namespace)]);
      }
      assert reported[..|reported|] == reported;
    }

    /** Enters the devices of one daemon and then the daemon. */
    method InsertServer(namespace: Namespace, reported: seq<Device>, isLoopback: Addr -> bool)
      requires Valid({}) && namespace !in servers
      modifies this
      ensures Valid({}) && servers.Keys == old(servers).Keys + {namespace}
      ensures entered == old(entered) + IdsOf(reported, namespace)
    {
      NoPowerEdges(devices, clients, servers.Keys + {}, edgeRefs, namespace);
      MoreNamespaces(devices, clients, servers.Keys + {}, servers.Keys + {namespace}, edgeRefs);
      var counter := InsertDevices(namespace, reported, isLoopback);
      NewServerMatches(servers, edgeRefs, namespace, counter);
      servers := servers[namespace := ServerNode(0, counter)];
      assert servers.Keys + {} == old(servers).Keys + {namespace};
    }

    /** `from_server_state`: each daemon once. */
    method InsertAll(daemons: seq<(Namespace, seq<Device>)>, isLoopback: Addr -> bool)
      requires Valid({}) && servers == map[] && entered == []
      requires forall i, j | 0 <= i < j < |daemons| :: daemons[i].0 != daemons[j].0
      modifies this
      ensures Valid({}) && entered == AllIds(daemons)
      ensures forall n :: n in servers <==> exists i :: 0 <= i < |daemons| && daemons[i].0 == n
    {
      for i := 0 to |daemons|
        invariant Valid({}) && entered == AllIds(daemons[..i])
        invariant forall n :: n in servers <==> exists j :: 0 <= j < i && daemons[j].0 == n
      {
        assert daemons[..i + 1][..i] == daemons[..i];
        InsertServer(daemons[i].0, daemons[i].1, isLoopback);
      }
      assert daemons[..|daemons|] == daemons;
    }

    function ResolveLink(link: Link): Option<NodeId>
      reads this
    {
      NodeOfLink(devices, clients, servers, link)
    }

    method NumberDevices()
      modifies this`devices
      ensures Renumbered(old(devices), devices)
      ensures forall i | 0 <= i < |devices| :: devices[i].id == i
    {
      for pos := 0 to |devices|
        invariant |devices| == |old(devices)|
        invariant forall i | 0 <= i < pos :: devices[i] == old(devices)[i].(id := i)
        invariant forall i | pos <= i < |devices| :: devices[i] == old(devices)[i]
      {
        devices := devices[pos := devices[pos].(id := pos)];
      }
    }

    method NumberServers()
      modifies this`servers
      ensures servers.Keys == old(servers).Keys && ServersNumbered(servers)
      ensures forall n | n in servers :: servers[n] == old(servers)[n].(id := servers[n].id)
    {
      StrLessOrders();
      var numbers := Numbering(servers.Keys, StrLess);
      servers := map n | n in servers :: servers[n].(id := numbers[n]);
    }

    method NumberClients()
      modifies this`clients
      ensures clients.Keys == old(clients).Keys && ClientsNumbered(clients)
      ensures forall a | a in clients :: clients[a] == old(clients)[a].(id := clients[a].id)
    {
      var numbers := Numbering(clients.Keys, AddrLess);
      clients := map a | a in clients :: clients[a].(id := numbers[a]);
    }

    /** Numbers the nodes of each kind; the devices in their order. */
    method NumberNodes()
      requires Valid({})
      modifies this`servers, this`clients, this`devices
      ensures Valid({}) && Renumbered(old(devices), devices)
      ensures forall i | 0 <= i < |devices| :: devices[i].id == i
      ensures clients.Keys == old(clients).Keys && servers.Keys == old(servers).Keys
      ensures forall a | a in clients :: clients[a] == old(clients)[a].(id := clients[a].id)
      ensures forall n | n in servers :: servers[n] == old(servers)[n].(id := servers[n].id)
      ensures ClientsNumbered(clients) && ServersNumbered(servers)
    {
      NumberServers();
      NumberClients();
      SameCountersMatch(old(clients), clients, old(servers), servers, edgeRefs);
      NumberDevices();
      RenumberedPartition(old(devices), devices, entered);
      EdgesStayKnown(old(devices), devices, old(clients), clients, old(servers).Keys + {}, edgeRefs);
    }

    /** The edge is the recorded one of its number, and its ends are the nodes that the links mean. */
    predicate Resolves(e: EdgeNode)
      reads this
    {
      && e.id < |edgeRefs|
      && e.edgeType == edgeRefs[e.id].edgeType && e.semanticType == edgeRefs[e.id].semanticType
      && Means(devices, clients, servers, edgeRefs[e.id].from, e.from)
      && Means(devices, clients, servers, edgeRefs[e.id].to, e.to)
    }

    /** Turns each recorded edge into one between nodes; none is dropped. */
    method ResolveEdges() returns (edges: seq<EdgeNode>)
      requires Valid({}) && forall i | 0 <= i < |devices| :: devices[i].id == i
      ensures |edges| == |edgeRefs| && forall i | 0 <= i < |edges| :: edges[i].id == i && Resolves(edges[i])
    {
      edges := [];
      for id := 0 to |edgeRefs|
        invariant |edges| == id && forall i | 0 <= i < id :: edges[i].id == i && Resolves(edges[i])
      {
        var edge := edgeRefs[id];
        assert EdgeKnown(devices, clients, servers.Keys + {}, edge);
        var start, end := ResolveLink(edge.from), ResolveLink(edge.to);
        if start.Some? && end.Some? {
          FindMeans(devices, clients, servers, edge.from, start.value);
          FindMeans(devices, clients, servers, edge.to, end.value);
          edges := edges + [EdgeNode(id, start.value, end.value, edge.edgeType, edge.semanticType)];
        }
      }
    }

    /** `finish`: every recorded edge is there once, and all are in order. */
    method Finish() returns (edges: seq<EdgeNode>)
      requires Valid({})
      modifies this`servers, this`clients, this`devices
      ensures Valid({}) && Renumbered(old(devices), devices)
      ensures forall i | 0 <= i < |devices| :: devices[i].id == i
      ensures clients.Keys == old(clients).Keys && servers.Keys == old(servers).Keys
      ensures forall a | a in clients :: clients[a] == old(clients)[a].(id := clients[a].id)
      ensures forall n | n in servers :: servers[n] == old(servers)[n].(id := servers[n].id)
      ensures ClientsNumbered(clients) && ServersNumbered(servers)
      ensures |edges| == |edgeRefs| && InOrder(edges)
      ensures forall i | 0 <= i < |edges| :: Resolves(edges[i])
      ensures forall id | 0 <= id < |edgeRefs| :: HasEdge(edges, id)
    {
      NumberNodes();
      var resolved := ResolveEdges();
      edges := StableSort(resolved);
      StableSortSorts(resolved);
      forall i | 0 <= i < |edges| ensures Resolves(edges[i]) {
        assert edges[i] in resolved;
      }
      forall id | 0 <= id < |edgeRefs| ensures HasEdge(edges, id) {
        assert resolved[id] in edges;
        var i :| 0 <= i < |edges| && edges[i] == resolved[id];
      }
    }
  }

  datatype NodeType = ServerNodeType | ClientNodeType | DeviceNodeType

  datatype NodeId = NodeId(id: nat, nodeType: NodeType)

  datatype EdgeNode = EdgeNode(id: nat, from: NodeId, to: NodeId, edgeType: EdgeType, semanticType: SemanticType)

  // ---------- The order of nodes and edges ----------

  predicate StrLess(a: string, b: string) {
    StrCmp(a, b) == Less
  }

  predicate AddrLess(a: Addr, b: Addr) {
    a < b
  }

  ghost predicate StrictOrder<K(!new)>(less: (K, K) -> bool) {
    && (forall a :: !less(a, a))
    && (forall a, b :: a == b || less(a, b) || less(b, a))
    && (forall a, b, c :: less(a, b) && less(b, c) ==> less(a, c))
  }

  lemma StrLessOrders()
    ensures StrictOrder(StrLess)
  {
    forall a, b ensures !StrLess(a, a) && (a == b || StrLess(a, b) || StrLess(b, a)) {
      StrOrder(a, b, []);
      StrOrder(a, a, []);
    }
    forall a, b, c ensures StrLess(a, b) && StrLess(b, c) ==> StrLess(a, c) {
      StrOrder(a, b, c);
    }
  }

  ghost predicate IsLeast<K(!new)>(keys: set<K>, less: (K, K) -> bool, k: K) {
    k in keys && forall j | j in keys && j != k :: less(k, j)
  }

  lemma {:induction false} LeastExists<K(!new)>(keys: set<K>, less: (K, K) -> bool) returns (k: K)
    requires keys != {} && StrictOrder(less)
    ensures IsLeast(keys, less, k)
    decreases |keys|
  {
    k :| k in keys;
    if keys != {k} {
      var most := keys - {k};
      assert k in keys && most < keys;
      var least := LeastExists(most, less);
      if less(least, k) {
        k := least;
      }
    }
  }

  /** Numbers keys from 0 on in their order. */
  method Numbering<K(!new)>(keys: set<K>, less: (K, K) -> bool) returns (numbers: map<K, nat>)
    requires StrictOrder(less)
    ensures numbers.Keys == keys
    ensures forall k | k in keys :: numbers[k] < |keys|
    ensures forall j, k | j in keys && k in keys :: less(j, k) <==> numbers[j] < numbers[k]
  {
    numbers := map[];
    var rest, pos := keys, 0;
    while rest != {}
      invariant rest <= keys && numbers.Keys == keys - rest && pos == |keys| - |rest|
      invariant forall k | k in numbers :: numbers[k] < pos
      invariant forall j, k | j in numbers && k in rest :: less(j, k)
      invariant forall j, k | j in numbers && k in numbers :: less(j, k) <==> numbers[j] < numbers[k]
      decreases |rest|
    {
      ghost var least := LeastExists(rest, less);
      var k :| k in rest && forall j | j in rest && j != k :: less(k, j);
      numbers := numbers[k := pos];
      rest, pos := rest - {k}, pos + 1;
    }
  }

  function Rank(t: NodeType): nat {
    match t
    case ServerNodeType => 0
    case ClientNodeType => 1
    case DeviceNodeType => 2
  }

  predicate NodeLess(a: NodeId, b: NodeId) {
    a.id < b.id || (a.id == b.id && Rank(a.nodeType) < Rank(b.nodeType))
  }

  /** Edges are compared by where they come from and then by where they lead to. */
  predicate EdgeLess(a: EdgeNode, b: EdgeNode) {
    NodeLess(a.from, b.from) || (a.from == b.from && NodeLess(a.to, b.to))
  }

  /** The order of edges is strict, and leaves only edges between the same two nodes unordered. */
  lemma EdgesAreOrdered(a: EdgeNode, b: EdgeNode, c: EdgeNode)
    ensures !EdgeLess(a, b) && !EdgeLess(b, a) <==> a.from == b.from && a.to == b.to
    ensures !(EdgeLess(a, b) && EdgeLess(b, a))
    ensures EdgeLess(a, b) && EdgeLess(b, c) ==> EdgeLess(a, c)
    ensures EdgeLess(a, b) ==> a.from.id <= b.from.id && (a.from == b.from ==> a.to.id <= b.to.id)
  {
  }

  /** The order of a stable sort of edges that are numbered in their first order. */
  predicate Precedes(a: EdgeNode, b: EdgeNode) {
    EdgeLess(a, b) || (!EdgeLess(b, a) && a.id < b.id)
  }

  predicate InOrder(edges: seq<EdgeNode>) {
    forall i, j | 0 <= i < j < |edges| :: Precedes(edges[i], edges[j])
  }

  /** The link leads to the node of this kind and number. */
  predicate Means(devices: seq<DeviceNode>, clients: map<Addr, ClientNode>, servers: map<Namespace, ServerNode>,
                  link: Link, id: NodeId) {
    match link
    case DeviceLink(key) =>
      id.nodeType.DeviceNodeType? && id.id < |devices| && Cmp(devices[id.id].key, key) == Equal
    case ClientLink(a) => id.nodeType.ClientNodeType? && a in clients && clients[a].id == id.id
    case ServerLink(n) => id.nodeType.ServerNodeType? && n in servers && servers[n].id == id.id
  }

  function NodeOfLink(devices: seq<DeviceNode>, clients: map<Addr, ClientNode>, servers: map<Namespace, ServerNode>,
                      link: Link): Option<NodeId> {
    match link
    case DeviceLink(key) =>
      (match Find(devices, key)
       case Some(k) => Some(NodeId(devices[k].id, DeviceNodeType))
       case None => None)
    case ClientLink(a) => if a in clients then Some(NodeId(clients[a].id, ClientNodeType)) else None
    case ServerLink(n) => if n in servers then Some(NodeId(servers[n].id, ServerNodeType)) else None
  }

  lemma FindMeans(devices: seq<DeviceNode>, clients: map<Addr, ClientNode>, servers: map<Namespace, ServerNode>,
                  link: Link, id: NodeId)
    requires forall i | 0 <= i < |devices| :: devices[i].id == i
    requires NodeOfLink(devices, clients, servers, link) == Some(id)
    ensures Means(devices, clients, servers, link, id)
  {
  }

  /** Both links lead to one node. */
  predicate SameNode(a: Link, b: Link) {
    match (a, b)
    case (DeviceLink(j), DeviceLink(k)) => Cmp(j, k) == Equal
    case (ClientLink(x), ClientLink(y)) => x == y
    case (ServerLink(m), ServerLink(n)) => m == n
    case _ => false
  }

  /** In a finished graph two links lead to the same node id exactly if they mean the same node: equal
      devices in the sense of their order, one client, or one daemon. */
  lemma NodeIdsAreDistinct(devices: seq<DeviceNode>, clients: map<Addr, ClientNode>,
                           servers: map<Namespace, ServerNode>, a: Link, b: Link, x: NodeId, y: NodeId)
    requires Sorted(devices) && ClientsNumbered(clients) && ServersNumbered(servers)
    requires Means(devices, clients, servers, a, x) && Means(devices, clients, servers, b, y)
    ensures x == y <==> SameNode(a, b)
  {
    match (a, b)
    case (DeviceLink(j), DeviceLink(k)) =>
      CmpOfEquals(devices[x.id].key, j, k);
      CmpFlips(devices[y.id].key, k);
      CmpOfEquals(k, devices[y.id].key, devices[x.id].key);
      CmpFlips(devices[x.id].key, devices[y.id].key);
      EqualMeans(devices[x.id].key, devices[x.id].key);
      assert x.id < y.id ==> Cmp(devices[x.id].key, devices[y.id].key) == Less;
      assert y.id < x.id ==> Cmp(devices[y.id].key, devices[x.id].key) == Less;
    case (ClientLink(_), ClientLink(_)) =>
    case (ServerLink(m), ServerLink(n)) => StrOrder(m, n, []);
    case _ =>
  }

  predicate HasEdge(edges: seq<EdgeNode>, id: nat) {
    exists i | 0 <= i < |edges| :: edges[i].id == id
  }

  /** Behind the edges that are not greater. */
  function InsertEdge(edges: seq<EdgeNode>, e: EdgeNode): seq<EdgeNode> {
    if edges != [] && EdgeLess(e, edges[|edges| - 1])
    then InsertEdge(edges[..|edges| - 1], e) + [edges[|edges| - 1]]
    else edges + [e]
  }

  function StableSort(edges: seq<EdgeNode>): seq<EdgeNode> {
    if edges == [] then [] else InsertEdge(StableSort(edges[..|edges| - 1]), edges[|edges| - 1])
  }

  lemma {:induction false} InsertEdgeIn(edges: seq<EdgeNode>, e: EdgeNode, x: EdgeNode)
    ensures |InsertEdge(edges, e)| == |edges| + 1
    ensures x in InsertEdge(edges, e) <==> x == e || x in edges
  {
    if edges != [] && EdgeLess(e, edges[|edges| - 1]) {
      InsertEdgeIn(edges[..|edges| - 1], e, x);
      assert edges == edges[..|edges| - 1] + [edges[|edges| - 1]];
    }
  }

  lemma {:induction false} InsertEdgeOrder(edges: seq<EdgeNode>, e: EdgeNode)
    requires InOrder(edges) && forall x | x in edges :: x.id < e.id
    ensures InOrder(InsertEdge(edges, e))
  {
    if edges != [] && EdgeLess(e, edges[|edges| - 1]) {
      var most, last := edges[..|edges| - 1], edges[|edges| - 1];
      InsertEdgeOrder(most, e);
      var r := InsertEdge(most, e);
      forall i | 0 <= i < |r| ensures Precedes(r[i], last) {
        InsertEdgeIn(most, e, r[i]);
      }
    } else {
      forall i | 0 <= i < |edges| ensures Precedes(edges[i], e) {
        assert edges[i] in edges;
        assert i < |edges| - 1 ==> Precedes(edges[i], edges[|edges| - 1]);
      }
    }
  }

  /** Sorting drops no edge and adds none, and edges that compare as equal keep their order. */
  lemma {:induction false} StableSortSorts(edges: seq<EdgeNode>)
    requires forall i | 0 <= i < |edges| :: edges[i].id == i
    ensures InOrder(StableSort(edges)) && |StableSort(edges)| == |edges|
    ensures forall x :: x in StableSort(edges) <==> x in edges
  {
    if edges != [] {
      var most, last := edges[..|edges| - 1], edges[|edges| - 1];
      StableSortSorts(most);
      forall x ensures x in StableSort(edges) <==> x in edges {
        InsertEdgeIn(StableSort(most), last, x);
        assert edges == most + [last];
      }
      InsertEdgeIn(StableSort(most), last, last);
      InsertEdgeOrder(StableSort(most), last);
    }
  }

  function AllIds(daemons: seq<(Namespace, seq<Device>)>): seq<DeviceId> {
    if daemons == [] then []
    else
      var last := daemons[|daemons| - 1];
      AllIds(daemons[..|daemons| - 1]) + IdsOf(last.1, last.0)
  }

  function IdsOf(reported: seq<Device>, namespace: Namespace): seq<DeviceId> {
    if reported == [] then []
    else IdsOf(reported[..|reported| - 1], namespace) + [IdOf(reported[|reported| - 1], namespace)]
  }

  lemma IdsGrow(reported: seq<Device>, i: nat, namespace: Namespace)
    requires i < |reported|
    ensures IdsOf(reported[..i + 1], namespace) == IdsOf(reported[..i], namespace) + [IdOf(reported[i], namespace)]
  {
    assert reported[..i + 1][..i] == reported[..i];
  }

  lemma LinksGrow(key: DeviceId, clients: map<Addr, ClientNode>, more: map<Addr, ClientNode>,
                  namespaces: set<Namespace>, links: seq<EdgeRef>, e: EdgeRef)
    requires LinksFrom(key, clients, namespaces, links) && clients.Keys <= more.Keys
    requires e.from == DeviceLink(key) && LinkKnown([], more, namespaces, e.to)
    ensures LinksFrom(key, more, namespaces, links + [e])
  {
  }

  /** Data edges are not counted. */
  lemma DataEdgeCounts(edges: seq<EdgeRef>, e: EdgeRef, clients: map<Addr, ClientNode>,
                       servers: map<Namespace, ServerNode>, namespace: Namespace)
    requires e.edgeType == Data && ClientsMatch(clients, edges) && ServersMatch(servers, edges)
    ensures ClientsMatch(clients, edges + [e]) && ServersMatch(servers, edges + [e])
    ensures Tally(edges + [e], ServerLink(namespace)) == Tally(edges, ServerLink(namespace))
  {
    TallyAppend(edges, e, ServerLink(namespace));
    forall a: Addr ensures ClientMatches(clients, edges + [e], a) {
      assert ClientMatches(clients, edges, a);
      TallyAppend(edges, e, ClientLink(a));
    }
    OtherServersMatch(servers, edges, e);
  }

  /** One more alias of a known device, with its edge. */
  lemma AliasEntered(devices: seq<DeviceNode>, entered: seq<DeviceId>, id: DeviceId,
                     clients: map<Addr, ClientNode>, namespaces: set<Namespace>, edges: seq<EdgeRef>, e: EdgeRef)
    requires Partitioned(devices, entered) && Find(devices, id).Some?
    requires EdgesKnown(devices, clients, namespaces, edges)
    requires e.from == DeviceLink(devices[Find(devices, id).value].key)
    requires e.to.ServerLink? && e.to.namespace in namespaces
    ensures var k := Find(devices, id).value;
            var after := devices[k := devices[k].(aliases := devices[k].aliases + [AliasOf(id)])];
            Partitioned(after, entered + [id]) && EdgesKnown(after, clients, namespaces, edges + [e])
  {
    var k := Find(devices, id).value;
    var after := devices[k := devices[k].(aliases := devices[k].aliases + [AliasOf(id)])];
    AliasPartitions(devices, entered, id);
    EqualMeans(devices[k].key, devices[k].key);
    FindIsExact(devices, devices[k].key, k);
    forall key: DeviceId ensures Find(after, key) == Find(devices, key) {
      SameKeysSameFind(devices, after, key);
    }
    EdgesStayKnown(devices, after, clients, clients, namespaces, edges);
    assert EdgeKnown(after, clients, namespaces, e);
    KnownAppend(after, clients, namespaces, edges, e);
  }

  lemma KnownAppend(devices: seq<DeviceNode>, clients: map<Addr, ClientNode>, namespaces: set<Namespace>,
                    edges: seq<EdgeRef>, e: EdgeRef)
    requires EdgesKnown(devices, clients, namespaces, edges) && EdgeKnown(devices, clients, namespaces, e)
    ensures EdgesKnown(devices, clients, namespaces, edges + [e])
  {
    forall i | 0 <= i < |edges| + 1 ensures EdgeKnown(devices, clients, namespaces, (edges + [e])[i]) {
      if i < |edges| {
        assert EdgeKnown(devices, clients, namespaces, edges[i]);
      }
    }
  }

  /** A new node with its edges. */
  lemma NodeEntered(devices: seq<DeviceNode>, entered: seq<DeviceId>, node: DeviceNode,
                    clients: map<Addr, ClientNode>, more: map<Addr, ClientNode>,
                    namespaces: set<Namespace>, edges: seq<EdgeRef>, links: seq<EdgeRef>)
    requires Partitioned(devices, entered) && Find(devices, node.key) == None
    requires node.aliases == [AliasOf(node.key)]
    requires EdgesKnown(devices, clients, namespaces, edges) && clients.Keys <= more.Keys
    requires LinksFrom(node.key, more, namespaces, links)
    ensures Partitioned(InsertAt(devices, node), entered + [node.key])
    ensures EdgesKnown(InsertAt(devices, node), more, namespaces, edges + links)
  {
    NewNodePartitions(devices, entered, node);
    assert (entered + [node.key])[|entered|] == node.key;
    NewEdgesKnown(devices, InsertAt(devices, node), node, clients, more, namespaces, edges, links);
  }

  lemma NewEdgesKnown(devices: seq<DeviceNode>, after: seq<DeviceNode>, node: DeviceNode,
                      clients: map<Addr, ClientNode>, more: map<Addr, ClientNode>,
                      namespaces: set<Namespace>, edges: seq<EdgeRef>, links: seq<EdgeRef>)
    requires Sorted(devices) && Find(devices, node.key) == None && after == InsertAt(devices, node)
    requires Find(after, node.key).Some?
    requires EdgesKnown(devices, clients, namespaces, edges) && clients.Keys <= more.Keys
    requires LinksFrom(node.key, more, namespaces, links)
    ensures EdgesKnown(after, more, namespaces, edges + links)
  {
    forall key: DeviceId | Find(devices, key).Some? ensures Find(after, key).Some? {
      StillFound(devices, node, key);
    }
    EdgesStayKnown(devices, after, clients, more, namespaces, edges);
    forall i | 0 <= i < |edges + links| ensures EdgeKnown(after, more, namespaces, (edges + links)[i]) {
      if i < |edges| {
        assert EdgeKnown(after, more, namespaces, edges[i]);
      } else {
        assert (edges + links)[i] == links[i - |edges|];
      }
    }
  }

  // ---------- Main result on aliases ----------

  lemma {:induction false} AliasesOfHas(entered: seq<DeviceId>, key: DeviceId, k: nat)
    requires k < |entered| && Cmp(key, entered[k]) == Equal
    ensures AliasOf(entered[k]) in AliasesOf(entered, key)
  {
    if k < |entered| - 1 {
      AliasesOfHas(entered[..|entered| - 1], key, k);
    }
  }

  /** Each entered device belongs to one node and is among its aliases, and two entered devices
      belong to the same node exactly if the order does not tell their ids apart. */
  lemma AliasesPartitionDevices(devices: seq<DeviceNode>, entered: seq<DeviceId>, j: nat, k: nat)
    requires Partitioned(devices, entered) && j < |entered| && k < |entered|
    ensures var i := Find(devices, entered[k]);
            && i.Some? && AliasOf(entered[k]) in devices[i.value].aliases
            && (forall n | 0 <= n < |devices| :: Cmp(devices[n].key, entered[k]) == Equal <==> n == i.value)
            && (Find(devices, entered[j]) == i <==> Cmp(entered[j], entered[k]) == Equal)
  {
    var i, m := Find(devices, entered[k]).value, Find(devices, entered[j]).value;
    AliasesOfHas(entered, devices[i].key, k);
    forall n | 0 <= n < |devices| ensures Cmp(devices[n].key, entered[k]) == Equal <==> n == i {
      FindIsExact(devices, entered[k], n);
    }
    CmpFlips(devices[i].key, entered[j]);
    if Cmp(entered[j], entered[k]) == Equal {
      CmpOfEquals(entered[j], entered[k], devices[i].key);
      FindIsExact(devices, entered[j], i);
    } else if i == m {
      CmpOfEquals(devices[i].key, entered[j], entered[k]);
    }
  }

  lemma {:induction false} AliasCount(entered: seq<DeviceId>, devices: seq<DeviceNode>, n: nat)
    requires n <= |devices| && forall i | 0 <= i < n :: devices[i].aliases == AliasesOf(entered, devices[i].key)
    ensures Aliases(devices, n) == Matches(entered, devices, n)
  {
    if n > 0 {
      AliasCount(entered, devices, n - 1);
      AliasLength(entered, devices[n - 1].key);
    }
  }

  /** All aliases of the first `n` devices. */
  function Aliases(devices: seq<DeviceNode>, n: nat): nat
    requires n <= |devices|
  {
    if n == 0 then 0 else Aliases(devices, n - 1) + |devices[n - 1].aliases|
  }

  function MatchesOf(entered: seq<DeviceId>, key: DeviceId): nat {
    if entered == [] then 0
    else
      MatchesOf(entered[..|entered| - 1], key) + (if Cmp(key, entered[|entered| - 1]) == Equal then 1 else 0)
  }

  function Matches(entered: seq<DeviceId>, devices: seq<DeviceNode>, n: nat): nat
    requires n <= |devices|
  {
    if n == 0 then 0 else Matches(entered, devices, n - 1) + MatchesOf(entered, devices[n - 1].key)
  }

  lemma {:induction false} AliasLength(entered: seq<DeviceId>, key: DeviceId)
    ensures |AliasesOf(entered, key)| == MatchesOf(entered, key)
  {
    if entered != [] {
      AliasLength(entered[..|entered| - 1], key);
    }
  }

  lemma {:induction false} MatchesOne(most: seq<DeviceId>, last: DeviceId, devices: seq<DeviceNode>, n: nat, i: nat)
    requires n <= |devices| && i < |devices|
    requires forall m | 0 <= m < |devices| :: Cmp(devices[m].key, last) == Equal <==> m == i
    ensures Matches(most + [last], devices, n) == Matches(most, devices, n) + if i < n then 1 else 0
  {
    if n > 0 {
      MatchesOne(most, last, devices, n - 1, i);
      assert (most + [last])[..|most|] == most;
    }
  }

  lemma {:induction false} NoMatches(devices: seq<DeviceNode>, n: nat)
    requires n <= |devices|
    ensures Matches([], devices, n) == 0
  {
    if n > 0 {
      NoMatches(devices, n - 1);
    }
  }

  lemma {:induction false} MatchesAreAll(devices: seq<DeviceNode>, entered: seq<DeviceId>)
    requires Sorted(devices) && forall k | 0 <= k < |entered| :: Find(devices, entered[k]).Some?
    ensures Matches(entered, devices, |devices|) == |entered|
  {
    if entered == [] {
      NoMatches(devices, |devices|);
    } else {
      var most, last := entered[..|entered| - 1], entered[|entered| - 1];
      MatchesAreAll(devices, most);
      var i := Find(devices, last).value;
      forall m | 0 <= m < |devices| ensures Cmp(devices[m].key, last) == Equal <==> m == i {
        FindIsExact(devices, last, m);
      }
      MatchesOne(most, last, devices, |devices|, i);
      assert most + [last] == entered;
    }
  }

  /** There are as many aliases as entered devices: none is lost and none counted twice. */
  lemma AliasesAreAll(devices: seq<DeviceNode>, entered: seq<DeviceId>)
    requires Partitioned(devices, entered)
    ensures Aliases(devices, |devices|) == |entered|
  {
    AliasCount(entered, devices, |devices|);
    MatchesAreAll(devices, entered);
  }
}
