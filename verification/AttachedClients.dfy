/** How a full sync brings the clients attached to a device in line with the reported addresses. */
module AttachedClients {
  import opened Wrappers

  /** An address as an opaque key. */
  type Addr = nat

  datatype ClientInfo = ClientInfo(addr: Addr, name: Option<string>)

  /** Which addresses are loopback, and what a reverse lookup yields for the others. */
  datatype Resolver = Resolver(isLoopback: Addr -> bool, lookup: Addr -> Option<string>) {
    function Named(addr: Addr): ClientInfo {
      ClientInfo(addr, if !isLoopback(addr) then lookup(addr) else None)
    }
  }

  function Addrs(clients: seq<ClientInfo>): (addrs: seq<Addr>)
    ensures |addrs| == |clients|
    ensures forall i | 0 <= i < |clients| :: addrs[i] == clients[i].addr
  {
    seq(|clients|, i requires 0 <= i < |clients| => clients[i].addr)
  }

  /** Addresses of `a` that are not in `b`, in order and as often as they come. */
  function Without(a: seq<Addr>, b: seq<Addr>): seq<Addr> {
    if a == [] then []
    else Without(a[..|a| - 1], b) + (if a[|a| - 1] in b then [] else [a[|a| - 1]])
  }

  /** `ClientDiff::diff`. */
  method Diff(source: seq<ClientInfo>, target: seq<Addr>) returns (connected: seq<Addr>, disconnected: seq<Addr>)
    ensures disconnected == Without(Addrs(source), target)
    ensures connected == Without(target, Addrs(source))
  {
    connected, disconnected := [], [];
    ghost var addrs := Addrs(source);
    for i := 0 to |source|
      invariant disconnected == Without(addrs[..i], target)
    {
      assert addrs[..i + 1][..i] == addrs[..i];
      if source[i].addr !in target {
        disconnected := disconnected + [source[i].addr];
      }
    }
    assert addrs[..|source|] == addrs;
    for i := 0 to |target|
      invariant connected == Without(target[..i], addrs)
    {
      assert target[..i + 1][..i] == target[..i];
      var known := Position(source, target[i], 0) < |source|;
      assert known <==> target[i] in addrs by {
        assert known ==> addrs[Position(source, target[i], 0)] == target[i];
      }
      if !known {
        connected := connected + [target[i]];
      }
    }
    assert target[..|target|] == target;
  }

  /** The first client from `i` on with the address; the length if there is none. */
  function Position(clients: seq<ClientInfo>, addr: Addr, i: nat): (k: nat)
    requires i <= |clients|
    ensures i <= k <= |clients| && (k < |clients| ==> clients[k].addr == addr)
    ensures forall j | i <= j < k :: clients[j].addr != addr
    decreases |clients| - i
  {
    if i == |clients| || clients[i].addr == addr then i else Position(clients, addr, i + 1)
  }

  function SwapRemove(clients: seq<ClientInfo>, i: nat): seq<ClientInfo>
    requires i < |clients|
  {
    clients[i := clients[|clients| - 1]][..|clients| - 1]
  }

  function DetachOne(clients: seq<ClientInfo>, addr: Addr): seq<ClientInfo> {
    var i := Position(clients, addr, 0);
    if i < |clients| then SwapRemove(clients, i) else clients
  }

  function Detach(clients: seq<ClientInfo>, gone: seq<Addr>): seq<ClientInfo> {
    if gone == [] then clients else DetachOne(Detach(clients, gone[..|gone| - 1]), gone[|gone| - 1])
  }

  function Attach(clients: seq<ClientInfo>, arrived: seq<Addr>, r: Resolver): seq<ClientInfo> {
    if arrived == [] then clients
    else Attach(clients, arrived[..|arrived| - 1], r) + [r.Named(arrived[|arrived| - 1])]
  }

  /** The attached list after a full sync that reports `ips`. */
  function Reconciled(attached: seq<ClientInfo>, ips: seq<Addr>, r: Resolver): seq<ClientInfo> {
    Attach(Detach(attached, Without(Addrs(attached), ips)), Without(ips, Addrs(attached)), r)
  }

  /** The removal and push loops of the full sync. */
  method Reconcile(attached: seq<ClientInfo>, ips: seq<Addr>, r: Resolver)
    returns (clients: seq<ClientInfo>, connected: seq<Addr>, disconnected: seq<Addr>)
    ensures clients == Reconciled(attached, ips, r)
    ensures disconnected == Without(Addrs(attached), ips) && connected == Without(ips, Addrs(attached))
  {
    connected, disconnected := Diff(attached, ips);
    clients := attached;
    if disconnected != [] {
      for i := 0 to |disconnected|
        invariant clients == Detach(attached, disconnected[..i])
      {
        assert disconnected[..i + 1][..i] == disconnected[..i];
        var idx := Position(clients, disconnected[i], 0);
        if idx < |clients| {
          clients := SwapRemove(clients, idx);
        }
      }
      assert disconnected[..|disconnected|] == disconnected;
    }
    if connected != [] {
      ghost var kept := clients;
      for i := 0 to |connected|
        invariant clients == Attach(kept, connected[..i], r)
      {
        assert connected[..i + 1][..i] == connected[..i];
        clients := clients + [r.Named(connected[i])];
      }
      assert connected[..|connected|] == connected;
    }
  }

  // ---------- What remains ----------

  lemma SwapOutTakesOne<T>(s: seq<T>, i: nat)
    requires i < |s|
    ensures multiset(s[i := s[|s| - 1]][..|s| - 1]) == multiset(s) - multiset{s[i]}
  {
    var last := |s| - 1;
    assert s == s[..last] + [s[last]];
    if i < last {
      assert s[i := s[last]][..last] == s[..last][i := s[last]];
      assert s[..last][i] == s[i];
    } else {
      assert s[i := s[last]][..last] == s[..last];
    }
  }

  lemma SwapRemoveTakesOne(s: seq<ClientInfo>, i: nat)
    requires i < |s|
    ensures multiset(SwapRemove(s, i)) == multiset(s) - multiset{s[i]}
    ensures multiset(Addrs(SwapRemove(s, i))) == multiset(Addrs(s)) - multiset{s[i].addr}
  {
    SwapOutTakesOne(s, i);
    var a := Addrs(s);
    SwapOutTakesOne(a, i);
    assert Addrs(SwapRemove(s, i)) == a[i := a[|s| - 1]][..|s| - 1];
  }

  /** Detaching addresses that are there takes each of them away once and leaves the clients of
      other addresses as they were. */
  lemma {:induction false} DetachTakesEach(clients: seq<ClientInfo>, gone: seq<Addr>)
    requires multiset(gone) <= multiset(Addrs(clients))
    ensures multiset(Addrs(Detach(clients, gone))) == multiset(Addrs(clients)) - multiset(gone)
    ensures forall c: ClientInfo | c.addr !in gone :: multiset(Detach(clients, gone))[c] == multiset(clients)[c]
  {
    if gone != [] {
      var most, addr := gone[..|gone| - 1], gone[|gone| - 1];
      assert gone == most + [addr];
      assert multiset(gone) == multiset(most) + multiset{addr};
      DetachTakesEach(clients, most);
      var rest := Detach(clients, most);
      var i := Position(rest, addr, 0);
      assert multiset(Addrs(rest))[addr] > 0;
      assert addr in Addrs(rest);
      SwapRemoveTakesOne(rest, i);
    }
  }

  lemma {:induction false} WithoutCounts(a: seq<Addr>, b: seq<Addr>, addr: Addr)
    ensures multiset(Without(a, b))[addr] == if addr in b then 0 else multiset(a)[addr]
  {
    if a != [] {
      assert a == a[..|a| - 1] + [a[|a| - 1]];
      WithoutCounts(a[..|a| - 1], b, addr);
    }
  }

  lemma {:induction false} AttachAdds(clients: seq<ClientInfo>, arrived: seq<Addr>, r: Resolver)
    ensures multiset(Addrs(Attach(clients, arrived, r))) == multiset(Addrs(clients)) + multiset(arrived)
    ensures forall c: ClientInfo | c.addr !in arrived ::
              multiset(Attach(clients, arrived, r))[c] == multiset(clients)[c]
  {
    if arrived != [] {
      var most, addr := arrived[..|arrived| - 1], arrived[|arrived| - 1];
      assert arrived == most + [addr];
      AttachAdds(clients, most, r);
      assert Addrs(Attach(clients, arrived, r)) == Addrs(Attach(clients, most, r)) + [addr];
    }
  }

  /** How often each address is attached afterwards: as often as before if it was attached and is
      reported, as often as it is reported if it is new, and never if it is not reported. */
  lemma ReconciledCounts(attached: seq<ClientInfo>, ips: seq<Addr>, r: Resolver, addr: Addr)
    ensures multiset(Addrs(Reconciled(attached, ips, r)))[addr]
            == if addr !in ips then 0
               else if addr in Addrs(attached) then multiset(Addrs(attached))[addr]
               else multiset(ips)[addr]
  {
    var gone, arrived := Without(Addrs(attached), ips), Without(ips, Addrs(attached));
    forall x ensures multiset(gone)[x] <= multiset(Addrs(attached))[x] {
      WithoutCounts(Addrs(attached), ips, x);
    }
    DetachTakesEach(attached, gone);
    AttachAdds(Detach(attached, gone), arrived, r);
    WithoutCounts(Addrs(attached), ips, addr);
    WithoutCounts(ips, Addrs(attached), addr);
    assert addr in ips <==> multiset(ips)[addr] > 0;
    assert addr in Addrs(attached) <==> multiset(Addrs(attached))[addr] > 0;
  }

  /** After a full sync exactly the reported addresses are attached. */
  lemma AttachedIsReported(attached: seq<ClientInfo>, ips: seq<Addr>, r: Resolver)
    ensures forall addr :: addr in Addrs(Reconciled(attached, ips, r)) <==> addr in ips
  {
    forall addr ensures addr in Addrs(Reconciled(attached, ips, r)) <==> addr in ips {
      ReconciledCounts(attached, ips, r, addr);
      assert addr in multiset(Addrs(Reconciled(attached, ips, r))) <==> addr in Addrs(Reconciled(attached, ips, r));
      assert addr in multiset(ips) <==> addr in ips;
    }
  }

  /** A client that was attached and is still reported keeps its resolved name. */
  lemma KeptClientsAreUnchanged(attached: seq<ClientInfo>, ips: seq<Addr>, r: Resolver, c: ClientInfo)
    requires c in attached && c.addr in ips
    ensures c in Reconciled(attached, ips, r)
  {
    var gone, arrived := Without(Addrs(attached), ips), Without(ips, Addrs(attached));
    forall x ensures multiset(gone)[x] <= multiset(Addrs(attached))[x] {
      WithoutCounts(Addrs(attached), ips, x);
    }
    DetachTakesEach(attached, gone);
    AttachAdds(Detach(attached, gone), arrived, r);
    var i :| 0 <= i < |attached| && attached[i] == c;
    assert Addrs(attached)[i] == c.addr;
    WithoutCounts(Addrs(attached), ips, c.addr);
    WithoutCounts(ips, Addrs(attached), c.addr);
    assert c.addr !in multiset(gone) && c.addr !in multiset(arrived);
    assert c in multiset(attached);
    assert c in multiset(Reconciled(attached, ips, r));
  }

  lemma {:induction false} AttachedIsNamed(clients: seq<ClientInfo>, arrived: seq<Addr>, r: Resolver, c: ClientInfo)
    requires c in Attach(clients, arrived, r)
    ensures c in clients || IsNamed(c, r)
  {
    if arrived != [] {
      var most := arrived[..|arrived| - 1];
      if c in Attach(clients, most, r) {
        AttachedIsNamed(clients, most, r, c);
      }
    }
  }

  /** The client has no name if it is on the daemon's own machine, and otherwise the one that the
      reverse lookup yields. */
  predicate IsNamed(c: ClientInfo, r: Resolver) {
    && (r.isLoopback(c.addr) ==> c.name == None)
    && (!r.isLoopback(c.addr) ==> c.name == r.lookup(c.addr))
  }

  /** A client that was not attached is named anew. */
  lemma NewClientsAreNamed(attached: seq<ClientInfo>, ips: seq<Addr>, r: Resolver, c: ClientInfo)
    requires c in Reconciled(attached, ips, r) && c.addr !in Addrs(attached)
    ensures IsNamed(c, r)
  {
    var kept := Detach(attached, Without(Addrs(attached), ips));
    AttachedIsNamed(kept, Without(ips, Addrs(attached)), r, c);
    if c in kept {
      DetachedWasThere(attached, Without(Addrs(attached), ips), c);
      HasAddr(attached, c);
    }
  }

  lemma HasAddr(clients: seq<ClientInfo>, c: ClientInfo)
    requires c in clients
    ensures c.addr in Addrs(clients)
  {
    var i :| 0 <= i < |clients| && clients[i] == c;
    assert Addrs(clients)[i] == c.addr;
  }

  lemma {:induction false} DetachedWasThere(clients: seq<ClientInfo>, gone: seq<Addr>, c: ClientInfo)
    requires c in Detach(clients, gone)
    ensures c in clients
  {
    if gone != [] {
      DetachedWasThere(clients, gone[..|gone| - 1], c);
    }
  }

  ghost predicate DuplicateFree(s: seq<Addr>) {
    forall addr: Addr :: multiset(s)[addr] <= 1
  }

  /** Without duplicates on either side, the attached addresses are a permutation of the reported
      ones. */
  lemma AttachedIsPermutation(attached: seq<ClientInfo>, ips: seq<Addr>, r: Resolver)
    requires DuplicateFree(Addrs(attached)) && DuplicateFree(ips)
    ensures multiset(Addrs(Reconciled(attached, ips, r))) == multiset(ips)
  {
    forall addr: Addr ensures multiset(Addrs(Reconciled(attached, ips, r)))[addr] == multiset(ips)[addr] {
      ReconciledCounts(attached, ips, r, addr);
      assert addr in multiset(ips) <==> addr in ips;
      assert addr in multiset(Addrs(attached)) <==> addr in Addrs(attached);
    }
  }
}
