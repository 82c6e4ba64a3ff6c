/** The topology graph: devices that several daemons report are grouped by an order on their ids,
    and linked to daemons and clients. */
module Topology {
  import opened Wrappers
  import opened UpsStatuses
  import opened AttachedClients

  // ---------- The order of device ids ----------

  datatype Ordering = Less | Equal | Greater

  function Flip(o: Ordering): Ordering {
    match o
    case Less => Greater
    case Equal => Equal
    case Greater => Less
  }

  function StrCmp(a: string, b: string): Ordering {
    if a == [] then (if b == [] then Equal else Less)
    else if b == [] then Greater
    else if a[0] < b[0] then Less
    else if a[0] > b[0] then Greater
    else StrCmp(a[1..], b[1..])
  }

  function OptCmp(a: Option<string>, b: Option<string>): Ordering {
    match (a, b)
    case (None, None) => Equal
    case (None, Some(_)) => Less
    case (Some(_), None) => Greater
    case (Some(x), Some(y)) => StrCmp(x, y)
  }

  type Namespace = string

  datatype DeviceId = DeviceId(
    manufacturer: Option<string>,
    model: Option<string>,
    serial: Option<string>,
    name: string,
    namespace: Namespace)

  predicate Anonymous(id: DeviceId) {
    id.serial.None? && id.model.None? && id.manufacturer.None?
  }

  /** `DeviceId::cmp`: the name counts only for devices that say nothing else about themselves. */
  function Cmp(a: DeviceId, b: DeviceId): Ordering {
    if OptCmp(a.manufacturer, b.manufacturer) != Equal then OptCmp(a.manufacturer, b.manufacturer)
    else if OptCmp(a.model, b.model) != Equal then OptCmp(a.model, b.model)
    else if OptCmp(a.serial, b.serial) != Equal then OptCmp(a.serial, b.serial)
    else if !Anonymous(a) then Equal
    else if StrCmp(a.namespace, b.namespace) != Equal then StrCmp(a.namespace, b.namespace)
    else StrCmp(a.name, b.name)
  }

  lemma {:induction false} StrOrder(a: string, b: string, c: string)
    ensures StrCmp(a, b) == Equal <==> a == b
    ensures StrCmp(b, a) == Flip(StrCmp(a, b))
    ensures StrCmp(a, b) == Less && StrCmp(b, c) == Less ==> StrCmp(a, c) == Less
    decreases |a| + |b| + |c|
  {
    if a != [] && b != [] {
      StrOrder(a[1..], b[1..], if c == [] then [] else c[1..]);
      assert a == [a[0]] + a[1..] && b == [b[0]] + b[1..];
    }
  }

  lemma OptOrder(a: Option<string>, b: Option<string>, c: Option<string>)
    ensures OptCmp(a, b) == Equal <==> a == b
    ensures OptCmp(b, a) == Flip(OptCmp(a, b))
    ensures OptCmp(a, b) == Less && OptCmp(b, c) == Less ==> OptCmp(a, c) == Less
  {
    StrOrder(a.GetOr([]), b.GetOr([]), c.GetOr([]));
  }

  /** The order does not tell two ids apart exactly if they agree in maker, model and serial number
      and, for lack of all three, in daemon and name. This is coarser than equality. */
  lemma EqualMeans(a: DeviceId, b: DeviceId)
    ensures Cmp(a, b) == Equal
            <==> && a.manufacturer == b.manufacturer && a.model == b.model && a.serial == b.serial
                 && (Anonymous(a) ==> a.namespace == b.namespace && a.name == b.name)
  {
    OptOrder(a.manufacturer, b.manufacturer, None);
    OptOrder(a.model, b.model, None);
    OptOrder(a.serial, b.serial, None);
    StrOrder(a.namespace, b.namespace, []);
    StrOrder(a.name, b.name, []);
  }

  lemma CmpFlips(a: DeviceId, b: DeviceId)
    ensures Cmp(b, a) == Flip(Cmp(a, b))
  {
    OptOrder(a.manufacturer, b.manufacturer, None);
    OptOrder(a.model, b.model, None);
    OptOrder(a.serial, b.serial, None);
    StrOrder(a.namespace, b.namespace, []);
    StrOrder(a.name, b.name, []);
  }

  lemma CmpOfEquals(a: DeviceId, b: DeviceId, c: DeviceId)
    requires Cmp(a, b) == Equal
    ensures Cmp(a, c) == Cmp(b, c) && Cmp(c, a) == Cmp(c, b)
  {
    EqualMeans(a, b);
  }

  lemma LessIsTransitive(a: DeviceId, b: DeviceId, c: DeviceId)
    requires Cmp(a, b) == Less && Cmp(b, c) == Less
    ensures Cmp(a, c) == Less
  {
    OptOrder(a.manufacturer, b.manufacturer, c.manufacturer);
    OptOrder(b.manufacturer, c.manufacturer, None);
    OptOrder(a.model, b.model, c.model);
    OptOrder(b.model, c.model, None);
    OptOrder(a.serial, b.serial, c.serial);
    OptOrder(b.serial, c.serial, None);
    StrOrder(a.namespace, b.namespace, c.namespace);
    StrOrder(b.namespace, c.namespace, []);
    StrOrder(a.name, b.name, c.name);
  }

  /** A total preorder: any two ids compare, reversely when swapped, and comparing is transitive. */
  lemma CmpIsTotalPreorder(a: DeviceId, b: DeviceId, c: DeviceId)
    ensures Cmp(a, a) == Equal
    ensures Cmp(b, a) == Flip(Cmp(a, b))
    ensures Cmp(a, b) != Greater && Cmp(b, c) != Greater ==> Cmp(a, c) != Greater
    ensures Cmp(a, b) != Greater && Cmp(b, c) != Greater && (Cmp(a, b) == Less || Cmp(b, c) == Less)
            ==> Cmp(a, c) == Less
  {
    EqualMeans(a, a);
    CmpFlips(a, b);
    if Cmp(a, b) == Equal {
      CmpOfEquals(a, b, c);
    } else if Cmp(b, c) == Equal {
      CmpOfEquals(b, c, a);
    } else if Cmp(a, b) == Less && Cmp(b, c) == Less {
      LessIsTransitive(a, b, c);
    }
  }
}
