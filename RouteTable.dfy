/**
 * Route bookkeeping of the connectivity service: adding and removing routes
 * through the network daemon, with a reference count of the routes the
 * service put into the default table, and the route update done when a
 * network's link properties change.
 */
module Routes {
  import opened Wrappers

  /** An IP address; `AnyAddress` is the unspecified address a route without gateway carries. */
  datatype Addr = AnyAddress | Address(text: string)

  /** A destination prefix: a single host, or a network of the given prefix length. */
  datatype Prefix = Host | Net(length: nat)

  /** A route: destination, prefix and gateway. */
  datatype Route = Route(dest: Addr, prefix: Prefix, gateway: Addr)

  /** A host route to `dest` through `gateway`. */
  function HostRoute(dest: Addr, gateway: Addr): Route
  {
    Route(dest, Host, gateway)
  }

  /** A default route has the empty prefix. */
  predicate IsDefaultRoute(r: Route)
  {
    r.prefix == Net(0)
  }

  /** The link properties a route operation consults: interface name, routes and DNS servers. */
  datatype LinkProps = LinkProps(iface: Option<string>, routes: seq<Route>, dnses: seq<Addr>)

  /**
   * The two RouteInfo queries the service relies on, which are not part of
   * this model and so are a parameter of every operation that uses them:
   * the best route in a list towards an address (selectBestRoute), and
   * whether a route counts as a host route (isHostRoute).
   */
  datatype RouteInfo = RouteInfo(bestRoute: (seq<Route>, Addr) -> Option<Route>, isHostRoute: Route -> bool)

  /** The calls the service makes on the network daemon for routes. */
  datatype RouteCall =
    | AddRoute(iface: string, route: Route)
    | RemoveRoute(iface: string, route: Route)
    | AddSecondaryRoute(iface: string, route: Route)
    | RemoveSecondaryRoute(iface: string, route: Route)

  /** The daemon's answer to a call: true when it succeeds, false when it throws. */
  type Netd = RouteCall -> bool

  /** The routes the service counts in the default table, and every call made on the daemon. */
  datatype Table = Table(added: multiset<Route>, calls: seq<RouteCall>)

  const MAX_HOSTROUTE_CYCLE_COUNT := 10

  /**
   * The host route that makes a route's gateway reachable: None for a route
   * that isHostRoute accepts or when no route leads to the gateway; the
   * gateway's implied host route (no gateway of its own) when the best route
   * is the gateway's own; otherwise a host route through the best route's
   * gateway.
   */
  function GatewayRoute(routes: seq<Route>, r: Route, ri: RouteInfo): (g: Option<Route>)
    ensures ri.isHostRoute(r) ==> g.None?
    ensures !ri.isHostRoute(r) ==> (g.None? <==> ri.bestRoute(routes, r.gateway).None?)
    ensures g.Some? ==> g.value.prefix == Host && g.value.dest == r.gateway
    ensures g.Some? ==> g.value.gateway == AnyAddress || g.value.gateway == ri.bestRoute(routes, r.gateway).value.gateway
  {
    if ri.isHostRoute(r) then None
    else match ri.bestRoute(routes, r.gateway)
      case None => None
      case Some(best) =>
        if best.gateway == r.gateway then Some(HostRoute(r.gateway, AnyAddress))
        else Some(HostRoute(r.gateway, best.gateway))
  }

  /**
   * The effect of one route on the tables, once its gateway is handled: an
   * add in the default table counts the route before calling the daemon; a
   * remove there drops one count and calls the daemon only when none is left.
   */
  function RouteStep(t: Table, iface: string, r: Route, doAdd: bool, toDefault: bool, netd: Netd): (Table, bool)
  {
    if doAdd then
      if toDefault then
        (Table(t.added + multiset{r}, t.calls + [AddRoute(iface, r)]), netd(AddRoute(iface, r)))
      else
        (Table(t.added, t.calls + [AddSecondaryRoute(iface, r)]), netd(AddSecondaryRoute(iface, r)))
    else if toDefault then
      var left := t.added - multiset{r};
      if r in left then (Table(left, t.calls), true)
      else (Table(left, t.calls + [RemoveRoute(iface, r)]), netd(RemoveRoute(iface, r)))
    else
      (Table(t.added, t.calls + [RemoveSecondaryRoute(iface, r)]), netd(RemoveSecondaryRoute(iface, r)))
  }

  /**
   * modifyRoute: nothing happens on a missing interface, link or route or
   * past the recursion bound; otherwise the gateway's host route is handled
   * first (its outcome ignored) and then the route itself.
   */
  function ModifyRouteSpec(t: Table, iface: Option<string>, lp: Option<LinkProps>, r: Option<Route>,
                           cycleCount: int, doAdd: bool, toDefault: bool, ri: RouteInfo, netd: Netd): (res: (Table, bool))
    ensures iface.None? || lp.None? || r.None? || cycleCount > MAX_HOSTROUTE_CYCLE_COUNT ==> res == (t, false)
    decreases if cycleCount > MAX_HOSTROUTE_CYCLE_COUNT then 0 else MAX_HOSTROUTE_CYCLE_COUNT + 1 - cycleCount
  {
    if iface.None? || lp.None? || r.None? then (t, false)
    else if cycleCount > MAX_HOSTROUTE_CYCLE_COUNT then (t, false)
    else
      var g := GatewayRoute(lp.value.routes, r.value, ri);
      var mid := if g.Some? then ModifyRouteSpec(t, iface, lp, g, cycleCount + 1, doAdd, toDefault, ri, netd).0 else t;
      RouteStep(mid, iface.value, r.value, doAdd, toDefault, netd)
  }

  /**
   * A route that isHostRoute accepts has no gateway step: within the
   * recursion bound, modifyRoute on it is the route's own step.
   */
  lemma HostRouteIsOneStep(t: Table, iface: string, lp: LinkProps, r: Route, cycleCount: int,
                           doAdd: bool, toDefault: bool, ri: RouteInfo, netd: Netd)
    requires ri.isHostRoute(r) && cycleCount <= MAX_HOSTROUTE_CYCLE_COUNT
    ensures ModifyRouteSpec(t, Some(iface), Some(lp), Some(r), cycleCount, doAdd, toDefault, ri, netd)
         == RouteStep(t, iface, r, doAdd, toDefault, netd)
  {
  }

  /**
   * When isHostRoute accepts the gateway's host route g, the recursion is one
   * level deep: modifyRoute on r is g's own step followed by r's. Without
   * that hypothesis g recurses in turn, down to the recursion bound.
   */
  lemma GatewayRecursionDepthOne(t: Table, iface: string, lp: LinkProps, r: Route, cycleCount: int,
                                 doAdd: bool, toDefault: bool, ri: RouteInfo, netd: Netd)
    requires cycleCount < MAX_HOSTROUTE_CYCLE_COUNT
    requires GatewayRoute(lp.routes, r, ri).Some?
    requires ri.isHostRoute(GatewayRoute(lp.routes, r, ri).value)
    ensures var g := GatewayRoute(lp.routes, r, ri).value;
      ModifyRouteSpec(t, Some(iface), Some(lp), Some(r), cycleCount, doAdd, toDefault, ri, netd)
      == RouteStep(RouteStep(t, iface, g, doAdd, toDefault, netd).0, iface, r, doAdd, toDefault, netd)
  {
    var g := GatewayRoute(lp.routes, r, ri).value;
    HostRouteIsOneStep(t, iface, lp, g, cycleCount + 1, doAdd, toDefault, ri, netd);
  }

  /**
   * At the recursion bound the gateway's host route is dropped: a route that
   * isHostRoute rejects and whose gateway is reachable still gets its own
   * step, with nothing done for the gateway.
   */
  lemma BoundStopsGatewayStep(t: Table, iface: string, lp: LinkProps, r: Route,
                              doAdd: bool, toDefault: bool, ri: RouteInfo, netd: Netd)
    requires GatewayRoute(lp.routes, r, ri).Some?
    ensures ModifyRouteSpec(t, Some(iface), Some(lp), Some(r), MAX_HOSTROUTE_CYCLE_COUNT, doAdd, toDefault, ri, netd)
         == RouteStep(t, iface, r, doAdd, toDefault, netd)
  {
  }

  /** Secondary-table operations never touch the reference count. */
  lemma {:induction false} SecondaryKeepsCount(t: Table, iface: Option<string>, lp: Option<LinkProps>, r: Option<Route>,
                                              cycleCount: int, doAdd: bool, ri: RouteInfo, netd: Netd)
    ensures ModifyRouteSpec(t, iface, lp, r, cycleCount, doAdd, false, ri, netd).0.added == t.added
    decreases if cycleCount > MAX_HOSTROUTE_CYCLE_COUNT then 0 else MAX_HOSTROUTE_CYCLE_COUNT + 1 - cycleCount
  {
    if iface.Some? && lp.Some? && r.Some? && cycleCount <= MAX_HOSTROUTE_CYCLE_COUNT {
      var g := GatewayRoute(lp.value.routes, r.value, ri);
      if g.Some? {
        SecondaryKeepsCount(t, iface, lp, g, cycleCount + 1, doAdd, ri, netd);
      }
    }
  }

  /** Adding a host route to the default table counts exactly one more occurrence of it. */
  lemma DefaultAddCountsOnce(t: Table, iface: string, lp: LinkProps, r: Route, ri: RouteInfo, netd: Netd)
    requires ri.isHostRoute(r)
    ensures var res := ModifyRouteSpec(t, Some(iface), Some(lp), Some(r), 0, true, true, ri, netd);
      res.0.added == t.added + multiset{r} && res.0.calls == t.calls + [AddRoute(iface, r)]
      && (res.1 <==> netd(AddRoute(iface, r)))
  {
    HostRouteIsOneStep(t, iface, lp, r, 0, true, true, ri, netd);
  }

  /**
   * Removing a host route from the default table drops one occurrence, and
   * the daemon is asked to remove it exactly when no occurrence is left.
   */
  lemma DefaultRemoveRefCounts(t: Table, iface: string, lp: LinkProps, r: Route, ri: RouteInfo, netd: Netd)
    requires ri.isHostRoute(r)
    ensures var res := ModifyRouteSpec(t, Some(iface), Some(lp), Some(r), 0, false, true, ri, netd);
      res.0.added == t.added - multiset{r}
      && (r in res.0.added ==> res.0.calls == t.calls && res.1)
      && (r !in res.0.added ==> res.0.calls == t.calls + [RemoveRoute(iface, r)])
  {
    HostRouteIsOneStep(t, iface, lp, r, 0, false, true, ri, netd);
  }

  /** Removing a host route after adding it restores the reference count. */
  lemma AddThenRemoveRestoresCount(t: Table, iface: string, lp: LinkProps, r: Route, ri: RouteInfo, netd: Netd)
    requires ri.isHostRoute(r)
    ensures var added := ModifyRouteSpec(t, Some(iface), Some(lp), Some(r), 0, true, true, ri, netd).0;
      var removed := ModifyRouteSpec(added, Some(iface), Some(lp), Some(r), 0, false, true, ri, netd).0;
      removed.added == t.added
      && (r in t.added <==> removed.calls == t.calls + [AddRoute(iface, r)])
  {
    DefaultAddCountsOnce(t, iface, lp, r, ri, netd);
    var added := ModifyRouteSpec(t, Some(iface), Some(lp), Some(r), 0, true, true, ri, netd).0;
    DefaultRemoveRefCounts(added, iface, lp, r, ri, netd);
    assert added.added - multiset{r} == t.added;
  }

  // ----------------------------------------------------------- route update

  /** The elements of xs that are not in ys, in order. */
  function Minus<T(==,!new)>(xs: seq<T>, ys: seq<T>): (d: seq<T>)
    ensures forall x :: x in d <==> x in xs && x !in ys
  {
    if xs == [] then []
    else if xs[0] in ys then Minus(xs[1..], ys)
    else [xs[0]] + Minus(xs[1..], ys)
  }

  /** What a link change removes and adds, from the current to the new list. */
  datatype Diff<T> = Diff(removed: seq<T>, added: seq<T>)

  /**
   * The difference between the current and the new lists: everything new is
   * added when there is no current link, nothing changes when neither exists.
   */
  function Compare<T(==,!new)>(cur: Option<seq<T>>, target: Option<seq<T>>): (d: Diff<T>)
    ensures cur.None? && target.None? ==> d == Diff([], [])
    ensures cur.None? && target.Some? ==> d == Diff([], target.value)
  {
    if cur.Some? then
      var other := if target.Some? then target.value else [];
      Diff(Minus(cur.value, other), Minus(other, cur.value))
    else if target.Some? then Diff([], target.value)
    else Diff([], [])
  }

  function RoutesOf(lp: Option<LinkProps>): Option<seq<Route>>
  {
    if lp.Some? then Some(lp.value.routes) else None
  }

  function DnsesOf(lp: Option<LinkProps>): Option<seq<Addr>>
  {
    if lp.Some? then Some(lp.value.dnses) else None
  }

  /** The routes changed when anything is removed or added. */
  predicate RoutesChanged(newLp: Option<LinkProps>, curLp: Option<LinkProps>)
  {
    var d := Compare(RoutesOf(curLp), RoutesOf(newLp));
    |d.removed| != 0 || |d.added| != 0
  }

  /** Between two existing links, the routes changed exactly when their route sets differ. */
  lemma RoutesChangedIffSetsDiffer(newLp: LinkProps, curLp: LinkProps)
    ensures RoutesChanged(Some(newLp), Some(curLp)) <==> (set r | r in curLp.routes) != (set r | r in newLp.routes)
  {
    var d := Compare(RoutesOf(Some(curLp)), RoutesOf(Some(newLp)));
    assert d == Diff(Minus(curLp.routes, newLp.routes), Minus(newLp.routes, curLp.routes));
    var cur, next := set r | r in curLp.routes, set r | r in newLp.routes;
    if |d.removed| != 0 {
      var r := d.removed[0];
      assert r in cur && r !in next;
    } else if |d.added| != 0 {
      var r := d.added[0];
      assert r in next && r !in cur;
    } else {
      forall r | r in curLp.routes ensures r in newLp.routes {
        assert r !in d.removed;
      }
      forall r | r in newLp.routes ensures r in curLp.routes {
        assert r !in d.added;
      }
      assert cur == next;
    }
  }

  /** One step of a route update. */
  datatype RouteOp =
    | Modify(lp: LinkProps, route: Route, doAdd: bool, toDefault: bool)
    | DropUnwanted(iface: Option<string>, route: Route)

  /** modifyRoute on a link's own interface, from the top of the recursion. */
  function ApplyOp(t: Table, op: RouteOp, ri: RouteInfo, netd: Netd): Table
  {
    match op
    case Modify(lp, r, doAdd, toDefault) =>
      ModifyRouteSpec(t, lp.iface, Some(lp), Some(r), 0, doAdd, toDefault, ri, netd).0
    case DropUnwanted(iface, r) =>
      if iface.Some? && iface.value != "" && r !in t.added then Table(t.added, t.calls + [RemoveRoute(iface.value, r)])
      else t
  }

  function ApplyOps(t: Table, ops: seq<RouteOp>, ri: RouteInfo, netd: Netd): Table
    decreases |ops|
  {
    if ops == [] then t else ApplyOps(ApplyOp(t, ops[0], ri, netd), ops[1..], ri, netd)
  }

  lemma {:induction false} ApplyOpsAppend(t: Table, a: seq<RouteOp>, b: seq<RouteOp>, ri: RouteInfo, netd: Netd)
    ensures ApplyOps(t, a + b, ri, netd) == ApplyOps(ApplyOps(t, a, ri, netd), b, ri, netd)
    decreases |a|
  {
    if a == [] {
      assert a + b == b;
    } else {
      assert (a + b)[0] == a[0];
      assert (a + b)[1..] == a[1..] + b;
      ApplyOpsAppend(ApplyOp(t, a[0], ri, netd), a[1..], b, ri, netd);
    }
  }

  /**
   * A removed route: from the default table when the link is the default or
   * the route is not a default route, and from the secondary table when the
   * link is not the default.
   */
  function RemovedOps(curLp: LinkProps, r: Route, isLinkDefault: bool): seq<RouteOp>
  {
    (if isLinkDefault || !IsDefaultRoute(r) then [Modify(curLp, r, false, true)] else [])
    + (if !isLinkDefault then [Modify(curLp, r, false, false)] else [])
  }

  /**
   * An added route: into the default table when the link is the default or
   * the route is not a default route; otherwise into the secondary table,
   * and the daemon is told to drop the default route unless it is counted.
   */
  function AddedOps(newLp: LinkProps, r: Route, isLinkDefault: bool): seq<RouteOp>
  {
    if isLinkDefault || !IsDefaultRoute(r) then [Modify(newLp, r, true, true)]
    else [Modify(newLp, r, true, false), DropUnwanted(newLp.iface, r)]
  }

  /** The host route through which an address is reached: modifyRouteToAddress's route. */
  function AddressRoute(lp: LinkProps, addr: Addr, ri: RouteInfo): (r: Route)
    ensures r.prefix == Host && r.dest == addr
  {
    match ri.bestRoute(lp.routes, addr)
    case None => HostRoute(addr, AnyAddress)
    case Some(best) =>
      if best.gateway == addr then HostRoute(addr, AnyAddress) else HostRoute(addr, best.gateway)
  }

  /** Host routes to DNS servers, added or removed in the default table. */
  function DnsOps(lp: LinkProps, dnses: seq<Addr>, doAdd: bool, ri: RouteInfo): (ops: seq<RouteOp>)
    ensures |ops| == |dnses|
    ensures forall i :: 0 <= i < |ops| ==> ops[i] == Modify(lp, AddressRoute(lp, dnses[i], ri), doAdd, true)
  {
    if dnses == [] then [] else [Modify(lp, AddressRoute(lp, dnses[0], ri), doAdd, true)] + DnsOps(lp, dnses[1..], doAdd, ri)
  }

  function RemovedRoutesOps(curLp: LinkProps, rs: seq<Route>, isLinkDefault: bool): seq<RouteOp>
  {
    if rs == [] then [] else RemovedOps(curLp, rs[0], isLinkDefault) + RemovedRoutesOps(curLp, rs[1..], isLinkDefault)
  }

  function AddedRoutesOps(newLp: LinkProps, rs: seq<Route>, isLinkDefault: bool): seq<RouteOp>
  {
    if rs == [] then [] else AddedOps(newLp, rs[0], isLinkDefault) + AddedRoutesOps(newLp, rs[1..], isLinkDefault)
  }

  /**
   * The DNS host routes of a link that is not the default: when the routes
   * changed, all old servers' routes go and all new ones come; otherwise
   * only the servers that changed.
   */
  function DnsRouteOps(newLp: Option<LinkProps>, curLp: Option<LinkProps>, routesChanged: bool, ri: RouteInfo): seq<RouteOp>
  {
    if routesChanged then
      (if curLp.Some? then DnsOps(curLp.value, curLp.value.dnses, false, ri) else [])
      + (if newLp.Some? then DnsOps(newLp.value, newLp.value.dnses, true, ri) else [])
    else
      var d := Compare(DnsesOf(curLp), DnsesOf(newLp));
      (if curLp.Some? then DnsOps(curLp.value, d.removed, false, ri) else [])
      + (if newLp.Some? then DnsOps(newLp.value, d.added, true, ri) else [])
  }

  lemma RemovedRoutesOpsUnfold(curLp: LinkProps, rs: seq<Route>, i: nat, isLinkDefault: bool)
    requires i < |rs|
    ensures RemovedRoutesOps(curLp, rs[i..], isLinkDefault)
         == RemovedOps(curLp, rs[i], isLinkDefault) + RemovedRoutesOps(curLp, rs[i + 1..], isLinkDefault)
  {
    assert rs[i..][1..] == rs[i + 1..];
  }

  lemma AddedRoutesOpsUnfold(newLp: LinkProps, rs: seq<Route>, i: nat, isLinkDefault: bool)
    requires i < |rs|
    ensures AddedRoutesOps(newLp, rs[i..], isLinkDefault)
         == AddedOps(newLp, rs[i], isLinkDefault) + AddedRoutesOps(newLp, rs[i + 1..], isLinkDefault)
  {
    assert rs[i..][1..] == rs[i + 1..];
  }

  /** Every step of updateRoutes, in order. */
  function UpdatePlan(newLp: Option<LinkProps>, curLp: Option<LinkProps>, isLinkDefault: bool, ri: RouteInfo): seq<RouteOp>
  {
    var d := Compare(RoutesOf(curLp), RoutesOf(newLp));
    (if curLp.Some? then RemovedRoutesOps(curLp.value, d.removed, isLinkDefault) else [])
    + (if newLp.Some? then AddedRoutesOps(newLp.value, d.added, isLinkDefault) else [])
    + (if !isLinkDefault then DnsRouteOps(newLp, curLp, RoutesChanged(newLp, curLp), ri) else [])
  }

  /** A step that only ever acts on the default table. */
  predicate DefaultTableOnly(op: RouteOp)
  {
    op.Modify? && op.toDefault
  }

  /** A step that puts a default route into the default table. */
  predicate AddsDefaultRoute(op: RouteOp)
  {
    op.Modify? && op.doAdd && op.toDefault && IsDefaultRoute(op.route)
  }

  lemma {:induction false} DefaultLinkOpsOnly(curLp: LinkProps, newLp: LinkProps, removed: seq<Route>, added: seq<Route>)
    ensures forall op :: op in RemovedRoutesOps(curLp, removed, true) ==> DefaultTableOnly(op)
    ensures forall op :: op in AddedRoutesOps(newLp, added, true) ==> DefaultTableOnly(op)
    decreases |removed| + |added|
  {
    if removed != [] { DefaultLinkOpsOnly(curLp, newLp, removed[1..], []); }
    if added != [] { DefaultLinkOpsOnly(curLp, newLp, [], added[1..]); }
  }

  /** For the default link every step is a default-table route change. */
  lemma DefaultLinkPlan(newLp: Option<LinkProps>, curLp: Option<LinkProps>, ri: RouteInfo)
    ensures forall op :: op in UpdatePlan(newLp, curLp, true, ri) ==> DefaultTableOnly(op)
  {
    var d := Compare(RoutesOf(curLp), RoutesOf(newLp));
    DefaultLinkOpsOnly(if curLp.Some? then curLp.value else LinkProps(None, [], []),
                       if newLp.Some? then newLp.value else LinkProps(None, [], []), d.removed, d.added);
  }

  lemma {:induction false} NonDefaultLinkOps(curLp: LinkProps, newLp: LinkProps, removed: seq<Route>, added: seq<Route>)
    ensures forall op :: op in RemovedRoutesOps(curLp, removed, false) ==> !AddsDefaultRoute(op)
    ensures forall op :: op in AddedRoutesOps(newLp, added, false) ==> !AddsDefaultRoute(op)
    decreases |removed| + |added|
  {
    if removed != [] { NonDefaultLinkOps(curLp, newLp, removed[1..], []); }
    if added != [] { NonDefaultLinkOps(curLp, newLp, [], added[1..]); }
  }

  /** DNS host routes are never default routes. */
  lemma DnsOpsAddNoDefault(lp: LinkProps, dnses: seq<Addr>, doAdd: bool, ri: RouteInfo)
    ensures forall op :: op in DnsOps(lp, dnses, doAdd, ri) ==> op.Modify? && op.route.prefix == Host
  {
    var ops := DnsOps(lp, dnses, doAdd, ri);
    forall op | op in ops
      ensures op.Modify? && op.route.prefix == Host
    {
      var i :| 0 <= i < |ops| && ops[i] == op;
      assert op.route == AddressRoute(lp, dnses[i], ri);
    }
  }

  lemma DnsRouteOpsAddNoDefault(newLp: Option<LinkProps>, curLp: Option<LinkProps>, routesChanged: bool, ri: RouteInfo)
    ensures forall op :: op in DnsRouteOps(newLp, curLp, routesChanged, ri) ==> !AddsDefaultRoute(op)
  {
    var d := Compare(DnsesOf(curLp), DnsesOf(newLp));
    if curLp.Some? {
      DnsOpsAddNoDefault(curLp.value, curLp.value.dnses, false, ri);
      DnsOpsAddNoDefault(curLp.value, d.removed, false, ri);
    }
    if newLp.Some? {
      DnsOpsAddNoDefault(newLp.value, newLp.value.dnses, true, ri);
      DnsOpsAddNoDefault(newLp.value, d.added, true, ri);
    }
  }

  /** A link that is not the default never gets a default route counted in the default table. */
  lemma NonDefaultLinkAddsNoDefaultRoute(newLp: Option<LinkProps>, curLp: Option<LinkProps>, ri: RouteInfo)
    ensures forall op :: op in UpdatePlan(newLp, curLp, false, ri) ==> !AddsDefaultRoute(op)
  {
    var d := Compare(RoutesOf(curLp), RoutesOf(newLp));
    var cur := if curLp.Some? then curLp.value else LinkProps(None, [], []);
    var next := if newLp.Some? then newLp.value else LinkProps(None, [], []);
    var removals := if curLp.Some? then RemovedRoutesOps(curLp.value, d.removed, false) else [];
    var additions := if newLp.Some? then AddedRoutesOps(newLp.value, d.added, false) else [];
    var dns := DnsRouteOps(newLp, curLp, RoutesChanged(newLp, curLp), ri);
    assert UpdatePlan(newLp, curLp, false, ri) == removals + additions + dns;
    NonDefaultLinkOps(cur, next, d.removed, d.added);
    DnsRouteOpsAddNoDefault(newLp, curLp, RoutesChanged(newLp, curLp), ri);
  }

  /** The route table the service keeps: the reference-counted default-table routes and the daemon calls. */
  class RouteTable {
    var addedRoutes: multiset<Route>
    var calls: seq<RouteCall>

    function State(): Table
      reads this
    {
      Table(addedRoutes, calls)
    }

    constructor()
      ensures addedRoutes == multiset{} && calls == []
    {
      addedRoutes := multiset{};
      calls := [];
    }

    /** modifyRoute: the gateway's host route first, then the route itself. */
    method ModifyRoute(iface: Option<string>, lp: Option<LinkProps>, r: Option<Route>, cycleCount: int,
                       doAdd: bool, toDefault: bool, ri: RouteInfo, netd: Netd) returns (ok: bool)
      modifies this
      ensures (State(), ok) == ModifyRouteSpec(old(State()), iface, lp, r, cycleCount, doAdd, toDefault, ri, netd)
      decreases if cycleCount > MAX_HOSTROUTE_CYCLE_COUNT then 0 else MAX_HOSTROUTE_CYCLE_COUNT + 1 - cycleCount
    {
      if iface.None? || lp.None? || r.None? {
        return false;
      }
      if cycleCount > MAX_HOSTROUTE_CYCLE_COUNT {
        return false;
      }
      var route := r.value;
      var name := iface.value;
      var g := GatewayRoute(lp.value.routes, route, ri);
      if g.Some? {
        var _ := ModifyRoute(iface, lp, g, cycleCount + 1, doAdd, toDefault, ri, netd);
      }
      if doAdd {
        if toDefault {
          addedRoutes := addedRoutes + multiset{route};
          calls := calls + [AddRoute(name, route)];
          ok := netd(AddRoute(name, route));
        } else {
          calls := calls + [AddSecondaryRoute(name, route)];
          ok := netd(AddSecondaryRoute(name, route));
        }
      } else if toDefault {
        addedRoutes := addedRoutes - multiset{route};
        if route !in addedRoutes {
          calls := calls + [RemoveRoute(name, route)];
          ok := netd(RemoveRoute(name, route));
        } else {
          ok := true;
        }
      } else {
        calls := calls + [RemoveSecondaryRoute(name, route)];
        ok := netd(RemoveSecondaryRoute(name, route));
      }
    }

    /** One step of a route update. */
    method Apply(op: RouteOp, ri: RouteInfo, netd: Netd)
      modifies this
      ensures State() == ApplyOp(old(State()), op, ri, netd)
    {
      match op
      case Modify(lp, r, doAdd, toDefault) =>
        var _ := ModifyRoute(lp.iface, Some(lp), Some(r), 0, doAdd, toDefault, ri, netd);
      case DropUnwanted(iface, r) =>
        if iface.Some? && iface.value != "" && r !in addedRoutes {
          calls := calls + [RemoveRoute(iface.value, r)];
        }
    }

    /** Applies steps in order. */
    method ApplyAll(ops: seq<RouteOp>, ri: RouteInfo, netd: Netd)
      modifies this
      ensures State() == ApplyOps(old(State()), ops, ri, netd)
    {
      var i := 0;
      while i < |ops|
        invariant 0 <= i <= |ops|
        invariant ApplyOps(old(State()), ops, ri, netd) == ApplyOps(State(), ops[i..], ri, netd)
      {
        Apply(ops[i], ri, netd);
        assert ops[i..][1..] == ops[i + 1..];
        i := i + 1;
      }
    }

    /**
     * updateRoutes: removed routes leave, added routes come, then (for a link
     * that is not the default) the DNS host routes follow. The result says
     * whether the routes changed.
     */
    method UpdateRoutes(newLp: Option<LinkProps>, curLp: Option<LinkProps>, isLinkDefault: bool,
                        ri: RouteInfo, netd: Netd) returns (routesChanged: bool)
      modifies this
      ensures routesChanged == RoutesChanged(newLp, curLp)
      ensures State() == ApplyOps(old(State()), UpdatePlan(newLp, curLp, isLinkDefault, ri), ri, netd)
    {
      var d := Compare(RoutesOf(curLp), RoutesOf(newLp));
      routesChanged := |d.removed| != 0 || |d.added| != 0;
      ghost var t0 := State();
      ghost var removedOps: seq<RouteOp> := [];
      if curLp.Some? {
        removedOps := RemovedRoutesOps(curLp.value, d.removed, isLinkDefault);
        RemoveRoutes(curLp.value, d.removed, isLinkDefault, ri, netd);
      }
      ghost var addedOps: seq<RouteOp> := [];
      if newLp.Some? {
        addedOps := AddedRoutesOps(newLp.value, d.added, isLinkDefault);
        AddRoutes(newLp.value, d.added, isLinkDefault, ri, netd);
      }
      ghost var dnsOps: seq<RouteOp> := [];
      if !isLinkDefault {
        dnsOps := DnsRouteOps(newLp, curLp, routesChanged, ri);
        UpdateDnsRoutes(newLp, curLp, routesChanged, ri, netd);
      }
      ApplyOpsAppend(t0, removedOps, addedOps, ri, netd);
      ApplyOpsAppend(t0, removedOps + addedOps, dnsOps, ri, netd);
    }

    /** The removed routes, in order. */
    method RemoveRoutes(curLp: LinkProps, rs: seq<Route>, isLinkDefault: bool, ri: RouteInfo, netd: Netd)
      modifies this
      ensures State() == ApplyOps(old(State()), RemovedRoutesOps(curLp, rs, isLinkDefault), ri, netd)
    {
      var i := 0;
      while i < |rs|
        invariant 0 <= i <= |rs|
        invariant ApplyOps(old(State()), RemovedRoutesOps(curLp, rs, isLinkDefault), ri, netd)
               == ApplyOps(State(), RemovedRoutesOps(curLp, rs[i..], isLinkDefault), ri, netd)
      {
        var ops := RemovedOps(curLp, rs[i], isLinkDefault);
        ghost var before := State();
        ApplyAll(ops, ri, netd);
        RemovedRoutesOpsUnfold(curLp, rs, i, isLinkDefault);
        ApplyOpsAppend(before, ops, RemovedRoutesOps(curLp, rs[i + 1..], isLinkDefault), ri, netd);
        i := i + 1;
      }
    }

    /** The added routes, in order. */
    method AddRoutes(newLp: LinkProps, rs: seq<Route>, isLinkDefault: bool, ri: RouteInfo, netd: Netd)
      modifies this
      ensures State() == ApplyOps(old(State()), AddedRoutesOps(newLp, rs, isLinkDefault), ri, netd)
    {
      var i := 0;
      while i < |rs|
        invariant 0 <= i <= |rs|
        invariant ApplyOps(old(State()), AddedRoutesOps(newLp, rs, isLinkDefault), ri, netd)
               == ApplyOps(State(), AddedRoutesOps(newLp, rs[i..], isLinkDefault), ri, netd)
      {
        var ops := AddedOps(newLp, rs[i], isLinkDefault);
        ghost var before := State();
        ApplyAll(ops, ri, netd);
        AddedRoutesOpsUnfold(newLp, rs, i, isLinkDefault);
        ApplyOpsAppend(before, ops, AddedRoutesOps(newLp, rs[i + 1..], isLinkDefault), ri, netd);
        i := i + 1;
      }
    }

    /** The DNS host routes of a link that is not the default. */
    method UpdateDnsRoutes(newLp: Option<LinkProps>, curLp: Option<LinkProps>, routesChanged: bool,
                           ri: RouteInfo, netd: Netd)
      modifies this
      ensures State() == ApplyOps(old(State()), DnsRouteOps(newLp, curLp, routesChanged, ri), ri, netd)
    {
      var gone, come: seq<Addr> := [], [];
      if routesChanged {
        if curLp.Some? { gone := curLp.value.dnses; }
        if newLp.Some? { come := newLp.value.dnses; }
      } else {
        var d := Compare(DnsesOf(curLp), DnsesOf(newLp));
        gone, come := d.removed, d.added;
      }
      ghost var t0 := State();
      ghost var first: seq<RouteOp> := [];
      if curLp.Some? {
        first := DnsOps(curLp.value, gone, false, ri);
        ModifyDnsRoutes(curLp.value, gone, false, ri, netd);
      }
      ghost var second: seq<RouteOp> := [];
      if newLp.Some? {
        second := DnsOps(newLp.value, come, true, ri);
        ModifyDnsRoutes(newLp.value, come, true, ri, netd);
      }
      ApplyOpsAppend(t0, first, second, ri, netd);
    }

    /** addRouteToAddress / removeRouteToAddress for each server in turn. */
    method ModifyDnsRoutes(lp: LinkProps, dnses: seq<Addr>, doAdd: bool, ri: RouteInfo, netd: Netd)
      modifies this
      ensures State() == ApplyOps(old(State()), DnsOps(lp, dnses, doAdd, ri), ri, netd)
    {
      var i := 0;
      ghost var ops := DnsOps(lp, dnses, doAdd, ri);
      while i < |dnses|
        invariant 0 <= i <= |dnses|
        invariant ApplyOps(old(State()), ops, ri, netd) == ApplyOps(State(), ops[i..], ri, netd)
      {
        var r := AddressRoute(lp, dnses[i], ri);
        var _ := ModifyRoute(lp.iface, Some(lp), Some(r), 0, doAdd, true, ri, netd);
        assert ops[i..][1..] == ops[i + 1..];
        i := i + 1;
      }
    }
  }
}
