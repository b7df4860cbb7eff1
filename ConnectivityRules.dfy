/**
 * The decisions the connectivity service takes from its tables: which
 * default network wins, which networks a failover wakes, which feature
 * users count as the same user, and which secondary network's servers a
 * process gets.
 */
module ConnectivityRules {
  import opened Wrappers
  import opened NetworkConfigs
  import opened PriorityList
  import opened DnsProperties

  /** The link properties a tracker reports: interface, DNS servers and search domain. */
  datatype Link = Link(iface: string, dnses: seq<string>, domain: string)

  /**
   * A network state tracker as the service sees it. The connection state and
   * the link come from the tracker; the service sets `teardownRequested`
   * and `failover`.
   */
  datatype Tracker = Tracker(
    connected: bool, connectedOrConnecting: bool, available: bool,
    teardownRequested: bool, failover: bool, link: Option<Link>)

  /** Calls the service makes on trackers. */
  datatype TrackerCall = TeardownCall(netType: int) | ReconnectCall(netType: int)

  /** A type whose configuration marks it as a default (internet) network. */
  predicate IsDefaultType(configs: ConfigTable, t: int)
  {
    Configured(configs, t) && configs[t].value.isDefault
  }

  // ------------------------------------------------------------ arbitration

  /**
   * isNewNetTypePreferredOverCurrentNetType: the newcomer loses when the
   * user's preferred network is the active one, or when the newcomer is not
   * the preferred network and the active one has the larger priority.
   */
  function NewTypePreferred(configs: ConfigTable, preference: int, active: int, t: int): bool
    requires Configured(configs, active) && Configured(configs, t)
  {
    !((t != preference && configs[active].value.priority > configs[t].value.priority) || preference == active)
  }

  /**
   * The arbitration against the priority list: with the preference on
   * neither network, a newcomer listed before the active network wins, and
   * one listed after it wins only on an equal priority.
   */
  lemma PreferredFollowsPriorityList(configs: ConfigTable, order: seq<int>, preference: int, i: int, j: int)
    requires Ordered(configs, order) && 0 <= i < |order| && 0 <= j < |order| && i != j
    requires preference != order[i] && preference != order[j]
    ensures j < i ==> NewTypePreferred(configs, preference, order[i], order[j])
    ensures i < j ==> (NewTypePreferred(configs, preference, order[i], order[j]) <==>
                       Priority(configs, order[i]) == Priority(configs, order[j]))
  {
    if j < i {
      assert Outranks(configs, order[j], order[i]);
    } else {
      assert Outranks(configs, order[i], order[j]);
    }
  }

  /** The preference decides first: it keeps an active preferred network and admits a preferred newcomer. */
  lemma PreferenceDecides(configs: ConfigTable, preference: int, active: int, t: int)
    requires Configured(configs, active) && Configured(configs, t)
    ensures preference == active ==> !NewTypePreferred(configs, preference, active, t)
    ensures preference == t && t != active ==> NewTypePreferred(configs, preference, active, t)
  {
  }

  /** A teardown request marks the tracker only when the tracker accepts it. */
  function AfterTeardown(trackers: seq<Option<Tracker>>, t: int, accepted: bool): (r: seq<Option<Tracker>>)
    requires 0 <= t < |trackers| && trackers[t].Some?
    ensures |r| == |trackers| && r[t].Some?
    ensures forall k :: 0 <= k < |r| && k != t ==> r[k] == trackers[k]
    ensures r[t].value.teardownRequested == (accepted || trackers[t].value.teardownRequested)
    ensures r[t] == Some(trackers[t].value.(teardownRequested := r[t].value.teardownRequested))
  {
    if accepted then WithTeardownRequested(trackers, t, true) else trackers
  }

  function WithTeardownRequested(trackers: seq<Option<Tracker>>, t: int, v: bool): seq<Option<Tracker>>
    requires 0 <= t < |trackers| && trackers[t].Some?
  {
    trackers[t := Some(trackers[t].value.(teardownRequested := v))]
  }

  // --------------------------------------------------------------- failover

  /**
   * A network a failover from `prev` wakes: another configured default
   * network with a tracker that is neither connected nor connecting, or
   * whose teardown was requested.
   */
  predicate FailoverCandidate(configs: ConfigTable, trackers: seq<Option<Tracker>>, prev: int, t: int)
  {
    t != prev && IsDefaultType(configs, t) && 0 <= t < |trackers| && trackers[t].Some?
    && (!trackers[t].value.connectedOrConnecting || trackers[t].value.teardownRequested)
  }

  /** The candidates among types 0..n-1, in increasing type order. */
  function FailoverTargets(configs: ConfigTable, trackers: seq<Option<Tracker>>, prev: int, n: nat): seq<int>
  {
    if n == 0 then []
    else
      var before := FailoverTargets(configs, trackers, prev, n - 1);
      if FailoverCandidate(configs, trackers, prev, n - 1) then before + [n - 1] else before
  }

  /** The targets are exactly the candidates among types 0..n-1, each once, in increasing order. */
  lemma {:induction false} FailoverTargetsExact(configs: ConfigTable, trackers: seq<Option<Tracker>>, prev: int, n: nat)
    ensures var r := FailoverTargets(configs, trackers, prev, n);
      && (forall t :: t in r <==> 0 <= t < n && FailoverCandidate(configs, trackers, prev, t))
      && (forall a, b :: 0 <= a < b < |r| ==> r[a] < r[b])
  {
    if n > 0 {
      FailoverTargetsExact(configs, trackers, prev, n - 1);
      var before := FailoverTargets(configs, trackers, prev, n - 1);
      assert forall a :: 0 <= a < |before| ==> before[a] in before;
    }
  }

  /** The trackers with the failover flag set on the given types. */
  function MarkFailover(trackers: seq<Option<Tracker>>, targets: seq<int>): (r: seq<Option<Tracker>>)
    ensures |r| == |trackers|
  {
    seq(|trackers|, k requires 0 <= k < |trackers| =>
      if k in targets && trackers[k].Some? then Some(trackers[k].value.(failover := true)) else trackers[k])
  }

  /** One reconnect call per target, in order. */
  function Reconnects(targets: seq<int>): (calls: seq<TrackerCall>)
    ensures |calls| == |targets| && forall k :: 0 <= k < |targets| ==> calls[k] == ReconnectCall(targets[k])
  {
    seq(|targets|, k requires 0 <= k < |targets| => ReconnectCall(targets[k]))
  }

  /** Flagging one more target updates that tracker only. */
  lemma MarkFailoverAppend(trackers: seq<Option<Tracker>>, targets: seq<int>, c: int)
    requires 0 <= c < |trackers| && trackers[c].Some? && c !in targets
    ensures MarkFailover(trackers, targets + [c])
         == MarkFailover(trackers, targets)[c := Some(trackers[c].value.(failover := true))]
  {
    var lhs := MarkFailover(trackers, targets + [c]);
    var rhs := MarkFailover(trackers, targets)[c := Some(trackers[c].value.(failover := true))];
    assert forall k :: 0 <= k < |lhs| ==> lhs[k] == rhs[k] by {
      forall k | 0 <= k < |lhs|
        ensures lhs[k] == rhs[k]
      {
        assert k in targets + [c] <==> k in targets || k == c;
      }
    }
  }

  lemma ReconnectsAppend(targets: seq<int>, c: int)
    ensures Reconnects(targets + [c]) == Reconnects(targets) + [ReconnectCall(c)]
  {
    assert forall k :: 0 <= k < |targets| ==> (targets + [c])[k] == targets[k];
  }

  /**
   * One more type scanned, seen from the trackers flagged so far: the type
   * is a candidate exactly when the scan's test holds of its (untouched)
   * tracker, and a candidate is flagged and asked to reconnect.
   */
  lemma FailoverStep(configs: ConfigTable, trackers: seq<Option<Tracker>>, prev: int, c: nat, cur: seq<Option<Tracker>>)
    requires c < |trackers| == |configs|
    requires cur == MarkFailover(trackers, FailoverTargets(configs, trackers, prev, c))
    ensures cur[c] == trackers[c]
    ensures FailoverCandidate(configs, trackers, prev, c) <==>
      (c != prev && configs[c].Some? && configs[c].value.isDefault && cur[c].Some?
       && (!cur[c].value.connectedOrConnecting || cur[c].value.teardownRequested))
    ensures var before := FailoverTargets(configs, trackers, prev, c);
      var after := FailoverTargets(configs, trackers, prev, c + 1);
      && (FailoverCandidate(configs, trackers, prev, c) ==>
            && MarkFailover(trackers, after) == cur[c := Some(cur[c].value.(failover := true))]
            && Reconnects(after) == Reconnects(before) + [ReconnectCall(c)])
      && (!FailoverCandidate(configs, trackers, prev, c) ==> after == before)
  {
    var before := FailoverTargets(configs, trackers, prev, c);
    FailoverTargetsExact(configs, trackers, prev, c);
    assert c !in before;
    if FailoverCandidate(configs, trackers, prev, c) {
      MarkFailoverAppend(trackers, before, c);
      ReconnectsAppend(before, c);
    }
  }

  /** A failover never wakes the network that went down, nor one that is up and not being torn down. */
  lemma FailoverSparesLiveNetworks(configs: ConfigTable, trackers: seq<Option<Tracker>>, prev: int, n: nat, t: int)
    requires 0 <= t < |trackers| && trackers[t].Some?
    requires t == prev || (trackers[t].value.connectedOrConnecting && !trackers[t].value.teardownRequested)
    ensures t !in FailoverTargets(configs, trackers, prev, n)
    ensures MarkFailover(trackers, FailoverTargets(configs, trackers, prev, n))[t] == trackers[t]
  {
    FailoverTargetsExact(configs, trackers, prev, n);
  }

  // ----------------------------------------------------------- feature users

  /** A feature request; `id` stands for the identity of the request object. */
  datatype FeatureUser = FeatureUser(id: nat, networkType: int, feature: Feature, pid: int, uid: int)

  /** Two requests come from the same user when pid, uid, type and feature agree. */
  predicate SameUser(u: FeatureUser, pid: int, uid: int, networkType: int, feature: Feature)
  {
    u.pid == pid && u.uid == uid && u.networkType == networkType && u.feature == feature
  }

  predicate IsSameUser(u: FeatureUser, v: FeatureUser)
  {
    SameUser(u, v.pid, v.uid, v.networkType, v.feature)
  }

  predicate HasSameUser(users: seq<FeatureUser>, v: FeatureUser)
  {
    exists k :: 0 <= k < |users| && IsSameUser(users[k], v)
  }

  /**
   * Registering a request: with a negative restore delay a request whose
   * user is already registered is not added again; otherwise it is appended.
   */
  function Register(users: seq<FeatureUser>, u: FeatureUser, restoreTimer: int): (r: seq<FeatureUser>)
    ensures restoreTimer < 0 && HasSameUser(users, u) ==> r == users
    ensures !(restoreTimer < 0 && HasSameUser(users, u)) ==> r == users + [u]
  {
    if restoreTimer < 0 && HasSameUser(users, u) then users else users + [u]
  }

  /** With a negative restore delay, a second start by the same user adds no entry. */
  lemma RepeatedStartAddsNothing(users: seq<FeatureUser>, u: FeatureUser, v: FeatureUser, restoreTimer: int)
    requires restoreTimer < 0 && IsSameUser(u, v)
    ensures Register(Register(users, u, restoreTimer), v, restoreTimer) == Register(users, u, restoreTimer)
  {
    var once := Register(users, u, restoreTimer);
    if once == users + [u] {
      assert IsSameUser(once[|users|], v);
    } else {
      var k :| 0 <= k < |users| && IsSameUser(users[k], u);
      assert IsSameUser(users[k], v);
    }
  }

  /** A pid joins a requester list once. */
  function AddPid(pids: seq<int>, pid: int): (r: seq<int>)
    ensures pid in pids ==> r == pids
    ensures pid !in pids ==> r == pids + [pid]
  {
    if pid in pids then pids else pids + [pid]
  }

  /** The list without the first occurrence of x (the whole list when x is absent). */
  function RemoveFirst<T(==)>(xs: seq<T>, x: T): (r: seq<T>)
    ensures multiset(r) == multiset(xs) - multiset{x}
    ensures x !in xs ==> r == xs
    ensures x in xs ==> |r| == |xs| - 1
  {
    if xs == [] then []
    else
      assert xs == [xs[0]] + xs[1..];
      if xs[0] == x then xs[1..]
      else [xs[0]] + RemoveFirst(xs[1..], x)
  }

  /** The first registered request of a user, as stopUsingNetworkFeature finds it. */
  function FirstSameUser(users: seq<FeatureUser>, pid: int, uid: int, networkType: int, feature: Feature): (r: Option<FeatureUser>)
    ensures r.None? <==> forall k :: 0 <= k < |users| ==> !SameUser(users[k], pid, uid, networkType, feature)
    ensures r.Some? ==> r.value in users && SameUser(r.value, pid, uid, networkType, feature)
  {
    if users == [] then None
    else if SameUser(users[0], pid, uid, networkType, feature) then Some(users[0])
    else
      var rest := FirstSameUser(users[1..], pid, uid, networkType, feature);
      assert forall k :: 1 <= k < |users| ==> users[k] == users[1..][k - 1];
      rest
  }

  // -------------------------------------------------------- per-process DNS

  /**
   * A secondary network that gives process pid its servers: not a default
   * network, connected, not being torn down, with link properties, and
   * requested by the process.
   */
  predicate Serves(configs: ConfigTable, trackers: seq<Option<Tracker>>, requesters: seq<seq<int>>, t: int, pid: int)
  {
    Configured(configs, t) && !configs[t].value.isDefault
    && t < |trackers| && trackers[t].Some? && trackers[t].value.connected && !trackers[t].value.teardownRequested
    && trackers[t].value.link.Some?
    && t < |requesters| && pid in requesters[t]
  }

  /** The first network of `order` that serves pid. */
  function ServingNetwork(configs: ConfigTable, trackers: seq<Option<Tracker>>, requesters: seq<seq<int>>,
                          order: seq<int>, pid: int): (r: Option<int>)
    ensures r.None? <==> forall k :: 0 <= k < |order| ==> !Serves(configs, trackers, requesters, order[k], pid)
    ensures r.Some? ==> exists k :: 0 <= k < |order| && order[k] == r.value
                          && Serves(configs, trackers, requesters, r.value, pid)
                          && forall m :: 0 <= m < k ==> !Serves(configs, trackers, requesters, order[m], pid)
  {
    if order == [] then None
    else if Serves(configs, trackers, requesters, order[0], pid) then Some(order[0])
    else
      var rest := ServingNetwork(configs, trackers, requesters, order[1..], pid);
      assert forall k :: 1 <= k < |order| ==> order[k] == order[1..][k - 1];
      if rest.Some? then
        var k :| 0 <= k < |order[1..]| && order[1..][k] == rest.value
                 && Serves(configs, trackers, requesters, rest.value, pid)
                 && forall m :: 0 <= m < k ==> !Serves(configs, trackers, requesters, order[1..][m], pid);
        assert order[k + 1] == rest.value;
        rest
      else rest
  }

  /**
   * reassessPidDns: the process gets the servers of the highest-priority
   * secondary network serving it; when none does, its slots are blanked up
   * to the first empty one.
   */
  function ReassessedDns(props: Props, configs: ConfigTable, trackers: seq<Option<Tracker>>,
                         requesters: seq<seq<int>>, order: seq<int>, pid: int): Props
  {
    match ServingNetwork(configs, trackers, requesters, order, pid)
    case Some(t) => WriteServers(props, trackers[t].value.link.value.dnses, Some(pid)).0
    case None => BlankServers(props, 1, FirstEmptySlot(props, pid, 1) - 1, Some(pid))
  }

  /** Reassessing each pid in turn. */
  function ReassessedAll(props: Props, configs: ConfigTable, trackers: seq<Option<Tracker>>,
                         requesters: seq<seq<int>>, order: seq<int>, pids: seq<int>): Props
  {
    if pids == [] then props
    else ReassessedDns(ReassessedAll(props, configs, trackers, requesters, order, pids[..|pids| - 1]),
                       configs, trackers, requesters, order, pids[|pids| - 1])
  }

  /**
   * After reassessment a process served by some secondary network has
   * exactly that network's servers in its slots; a process served by none
   * has no server left, and no other process's slots change.
   */
  lemma ReassessedSlots(props: Props, configs: ConfigTable, trackers: seq<Option<Tracker>>,
                        requesters: seq<seq<int>>, order: seq<int>, pid: int)
    ensures var r := ReassessedDns(props, configs, trackers, requesters, order, pid);
      && (forall k: PropKey :: !(k.DnsServer? && k.owner == Some(pid)) ==> Get(r, k) == Get(props, k))
      && (match ServingNetwork(configs, trackers, requesters, order, pid)
          case Some(t) =>
            var dnses := trackers[t].value.link.value.dnses;
            forall i :: 1 <= i <= |dnses| ==> Get(r, DnsServer(i, Some(pid))) == dnses[i - 1]
          case None =>
            forall i :: 1 <= i < FirstEmptySlot(props, pid, 1) ==> Get(r, DnsServer(i, Some(pid))) == "")
  {
    var r := ReassessedDns(props, configs, trackers, requesters, order, pid);
    forall k: PropKey | !(k.DnsServer? && k.owner == Some(pid)) ensures Get(r, k) == Get(props, k) {
      match ServingNetwork(configs, trackers, requesters, order, pid)
      case Some(t) =>
        assert !InSlots(k, Some(pid), |trackers[t].value.link.value.dnses|);
      case None =>
    }
  }
}
