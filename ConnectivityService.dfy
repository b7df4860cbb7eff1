/**
 * The connectivity service's event handlers, one atomic method each (the
 * service's handler queue runs them one at a time): arbitration of the
 * active default network, failover, feature-request leases and their
 * requester lists, DNS reassessment, the internet-condition debounce and
 * the network-transition wakelock.
 */
module Connectivity {
  import opened Wrappers
  import opened NetworkConfigs
  import opened PriorityList
  import opened DnsProperties
  import opened ConnectivityRules

  /** Delayed messages the service posts to its own handler. */
  datatype Message =
    | InetConditionHoldEnd(netType: int, sequence: int, delay: int)
    | ClearTransitionWakelock(serial: int, delay: int)
    | RestoreDefaultNetwork(user: FeatureUser, delay: int)

  /** Results of startUsingNetworkFeature. */
  datatype StartResult = AlreadyActive | RequestStarted | TypeNotAvailable | RequestFailed | NotSupported

  /** The delay before the debounce hold ends: the setting when present, else the built-in default. */
  function HoldDelay(condition: int, upSetting: Option<int>, downSetting: Option<int>): (delay: int)
    ensures condition > 50 ==> delay == (if upSetting.Some? then upSetting.value else 500)
    ensures condition <= 50 ==> delay == (if downSetting.Some? then downSetting.value else 3000)
  {
    if condition > 50 then (if upSetting.Some? then upSetting.value else 500)
    else (if downSetting.Some? then downSetting.value else 3000)
  }

  /**
   * Why a feature request is refused before anything is registered: an
   * invalid or unconfigured type, lockdown, a metered network the caller
   * may not use, no tracker for the serving type, or a serving sub-type
   * that is not available (unless the feature insists on DUN).
   */
  function Refusal(configs: ConfigTable, ids: TypeIds, trackers: seq<Option<Tracker>>, lockdown: bool,
                   meteredRejected: bool, networkType: int, feature: Feature): (r: Option<StartResult>)
    requires IdsInRange(ids, |configs|) && |trackers| == |configs|
    ensures r.None? ==>
      && IsNetworkTypeValid(configs, networkType) && configs[networkType].Some? && !lockdown && !meteredRejected
      && trackers[ConvertFeatureToNetworkType(ids, networkType, feature)].Some?
    ensures r.Some? ==> r.value in {RequestFailed, TypeNotAvailable}
  {
    if !IsNetworkTypeValid(configs, networkType) || configs[networkType].None? then Some(RequestFailed)
    else if lockdown then Some(TypeNotAvailable)
    else if meteredRejected then Some(RequestFailed)
    else
      var used := ConvertFeatureToNetworkType(ids, networkType, feature);
      if trackers[used].None? then Some(TypeNotAvailable)
      else if used != networkType && !trackers[used].value.available && feature != EnableDunAlways then Some(TypeNotAvailable)
      else None
  }

  class ConnectivityService {
    const configs: ConfigTable
    /** The configured types, highest priority first. */
    const priorityList: seq<int>
    const ids: TypeIds
    const dns: DnsProperties

    var trackers: seq<Option<Tracker>>
    /** Per network type, the pids that asked for it through a feature request. */
    var requesters: seq<seq<int>>
    var featureUsers: seq<FeatureUser>
    /** The identity the next feature request gets. */
    var nextUserId: nat
    /** The active default network, -1 when there is none. */
    var activeDefault: int
    var networkPreference: int
    var lockdownEnabled: bool
    var dnsOverridden: bool
    var defaultDns: Option<string>
    var inetCondition: int
    var inetConditionPublished: int
    var inetConditionChangeInFlight: bool
    var connectionSequence: int
    var wakelockHeld: bool
    var wakelockSerial: int
    var wakelockCausedBy: string
    /** Every delayed message posted, in order. */
    var pending: seq<Message>
    /** Every teardown and reconnect asked of a tracker, in order. */
    var trackerCalls: seq<TrackerCall>

    /** What the constructor establishes about the constant tables. */
    ghost predicate Tables()
    {
      && WellTyped(configs)
      && (forall k :: 0 <= k < |priorityList| ==> Configured(configs, priorityList[k]))
      && IdsInRange(ids, |configs|)
    }

    /** One tracker slot per type, trackers only for configured types, and the active default has one. */
    ghost predicate TrackersValid()
      reads this`trackers, this`activeDefault
    {
      && |trackers| == |configs|
      && (forall t :: 0 <= t < |trackers| && trackers[t].Some? ==> Configured(configs, t))
      && (activeDefault == -1 || (IsDefaultType(configs, activeDefault) && trackers[activeDefault].Some?))
    }

    /** Every registered request has an identity below the next one handed out. */
    ghost predicate UsersValid()
      reads this`featureUsers, this`nextUserId
    {
      forall k :: 0 <= k < |featureUsers| ==> featureUsers[k].id < nextUserId
    }

    /** The constant tables hold, and there is one tracker slot and one requester list per type. */
    ghost predicate Shaped()
      reads this`trackers, this`requesters
    {
      Tables() && |trackers| == |configs| && |requesters| == |configs|
    }

    ghost predicate Valid()
      reads this`trackers, this`requesters, this`activeDefault, this`featureUsers, this`nextUserId
    {
      Tables() && TrackersValid() && |requesters| == |configs| && UsersValid()
    }

    /** Every secondary type of the priority list has a tracker (reassessment reads each one). */
    predicate SecondaryTrackersPresent()
      reads this`trackers
    {
      forall t :: t in priorityList && Configured(configs, t) && !configs[t].value.isDefault ==>
        0 <= t < |trackers| && trackers[t].Some?
    }

    /** The tracker of t is up and gives link properties. */
    predicate Live(t: int)
      reads this`trackers
      requires 0 <= t < |trackers|
    {
      trackers[t].Some? && trackers[t].value.connected && !trackers[t].value.teardownRequested
      && trackers[t].value.link.Some?
    }

    /**
     * Start-up: the priority list is built from the loaded configurations,
     * every configured type keeps the tracker created for it, and nothing
     * is active, requested or pending.
     */
    constructor(configs: ConfigTable, networksDefined: nat, ids: TypeIds, dns: DnsProperties,
                created: seq<Option<Tracker>>, preference: int, defaultDns: Option<string>)
      requires WellTyped(configs) && networksDefined == |Accepted(configs)| && IdsInRange(ids, |configs|)
      requires |created| == |configs|
      ensures Valid() && SecondaryTrackersPresent() == (forall t :: Configured(configs, t) && !configs[t].value.isDefault ==> created[t].Some?)
      ensures this.configs == configs && this.ids == ids && this.dns == dns
      ensures |priorityList| == networksDefined && Ordered(configs, priorityList)
      ensures forall t :: Configured(configs, t) <==> t in priorityList
      ensures forall t :: 0 <= t < |configs| ==> trackers[t] == (if configs[t].Some? then created[t] else None)
      ensures activeDefault == -1 && featureUsers == [] && pending == [] && trackerCalls == []
      ensures requesters == seq(|configs|, _ => [])
    {
      var order := BuildPriorityList(configs, networksDefined);
      this.configs := configs;
      this.ids := ids;
      this.dns := dns;
      priorityList := order;
      trackers := seq(|configs|, t requires 0 <= t < |configs| => if configs[t].Some? then created[t] else None);
      requesters := seq(|configs|, _ => []);
      featureUsers := [];
      nextUserId := 0;
      activeDefault := -1;
      networkPreference := preference;
      lockdownEnabled := false;
      dnsOverridden := false;
      this.defaultDns := defaultDns;
      inetCondition := 0;
      inetConditionPublished := 0;
      inetConditionChangeInFlight := false;
      connectionSequence := 0;
      wakelockHeld := false;
      wakelockSerial := 0;
      wakelockCausedBy := "";
      pending := [];
      trackerCalls := [];
    }

    /** Asks a tracker to tear down; only an accepted request is remembered on the tracker. */
    method Teardown(t: int, accepted: bool) returns (ok: bool)
      requires 0 <= t < |trackers| && trackers[t].Some?
      modifies this`trackers, this`trackerCalls
      ensures ok == accepted
      ensures trackers == AfterTeardown(old(trackers), t, accepted)
      ensures trackerCalls == old(trackerCalls) + [TeardownCall(t)]
    {
      trackerCalls := trackerCalls + [TeardownCall(t)];
      if accepted {
        trackers := trackers[t := Some(trackers[t].value.(teardownRequested := true))];
        return true;
      }
      return false;
    }

    /**
     * handleConnect. A default network arriving while another is active is
     * either refused (torn down, active default kept), or wins but the old one
     * declines teardown (the newcomer is torn down, active default kept), or takes
     * over: it becomes the active default, the published condition drops to
     * 0, the connection sequence advances and no debounce is in flight.
     */
    method HandleConnect(t: int, otherAccepts: bool, thisAccepts: bool)
      requires Valid() && 0 <= t < |trackers| && trackers[t].Some?
      modifies this`trackers, this`trackerCalls, this`activeDefault, this`inetConditionPublished,
               this`connectionSequence, this`inetConditionChangeInFlight, this`pending
      ensures Valid()
      ensures !configs[t].value.isDefault ==>
        && trackers == WithTeardownRequested(old(trackers), t, false) && trackerCalls == old(trackerCalls)
        && activeDefault == old(activeDefault) && inetConditionPublished == old(inetConditionPublished)
        && connectionSequence == old(connectionSequence) && inetConditionChangeInFlight == old(inetConditionChangeInFlight)
        && pending == old(pending)
      ensures var active := old(activeDefault);
        configs[t].value.isDefault && active != -1 && active != t ==>
        if !NewTypePreferred(configs, networkPreference, active, t) then
          && trackers == AfterTeardown(old(trackers), t, thisAccepts)
          && trackerCalls == old(trackerCalls) + [TeardownCall(t)]
          && activeDefault == active && inetConditionPublished == old(inetConditionPublished)
          && connectionSequence == old(connectionSequence) && pending == old(pending)
        else if !otherAccepts then
          && trackers == AfterTeardown(old(trackers), t, thisAccepts)
          && trackerCalls == old(trackerCalls) + [TeardownCall(active), TeardownCall(t)]
          && activeDefault == active && inetConditionPublished == old(inetConditionPublished)
          && connectionSequence == old(connectionSequence) && pending == old(pending)
        else
          && trackers == WithTeardownRequested(AfterTeardown(old(trackers), active, true), t, false)
          && trackerCalls == old(trackerCalls) + [TeardownCall(active)]
          && activeDefault == t
      ensures var active := old(activeDefault);
        configs[t].value.isDefault && (active == -1 || active == t) ==>
          && trackers == WithTeardownRequested(old(trackers), t, false)
          && trackerCalls == old(trackerCalls)
          && activeDefault == t
      ensures configs[t].value.isDefault && activeDefault == t ==>
        && inetConditionPublished == 0 && connectionSequence == old(connectionSequence) + 1
        && !inetConditionChangeInFlight
        && pending == old(pending) + (if wakelockHeld then [ClearTransitionWakelock(wakelockSerial, 1000)] else [])
    {
      if configs[t].value.isDefault {
        if activeDefault != -1 && activeDefault != t {
          var won := Contest(t, otherAccepts, thisAccepts);
          if !won {
            return;
          }
        }
        TakeOver(t);
      }
      trackers := WithTeardownRequested(trackers, t, false);
    }

    /**
     * A default network t arrives while another one is active: when t is
     * not preferred it is torn down; when it is, the active one is asked to
     * tear down, and if that is declined t is torn down instead. `won` says
     * whether t may take over.
     */
    method Contest(t: int, otherAccepts: bool, thisAccepts: bool) returns (won: bool)
      requires IsDefaultType(configs, t) && IsDefaultType(configs, activeDefault) && activeDefault != t
      requires |trackers| == |configs| && trackers[t].Some? && trackers[activeDefault].Some?
      modifies this`trackers, this`trackerCalls
      ensures won == (NewTypePreferred(configs, networkPreference, activeDefault, t) && otherAccepts)
      ensures !NewTypePreferred(configs, networkPreference, activeDefault, t) ==>
        trackers == AfterTeardown(old(trackers), t, thisAccepts) && trackerCalls == old(trackerCalls) + [TeardownCall(t)]
      ensures NewTypePreferred(configs, networkPreference, activeDefault, t) && !otherAccepts ==>
        && trackers == AfterTeardown(old(trackers), t, thisAccepts)
        && trackerCalls == old(trackerCalls) + [TeardownCall(activeDefault), TeardownCall(t)]
      ensures won ==>
        trackers == AfterTeardown(old(trackers), activeDefault, true) && trackerCalls == old(trackerCalls) + [TeardownCall(activeDefault)]
    {
      if NewTypePreferred(configs, networkPreference, activeDefault, t) {
        won := Teardown(activeDefault, otherAccepts);
        if !won {
          var _ := Teardown(t, thisAccepts);
        }
      } else {
        won := false;
        var _ := Teardown(t, thisAccepts);
      }
    }

    /**
     * t becomes the active default network: the published condition drops
     * to 0, the connection sequence advances, no debounce is in flight, and
     * a held transition wakelock is released a second later.
     */
    method TakeOver(t: int)
      modifies this`activeDefault, this`inetConditionPublished, this`connectionSequence,
               this`inetConditionChangeInFlight, this`pending
      ensures activeDefault == t && inetConditionPublished == 0 && connectionSequence == old(connectionSequence) + 1
      ensures !inetConditionChangeInFlight
      ensures pending == old(pending) + (if wakelockHeld then [ClearTransitionWakelock(wakelockSerial, 1000)] else [])
    {
      if wakelockHeld {
        pending := pending + [ClearTransitionWakelock(wakelockSerial, 1000)];
      }
      activeDefault := t;
      inetConditionPublished := 0;
      connectionSequence := connectionSequence + 1;
      inetConditionChangeInFlight := false;
    }

    /**
     * tryFailover: when the lost network is a default one, the active
     * default is cleared if it was that network, and every failover candidate is
     * flagged as a failover and asked to reconnect, in type order; nothing
     * else changes.
     */
    method TryFailover(prev: int)
      requires Valid() && Configured(configs, prev)
      modifies this`trackers, this`trackerCalls, this`activeDefault
      ensures Valid()
      ensures var targets := FailoverTargets(configs, old(trackers), prev, |configs|);
        if configs[prev].value.isDefault then
          && activeDefault == (if old(activeDefault) == prev then -1 else old(activeDefault))
          && trackers == MarkFailover(old(trackers), targets)
          && trackerCalls == old(trackerCalls) + Reconnects(targets)
        else
          activeDefault == old(activeDefault) && trackers == old(trackers) && trackerCalls == old(trackerCalls)
    {
      if configs[prev].value.isDefault {
        if activeDefault == prev {
          activeDefault := -1;
        }
        FlagFailover(prev);
      }
    }

    /** The scan of tryFailover: every candidate, in type order, is flagged and asked to reconnect. */
    method FlagFailover(prev: int)
      requires |trackers| == |configs|
      modifies this`trackers, this`trackerCalls
      ensures var targets := FailoverTargets(configs, old(trackers), prev, |configs|);
        trackers == MarkFailover(old(trackers), targets) && trackerCalls == old(trackerCalls) + Reconnects(targets)
    {
      ghost var t0 := trackers;
      var checkType := 0;
      while checkType < |configs|
        invariant 0 <= checkType <= |configs|
        invariant trackers == MarkFailover(t0, FailoverTargets(configs, t0, prev, checkType))
        invariant trackerCalls == old(trackerCalls) + Reconnects(FailoverTargets(configs, t0, prev, checkType))
      {
        trackers, trackerCalls := FailoverSlot(configs, t0, prev, checkType, trackers, old(trackerCalls), trackerCalls);
        checkType := checkType + 1;
      }
    }

    /** One pass of failover's loop: type c is flagged and reconnected when it is a candidate. */
    static method FailoverSlot(configs: ConfigTable, ghost t0: seq<Option<Tracker>>, prev: int, c: nat,
                               ts: seq<Option<Tracker>>, ghost base: seq<TrackerCall>, calls: seq<TrackerCall>)
      returns (ts': seq<Option<Tracker>>, calls': seq<TrackerCall>)
      requires c < |t0| == |configs|
      requires ts == MarkFailover(t0, FailoverTargets(configs, t0, prev, c))
      requires calls == base + Reconnects(FailoverTargets(configs, t0, prev, c))
      ensures ts' == MarkFailover(t0, FailoverTargets(configs, t0, prev, c + 1))
      ensures calls' == base + Reconnects(FailoverTargets(configs, t0, prev, c + 1))
    {
      FailoverStep(configs, t0, prev, c, ts);
      ts', calls' := ts, calls;
      if c != prev && configs[c].Some? && configs[c].value.isDefault && ts[c].Some? {
        var tracker := ts[c].value;
        if !tracker.connectedOrConnecting || tracker.teardownRequested {
          ts' := ts[c := Some(tracker.(failover := true))];
          calls' := calls + [ReconnectCall(c)];
        }
      }
    }

    /**
     * reassessPidDns: the process gets the servers of the highest-priority
     * secondary network it requested that is up; with none, its slots are
     * cleared. The resolver is told when `doBump` says so.
     */
    method ReassessPidDns(pid: int, doBump: bool)
      requires Shaped() && SecondaryTrackersPresent()
      modifies dns`props, dns`dnsChange, dns`cacheClears
      ensures dns.props == ReassessedDns(old(dns.props), configs, trackers, requesters, priorityList, pid)
      ensures dns.dnsChange == old(dns.dnsChange) + (if doBump then 1 else 0)
      ensures dns.cacheClears == old(dns.cacheClears) + (if doBump then 1 else 0)
    {
      var idx := 0;
      while idx < |priorityList|
        invariant 0 <= idx <= |priorityList|
        invariant ServingNetwork(configs, trackers, requesters, priorityList, pid)
               == ServingNetwork(configs, trackers, requesters, priorityList[idx..], pid)
        invariant dns.props == old(dns.props) && dns.dnsChange == old(dns.dnsChange) && dns.cacheClears == old(dns.cacheClears)
      {
        var i := priorityList[idx];
        assert priorityList[idx..][0] == i && priorityList[idx..][1..] == priorityList[idx + 1..];
        assert i in priorityList;
        if !configs[i].value.isDefault {
          var nt := trackers[i].value;
          if nt.connected && !nt.teardownRequested && nt.link.Some? {
            var requested := Contains(requesters[i], pid);
            if requested {
              assert Serves(configs, trackers, requesters, i, pid);
              var _ := dns.WritePidDns(nt.link.value.dnses, pid);
              if doBump {
                dns.BumpDns();
              }
              return;
            }
          }
        }
        idx := idx + 1;
      }
      var _ := dns.ClearPidDns(pid);
      if doBump {
        dns.BumpDns();
      }
    }

    /** Whether the pid is in a requester list. */
    static method Contains(pids: seq<int>, pid: int) returns (found: bool)
      ensures found <==> pid in pids
    {
      var j := 0;
      while j < |pids|
        invariant 0 <= j <= |pids|
        invariant pid !in pids[..j]
      {
        if pids[j] == pid {
          return true;
        }
        assert pids[..j + 1] == pids[..j] + [pids[j]];
        j := j + 1;
      }
      assert pids[..j] == pids;
      return false;
    }

    /** Reassesses each pid of the list, without telling the resolver. */
    method ReassessAll(pids: seq<int>)
      requires Shaped() && SecondaryTrackersPresent()
      modifies dns`props, dns`dnsChange, dns`cacheClears
      ensures dns.props == ReassessedAll(old(dns.props), configs, trackers, requesters, priorityList, pids)
      ensures dns.dnsChange == old(dns.dnsChange) && dns.cacheClears == old(dns.cacheClears)
    {
      var i := 0;
      while i < |pids|
        invariant 0 <= i <= |pids|
        invariant dns.props == ReassessedAll(old(dns.props), configs, trackers, requesters, priorityList, pids[..i])
        invariant dns.dnsChange == old(dns.dnsChange) && dns.cacheClears == old(dns.cacheClears)
      {
        assert pids[..i + 1][..i] == pids[..i];
        ReassessPidDns(pids[i], false);
        i := i + 1;
      }
      assert pids[..i] == pids;
    }

    /**
     * handleDisconnect: the tracker's teardown request is forgotten; for a
     * secondary network the per-process servers of its requesters are
     * reassessed; for a default network a failover runs, and with no
     * default left the published condition drops to 0.
     */
    method HandleDisconnect(t: int)
      requires Valid() && SecondaryTrackersPresent() && 0 <= t < |trackers| && trackers[t].Some?
      modifies this`trackers, this`trackerCalls, this`activeDefault, this`inetConditionPublished,
               dns`props, dns`dnsChange, dns`cacheClears
      ensures Valid()
      ensures var cleared := WithTeardownRequested(old(trackers), t, false);
        if configs[t].value.isDefault then
          var targets := FailoverTargets(configs, cleared, t, |configs|);
          && trackers == MarkFailover(cleared, targets)
          && trackerCalls == old(trackerCalls) + Reconnects(targets)
          && activeDefault == (if old(activeDefault) == t then -1 else old(activeDefault))
          && inetConditionPublished == (if activeDefault == -1 then 0 else old(inetConditionPublished))
          && dns.props == old(dns.props)
        else
          && trackers == cleared && trackerCalls == old(trackerCalls)
          && activeDefault == old(activeDefault) && inetConditionPublished == old(inetConditionPublished)
          && dns.props == ReassessedAll(old(dns.props), configs, cleared, requesters, priorityList, requesters[t])
      ensures dns.dnsChange == old(dns.dnsChange) && dns.cacheClears == old(dns.cacheClears)
    {
      trackers := trackers[t := Some(trackers[t].value.(teardownRequested := false))];
      if !configs[t].value.isDefault {
        ReassessAll(requesters[t]);
      }
      if configs[t].value.isDefault {
        TryFailover(t);
        if activeDefault == -1 {
          inetConditionPublished := 0;
        }
      }
    }

    /**
     * handleConnectionFailure: the tracker's teardown request is forgotten;
     * for a default network a failover runs, and with no default left the
     * published condition drops to 0.
     */
    method HandleConnectionFailure(t: int)
      requires Valid() && 0 <= t < |trackers| && trackers[t].Some?
      modifies this`trackers, this`trackerCalls, this`activeDefault, this`inetConditionPublished
      ensures Valid()
      ensures var cleared := WithTeardownRequested(old(trackers), t, false);
        if configs[t].value.isDefault then
          var targets := FailoverTargets(configs, cleared, t, |configs|);
          && trackers == MarkFailover(cleared, targets)
          && trackerCalls == old(trackerCalls) + Reconnects(targets)
          && activeDefault == (if old(activeDefault) == t then -1 else old(activeDefault))
          && inetConditionPublished == (if activeDefault == -1 then 0 else old(inetConditionPublished))
        else
          && trackers == cleared && trackerCalls == old(trackerCalls)
          && activeDefault == old(activeDefault) && inetConditionPublished == old(inetConditionPublished)
    {
      trackers := trackers[t := Some(trackers[t].value.(teardownRequested := false))];
      if configs[t].value.isDefault {
        TryFailover(t);
        if activeDefault == -1 {
          inetConditionPublished := 0;
        }
      }
    }

    /** What handleDnsConfigurationChange does to the DNS properties, from the state before it. */
    twostate predicate DnsReconfigured(t: int)
      reads this, dns
      requires Valid() && 0 <= t < |trackers|
    {
      if !Live(t) || (configs[t].value.isDefault && dnsOverridden) then
        unchanged(dns)
      else
        var l := trackers[t].value.link.value;
        if configs[t].value.isDefault then
          var u := GlobalDnsUpdate(old(dns.props), old(dns.numDnsEntries), l.iface, l.dnses, defaultDns, l.domain);
          && dns.props == u.props && dns.numDnsEntries == u.numDnsEntries && dns.netd == old(dns.netd) + u.calls
          && dns.dnsChange == old(dns.dnsChange) + (if u.changed then 1 else 0)
          && dns.cacheClears == old(dns.cacheClears) + (if u.changed then 1 else 0)
        else
          var w := AttachedPidDns(old(dns.props), l.dnses, requesters[t]);
          && dns.props == w.0 && dns.numDnsEntries == old(dns.numDnsEntries)
          && dns.netd == old(dns.netd) + [SetDnsServersForInterface(l.iface, l.dnses)]
          && dns.dnsChange == old(dns.dnsChange) + (if w.1 then 1 else 0)
          && dns.cacheClears == old(dns.cacheClears) + (if w.1 then 1 else 0)
    }

    /**
     * handleDnsConfigurationChange: for a live default network (unless DNS
     * is overridden) the global slots are updated; for a live secondary
     * network the daemon learns its servers and every requester gets them
     * in its per-process slots; the resolver is told when anything changed.
     */
    method HandleDnsConfigurationChange(t: int)
      requires Valid() && 0 <= t < |trackers|
      modifies dns`props, dns`numDnsEntries, dns`netd, dns`dnsChange, dns`cacheClears
      ensures DnsReconfigured(t)
    {
      if trackers[t].Some? && trackers[t].value.connected && !trackers[t].value.teardownRequested {
        if trackers[t].value.link.None? {
          return;
        }
        var l := trackers[t].value.link.value;
        var changed := false;
        if configs[t].value.isDefault {
          if !dnsOverridden {
            changed := dns.UpdateDns(l.iface, l.dnses, defaultDns, l.domain);
          }
        } else {
          dns.SetDnsServers(l.iface, l.dnses);
          changed := dns.WriteAttachedPidDns(l.dnses, requesters[t]);
        }
        if changed {
          dns.BumpDns();
        }
      }
    }

    /**
     * startUsingNetworkFeature. A refused request changes nothing. A request
     * served by its own type is remembered and answered as unsupported. A
     * request for a sub-type registers the user (once, when no restore
     * delay applies), adds the caller's pid to the sub-type's requesters,
     * arms the restore message when the delay is not negative, and then
     * reports the sub-type already active (refreshing its DNS), connecting,
     * or asks it to reconnect.
     */
    method StartUsingNetworkFeature(networkType: int, feature: Feature, pid: int, uid: int,
                                    restoreProperty: Option<int>, meteredRejected: bool) returns (result: StartResult)
      requires Valid()
      modifies this`featureUsers, this`nextUserId, this`requesters, this`pending, this`trackerCalls,
               dns`props, dns`numDnsEntries, dns`netd, dns`dnsChange, dns`cacheClears
      ensures Valid()
      ensures var refusal := Refusal(configs, ids, trackers, lockdownEnabled, meteredRejected, networkType, feature);
        refusal.Some? ==>
          && result == refusal.value && featureUsers == old(featureUsers) && requesters == old(requesters)
          && pending == old(pending) && trackerCalls == old(trackerCalls) && unchanged(dns)
      ensures var refusal := Refusal(configs, ids, trackers, lockdownEnabled, meteredRejected, networkType, feature);
        var used := ConvertFeatureToNetworkType(ids, networkType, feature);
        var u := FeatureUser(old(nextUserId), networkType, feature, pid, uid);
        refusal.None? && used == networkType ==>
          && result == NotSupported && featureUsers == old(featureUsers) + [u]
          && requesters == old(requesters)[used := AddPid(old(requesters)[used], pid)]
          && pending == old(pending) && trackerCalls == old(trackerCalls) && unchanged(dns)
      ensures var refusal := Refusal(configs, ids, trackers, lockdownEnabled, meteredRejected, networkType, feature);
        var used := ConvertFeatureToNetworkType(ids, networkType, feature);
        var u := FeatureUser(old(nextUserId), networkType, feature, pid, uid);
        refusal.None? && used != networkType ==>
          var timer := RestoreDefaultNetworkDelay(restoreProperty, configs, used);
          && featureUsers == Register(old(featureUsers), u, timer)
          && requesters == old(requesters)[used := AddPid(old(requesters)[used], pid)]
          && pending == old(pending) + (if timer >= 0 then [RestoreDefaultNetwork(u, timer)] else [])
          && var tracker := trackers[used].value;
          if tracker.connectedOrConnecting && !tracker.teardownRequested then
            && trackerCalls == old(trackerCalls)
            && (tracker.connected ==> result == AlreadyActive && DnsReconfigured(used))
            && (!tracker.connected ==> result == RequestStarted && unchanged(dns))
          else
            result == RequestStarted && trackerCalls == old(trackerCalls) + [ReconnectCall(used)] && unchanged(dns)
    {
      if !IsNetworkTypeValid(configs, networkType) || configs[networkType].None? {
        return RequestFailed;
      }
      var f := FeatureUser(nextUserId, networkType, feature, pid, uid);
      nextUserId := nextUserId + 1;
      var used := ConvertFeatureToNetworkType(ids, networkType, feature);
      if lockdownEnabled {
        return TypeNotAvailable;
      }
      if meteredRejected {
        return RequestFailed;
      }
      if trackers[used].None? {
        return TypeNotAvailable;
      }
      var network := trackers[used].value;
      if used != networkType {
        if !network.available && feature != EnableDunAlways {
          return TypeNotAvailable;
        }
        var restoreTimer := RestoreDefaultNetworkDelay(restoreProperty, configs, used);
        result := Admit(f, used, restoreTimer);
      } else {
        featureUsers := featureUsers + [f];
        requesters := requesters[used := AddPid(requesters[used], pid)];
        return NotSupported;
      }
    }

    /** A request for a sub-type is registered, then the sub-type is activated. */
    method Admit(f: FeatureUser, used: int, restoreTimer: int) returns (result: StartResult)
      requires Valid() && f.id < nextUserId && 0 <= used < |trackers| && trackers[used].Some?
      modifies this`featureUsers, this`requesters, this`pending, this`trackerCalls,
               dns`props, dns`numDnsEntries, dns`netd, dns`dnsChange, dns`cacheClears
      ensures Valid()
      ensures featureUsers == Register(old(featureUsers), f, restoreTimer)
      ensures requesters == old(requesters)[used := AddPid(old(requesters)[used], f.pid)]
      ensures pending == old(pending) + (if restoreTimer >= 0 then [RestoreDefaultNetwork(f, restoreTimer)] else [])
      ensures var tracker := trackers[used].value;
        if tracker.connectedOrConnecting && !tracker.teardownRequested then
          && trackerCalls == old(trackerCalls)
          && (tracker.connected ==> result == AlreadyActive && DnsReconfigured(used))
          && (!tracker.connected ==> result == RequestStarted && unchanged(dns))
        else
          result == RequestStarted && trackerCalls == old(trackerCalls) + [ReconnectCall(used)] && unchanged(dns)
    {
      AddRequest(f, used, restoreTimer);
      result := Activate(used);
    }

    /**
     * The sub-type serving a feature request: already connected (its DNS is
     * refreshed), connecting, or asked to reconnect.
     */
    method Activate(used: int) returns (result: StartResult)
      requires Valid() && 0 <= used < |trackers| && trackers[used].Some?
      modifies this`trackerCalls, dns`props, dns`numDnsEntries, dns`netd, dns`dnsChange, dns`cacheClears
      ensures var tracker := trackers[used].value;
        if tracker.connectedOrConnecting && !tracker.teardownRequested then
          && trackerCalls == old(trackerCalls)
          && (tracker.connected ==> result == AlreadyActive && DnsReconfigured(used))
          && (!tracker.connected ==> result == RequestStarted && unchanged(dns))
        else
          result == RequestStarted && trackerCalls == old(trackerCalls) + [ReconnectCall(used)] && unchanged(dns)
    {
      var network := trackers[used].value;
      if network.connectedOrConnecting && !network.teardownRequested {
        if network.connected {
          HandleDnsConfigurationChange(used);
          return AlreadyActive;
        }
        return RequestStarted;
      }
      trackerCalls := trackerCalls + [ReconnectCall(used)];
      return RequestStarted;
    }

    /**
     * Registers a feature request for a sub-type: the user (unless a
     * negative delay finds it registered already), the pid among the
     * sub-type's requesters, and the restore message when the delay is not
     * negative.
     */
    method AddRequest(f: FeatureUser, used: int, restoreTimer: int)
      requires 0 <= used < |requesters|
      modifies this`featureUsers, this`requesters, this`pending
      ensures featureUsers == Register(old(featureUsers), f, restoreTimer)
      ensures requesters == old(requesters)[used := AddPid(old(requesters)[used], f.pid)]
      ensures pending == old(pending) + (if restoreTimer >= 0 then [RestoreDefaultNetwork(f, restoreTimer)] else [])
    {
      var addToList := true;
      if restoreTimer < 0 {
        var found := ScanSameUser(f);
        addToList := !found;
      }
      if addToList {
        featureUsers := featureUsers + [f];
      }
      requesters := requesters[used := AddPid(requesters[used], f.pid)];
      if restoreTimer >= 0 {
        pending := pending + [RestoreDefaultNetwork(f, restoreTimer)];
      }
    }

    /** Whether a registered request comes from the same user as v. */
    method ScanSameUser(v: FeatureUser) returns (found: bool)
      ensures found == HasSameUser(featureUsers, v)
    {
      var k := 0;
      while k < |featureUsers|
        invariant 0 <= k <= |featureUsers|
        invariant forall m :: 0 <= m < k ==> !IsSameUser(featureUsers[m], v)
      {
        if IsSameUser(featureUsers[k], v) {
          return true;
        }
        k := k + 1;
      }
      return false;
    }

    /**
     * What stopping request u leaves behind, between the state before and
     * after: an invalid type gives -1 and an unregistered request 1, both
     * without effect. Otherwise the first occurrence of u is dropped; when
     * duplicates count and the user has another request, or the request is
     * served by its own type or by a type without tracker, nothing else
     * changes (1 for the duplicate, -1 otherwise). For a sub-type the pid
     * leaves the requester list once, the pid's DNS slots are reassessed,
     * net.dnschange is bumped with a resolver flush, and the tracker is torn
     * down exactly when no requester is left (1).
     */
    twostate predicate Stopped(u: FeatureUser, ignoreDups: bool, r: int)
      reads this, dns
    {
      if !IsNetworkTypeValid(configs, u.networkType) || u !in old(featureUsers) then
        && r == (if !IsNetworkTypeValid(configs, u.networkType) then -1 else 1)
        && featureUsers == old(featureUsers) && requesters == old(requesters) && trackerCalls == old(trackerCalls)
        && dns.props == old(dns.props) && dns.dnsChange == old(dns.dnsChange) && dns.cacheClears == old(dns.cacheClears)
      else
        && featureUsers == RemoveFirst(old(featureUsers), u)
        && var dup := !ignoreDups && HasSameUser(featureUsers, u);
        var used := ConvertFeatureToNetworkType(ids, u.networkType, u.feature);
        if dup || !(0 <= used < |trackers| && used < |old(requesters)|) || trackers[used].None? || used == u.networkType then
          && r == (if dup then 1 else -1)
          && requesters == old(requesters) && trackerCalls == old(trackerCalls)
          && dns.props == old(dns.props) && dns.dnsChange == old(dns.dnsChange) && dns.cacheClears == old(dns.cacheClears)
        else
          var left := RemoveFirst(old(requesters)[used], u.pid);
          && r == 1
          && requesters == old(requesters)[used := left]
          && dns.props == ReassessedDns(old(dns.props), configs, trackers, requesters, priorityList, u.pid)
          && dns.dnsChange == old(dns.dnsChange) + 1 && dns.cacheClears == old(dns.cacheClears) + 1
          && trackerCalls == old(trackerCalls) + (if left == [] then [TeardownCall(used)] else [])
    }

    /**
     * The private stop of one feature request. An invalid type gives -1 and
     * a request no longer registered gives 1, both without effect. Otherwise
     * the request is dropped; when duplicates count and the user has another
     * request, that is all (1). For a sub-type the pid leaves the requester
     * list once, its DNS is reassessed, and the tracker is torn down exactly
     * when no requester is left (1); a request served by its own type or
     * one without tracker gives -1.
     */
    method Stop(u: FeatureUser, ignoreDups: bool) returns (r: int)
      requires Valid() && SecondaryTrackersPresent()
      modifies this`featureUsers, this`requesters, this`trackerCalls, dns`props, dns`dnsChange, dns`cacheClears
      ensures Valid()
      ensures Stopped(u, ignoreDups, r)
    {
      if !IsNetworkTypeValid(configs, u.networkType) {
        return -1;
      }
      if u !in featureUsers {
        return 1;
      }
      DropUser(u);
      r := ReleaseUse(u, ignoreDups);
    }

    /** The first registered occurrence of u is removed. */
    method DropUser(u: FeatureUser)
      requires UsersValid()
      modifies this`featureUsers
      ensures UsersValid()
      ensures featureUsers == RemoveFirst(old(featureUsers), u)
    {
      featureUsers := RemoveFirst(featureUsers, u);
      forall k | 0 <= k < |featureUsers|
        ensures featureUsers[k].id < nextUserId
      {
        assert featureUsers[k] in multiset(featureUsers);
        assert featureUsers[k] in old(featureUsers);
      }
    }

    /**
     * What stopping a dropped request releases: nothing when duplicates
     * count and the user has another request (1); for a sub-type with a
     * tracker the requester entry (1); otherwise nothing (-1).
     */
    method ReleaseUse(u: FeatureUser, ignoreDups: bool) returns (r: int)
      requires Valid() && SecondaryTrackersPresent() && IsNetworkTypeValid(configs, u.networkType)
      modifies this`requesters, this`trackerCalls, dns`props, dns`dnsChange, dns`cacheClears
      ensures Valid()
      ensures var dup := !ignoreDups && HasSameUser(featureUsers, u);
        var used := ConvertFeatureToNetworkType(ids, u.networkType, u.feature);
        if dup || trackers[used].None? || used == u.networkType then
          && r == (if dup then 1 else -1)
          && requesters == old(requesters) && trackerCalls == old(trackerCalls)
          && dns.props == old(dns.props) && dns.dnsChange == old(dns.dnsChange) && dns.cacheClears == old(dns.cacheClears)
        else
          var left := RemoveFirst(old(requesters)[used], u.pid);
          && r == 1
          && requesters == old(requesters)[used := left]
          && dns.props == ReassessedDns(old(dns.props), configs, trackers, requesters, priorityList, u.pid)
          && dns.dnsChange == old(dns.dnsChange) + 1 && dns.cacheClears == old(dns.cacheClears) + 1
          && trackerCalls == old(trackerCalls) + (if left == [] then [TeardownCall(used)] else [])
    {
      if !ignoreDups {
        var dup := ScanSameUser(u);
        if dup {
          return 1;
        }
      }
      var used := ConvertFeatureToNetworkType(ids, u.networkType, u.feature);
      if trackers[used].None? {
        return -1;
      }
      if used != u.networkType {
        ReleaseRequester(u.pid, used);
        return 1;
      }
      return -1;
    }

    /**
     * The pid leaves the requester list of `used` once, its DNS is
     * reassessed and the resolver told, and the tracker is torn down when
     * no requester is left.
     */
    method ReleaseRequester(pid: int, used: int)
      requires Shaped() && SecondaryTrackersPresent() && 0 <= used < |requesters|
      modifies this`requesters, this`trackerCalls, dns`props, dns`dnsChange, dns`cacheClears
      ensures var left := RemoveFirst(old(requesters)[used], pid);
        && requesters == old(requesters)[used := left]
        && trackerCalls == old(trackerCalls) + (if left == [] then [TeardownCall(used)] else [])
      ensures dns.props == ReassessedDns(old(dns.props), configs, trackers, requesters, priorityList, pid)
      ensures dns.dnsChange == old(dns.dnsChange) + 1 && dns.cacheClears == old(dns.cacheClears) + 1
    {
      var left := RemoveFirst(requesters[used], pid);
      requesters := requesters[used := left];
      if left == [] {
        trackerCalls := trackerCalls + [TeardownCall(used)];
      }
      ReassessPidDns(pid, true);
    }

    /**
     * stopUsingNetworkFeature: the caller's first matching request is
     * stopped regardless of duplicates; with no match nothing changes and
     * the answer is 1.
     */
    method StopUsingNetworkFeature(networkType: int, feature: Feature, pid: int, uid: int) returns (r: int)
      requires Valid() && SecondaryTrackersPresent()
      modifies this`featureUsers, this`requesters, this`trackerCalls, dns`props, dns`dnsChange, dns`cacheClears
      ensures Valid()
      ensures var found := FirstSameUser(old(featureUsers), pid, uid, networkType, feature);
        found.None? ==>
          && r == 1 && featureUsers == old(featureUsers) && requesters == old(requesters)
          && trackerCalls == old(trackerCalls) && dns.props == old(dns.props) && dns.dnsChange == old(dns.dnsChange)
          && dns.cacheClears == old(dns.cacheClears)
      ensures var found := FirstSameUser(old(featureUsers), pid, uid, networkType, feature);
        found.Some? ==> Stopped(found.value, true, r)
    {
      var k := 0;
      while k < |featureUsers|
        invariant 0 <= k <= |featureUsers|
        invariant forall m :: 0 <= m < k ==> !SameUser(featureUsers[m], pid, uid, networkType, feature)
      {
        if SameUser(featureUsers[k], pid, uid, networkType, feature) {
          FirstSameUserAt(featureUsers, pid, uid, networkType, feature, k);
          r := Stop(featureUsers[k], true);
          return;
        }
        k := k + 1;
      }
      return 1;
    }

    /**
     * The restore-default-network message: the request expires like a stop
     * that counts duplicates, so a user with another request keeps the
     * network.
     */
    method ExpireFeatureUser(u: FeatureUser) returns (r: int)
      requires Valid() && SecondaryTrackersPresent()
      modifies this`featureUsers, this`requesters, this`trackerCalls, dns`props, dns`dnsChange, dns`cacheClears
      ensures Valid()
      ensures Stopped(u, false, r)
    {
      r := Stop(u, false);
    }

    /**
     * handleInetConditionChange: a report about anything but the active
     * default network is ignored; otherwise the condition is recorded and,
     * unless a hold is already in flight, one hold is armed for the current
     * connection sequence.
     */
    method HandleInetConditionChange(netType: int, condition: int, upSetting: Option<int>, downSetting: Option<int>)
      modifies this`inetCondition, this`inetConditionChangeInFlight, this`pending
      ensures activeDefault == -1 || activeDefault != netType ==>
        && inetCondition == old(inetCondition) && inetConditionChangeInFlight == old(inetConditionChangeInFlight)
        && pending == old(pending)
      ensures activeDefault != -1 && activeDefault == netType ==>
        && inetCondition == condition && inetConditionChangeInFlight
        && pending == old(pending) + (if old(inetConditionChangeInFlight) then []
             else [InetConditionHoldEnd(activeDefault, connectionSequence, HoldDelay(condition, upSetting, downSetting))])
    {
      if activeDefault == -1 {
        return;
      }
      if activeDefault != netType {
        return;
      }
      inetCondition := condition;
      if !inetConditionChangeInFlight {
        var delay := HoldDelay(inetCondition, upSetting, downSetting);
        inetConditionChangeInFlight := true;
        pending := pending + [InetConditionHoldEnd(activeDefault, connectionSequence, delay)];
      }
    }

    /**
     * handleInetConditionHoldEnd: the hold is over; the recorded condition
     * is published only when a default network is active, the hold belongs
     * to the current connection sequence and the network is connected.
     */
    method HandleInetConditionHoldEnd(netType: int, sequence: int)
      requires Valid()
      modifies this`inetConditionChangeInFlight, this`inetConditionPublished
      ensures !inetConditionChangeInFlight
      ensures inetConditionPublished ==
        if activeDefault != -1 && connectionSequence == sequence && trackers[activeDefault].value.connected
        then inetCondition else old(inetConditionPublished)
    {
      inetConditionChangeInFlight := false;
      if activeDefault == -1 {
        return;
      }
      if connectionSequence != sequence {
        return;
      }
      if !trackers[activeDefault].value.connected {
        return;
      }
      inetConditionPublished := inetCondition;
    }

    /**
     * requestNetworkTransitionWakelock: while the lock is held nothing
     * happens; otherwise it is taken under a new serial number and a
     * release is scheduled for that serial after the timeout.
     */
    method RequestNetworkTransitionWakelock(forWhom: string, timeout: int)
      modifies this`wakelockHeld, this`wakelockSerial, this`wakelockCausedBy, this`pending
      ensures old(wakelockHeld) ==>
        && wakelockHeld && wakelockSerial == old(wakelockSerial)
        && wakelockCausedBy == old(wakelockCausedBy) && pending == old(pending)
      ensures !old(wakelockHeld) ==>
        && wakelockHeld && wakelockSerial == old(wakelockSerial) + 1
        && wakelockCausedBy == forWhom && pending == old(pending) + [ClearTransitionWakelock(wakelockSerial, timeout)]
    {
      if wakelockHeld {
        return;
      }
      wakelockSerial := wakelockSerial + 1;
      wakelockHeld := true;
      wakelockCausedBy := forWhom;
      pending := pending + [ClearTransitionWakelock(wakelockSerial, timeout)];
    }

    /**
     * The clear-wakelock message releases the lock only when it carries the
     * current serial number; `releasedFor` names who took it, when released.
     */
    method HandleClearWakelock(serial: int) returns (releasedFor: Option<string>)
      modifies this`wakelockHeld
      ensures serial == wakelockSerial && old(wakelockHeld) ==> !wakelockHeld && releasedFor == Some(wakelockCausedBy)
      ensures !(serial == wakelockSerial && old(wakelockHeld)) ==> wakelockHeld == old(wakelockHeld) && releasedFor.None?
    {
      releasedFor := None;
      if serial == wakelockSerial && wakelockHeld {
        wakelockHeld := false;
        releasedFor := Some(wakelockCausedBy);
      }
    }
  }

  lemma FirstSameUserAt(users: seq<FeatureUser>, pid: int, uid: int, networkType: int, feature: Feature, k: int)
    requires 0 <= k < |users| && SameUser(users[k], pid, uid, networkType, feature)
    requires forall m :: 0 <= m < k ==> !SameUser(users[m], pid, uid, networkType, feature)
    ensures FirstSameUser(users, pid, uid, networkType, feature) == Some(users[k])
    decreases k
  {
    if k > 0 {
      FirstSameUserAt(users[1..], pid, uid, networkType, feature, k - 1);
    }
  }
}
