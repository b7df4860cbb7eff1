/**
 * The DNS system properties the connectivity service writes: the global
 * server slots net.dns1, net.dns2, ..., the per-process slots
 * net.dns1.<pid>, net.dns2.<pid>, ..., the search domain and the change
 * counter the name resolver watches.
 */
module DnsProperties {
  import opened Wrappers

  /**
   * A property key: server slot `index` (from 1), global when `owner` is None
   * and of process `owner` otherwise, or the search domain.
   */
  datatype PropKey = DnsServer(index: nat, owner: Option<int>) | DnsSearch

  /** The system properties; a key never set reads as the empty string. */
  type Props = map<PropKey, string>

  function Get(props: Props, k: PropKey): string
  {
    if k in props then props[k] else ""
  }

  /** Whether k is one of the first n server slots of `owner`. */
  predicate InSlots(k: PropKey, owner: Option<int>, n: int)
  {
    k.DnsServer? && k.owner == owner && 1 <= k.index <= n
  }

  /** Whether some of slots 1..|dnses| of `owner` holds something other than its server. */
  predicate StaleSlots(props: Props, dnses: seq<string>, owner: Option<int>)
  {
    exists i :: 1 <= i <= |dnses| && Get(props, DnsServer(i, owner)) != dnses[i - 1]
  }

  /**
   * Writing the servers into slots 1..|dnses| of `owner`: a slot whose value
   * is already right is left alone until the first slot that differs; from
   * then on every slot is written. The flag says whether any slot differed.
   */
  function WriteServers(props: Props, dnses: seq<string>, owner: Option<int>): (r: (Props, bool))
    ensures forall i :: 1 <= i <= |dnses| ==> Get(r.0, DnsServer(i, owner)) == dnses[i - 1]
    ensures forall k: PropKey :: !InSlots(k, owner, |dnses|) ==> Get(r.0, k) == Get(props, k)
    ensures r.1 <==> StaleSlots(props, dnses, owner)
  {
    if dnses == [] then (props, false)
    else
      var prev := WriteServers(props, dnses[..|dnses| - 1], owner);
      var key := DnsServer(|dnses|, owner);
      var value := dnses[|dnses| - 1];
      if prev.1 || value != Get(prev.0, key) then (prev.0[key := value], true)
      else (prev.0, false)
  }

  /** Whether k is one of the first n server slots of a process in pids. */
  predicate AttachedSlot(k: PropKey, pids: seq<int>, n: int)
  {
    k.DnsServer? && k.owner.Some? && k.owner.value in pids && 1 <= k.index <= n
  }

  /** Blanking the server slots from..to of `owner`. */
  function BlankServers(props: Props, from: nat, to: int, owner: Option<int>): (p: Props)
    ensures forall i :: from <= i <= to ==> Get(p, DnsServer(i, owner)) == ""
    ensures forall k: PropKey :: (!(k.DnsServer? && k.owner == owner && from <= k.index <= to) ==> Get(p, k) == Get(props, k))
    decreases if to < from then 0 else to - from + 1
  {
    if to < from then props
    else BlankServers(props, from, to - 1, owner)[DnsServer(to, owner) := ""]
  }

  /** The global servers written: the default server alone when the list is empty and one exists. */
  function GlobalServers(dnses: seq<string>, defaultDns: Option<string>): seq<string>
  {
    if |dnses| == 0 && defaultDns.Some? then [defaultDns.value] else dnses
  }

  /**
   * Per-process servers for every process attached to a secondary network,
   * as written: each process's write overwrites the flag, so it reports
   * only whether the last process's slots changed. It writes what the
   * corrected loop writes, and reports a change only when that one does.
   */
  function AttachedPidDnsAsWritten(props: Props, dnses: seq<string>, pids: seq<int>): (r: (Props, bool))
    ensures r.0 == AttachedPidDns(props, dnses, pids).0
    ensures r.1 ==> AttachedPidDns(props, dnses, pids).1
  {
    if pids == [] then (props, false)
    else
      var prev := AttachedPidDnsAsWritten(props, dnses, pids[..|pids| - 1]);
      WriteServers(prev.0, dnses, Some(pids[|pids| - 1]))
  }

  /**
   * Per-process servers for every attached process, corrected: the flag
   * accumulates, so it says whether any attached process's slots changed.
   */
  function AttachedPidDns(props: Props, dnses: seq<string>, pids: seq<int>): (Props, bool)
  {
    if pids == [] then (props, false)
    else
      var prev := AttachedPidDns(props, dnses, pids[..|pids| - 1]);
      var last := WriteServers(prev.0, dnses, Some(pids[|pids| - 1]));
      (last.0, prev.1 || last.1)
  }

  /**
   * The corrected write puts the servers into every attached process's
   * slots, leaves every other key alone, and reports a change exactly when
   * some attached process's slot held something else.
   */
  lemma {:induction false} AttachedPidDnsExact(props: Props, dnses: seq<string>, pids: seq<int>)
    ensures forall j, i :: 0 <= j < |pids| && 1 <= i <= |dnses| ==>
      Get(AttachedPidDns(props, dnses, pids).0, DnsServer(i, Some(pids[j]))) == dnses[i - 1]
    ensures forall k: PropKey :: !AttachedSlot(k, pids, |dnses|) ==>
      Get(AttachedPidDns(props, dnses, pids).0, k) == Get(props, k)
    ensures AttachedPidDns(props, dnses, pids).1 <==> AnyStale(props, dnses, pids)
  {
    if pids != [] {
      var earlier := pids[..|pids| - 1];
      AttachedPidDnsExact(props, dnses, earlier);
      var prev := AttachedPidDns(props, dnses, earlier);
      var last := WriteServers(prev.0, dnses, Some(pids[|pids| - 1]));
      AttachedWritten(dnses, pids, earlier, prev.0, last.0);
      AttachedFrame(props, dnses, pids, prev.0, last.0);
      AnyStaleSnoc(props, dnses, pids);
      if pids[|pids| - 1] in earlier {
        RepeatedPidFlag(props, dnses, pids, prev.0);
      } else {
        NewPidFlag(props, dnses, earlier, prev.0, pids[|pids| - 1]);
      }
    }
  }

  lemma AttachedWritten(dnses: seq<string>, pids: seq<int>, earlier: seq<int>, before: Props, after: Props)
    requires pids != [] && earlier == pids[..|pids| - 1]
    requires forall j, i :: 0 <= j < |earlier| && 1 <= i <= |dnses| ==>
      Get(before, DnsServer(i, Some(earlier[j]))) == dnses[i - 1]
    requires after == WriteServers(before, dnses, Some(pids[|pids| - 1])).0
    ensures forall j, i :: 0 <= j < |pids| && 1 <= i <= |dnses| ==> Get(after, DnsServer(i, Some(pids[j]))) == dnses[i - 1]
  {
    var last := pids[|pids| - 1];
    forall j, i | 0 <= j < |pids| && 1 <= i <= |dnses|
      ensures Get(after, DnsServer(i, Some(pids[j]))) == dnses[i - 1]
    {
      if pids[j] != last {
        assert earlier[j] == pids[j];
        assert !InSlots(DnsServer(i, Some(pids[j])), Some(last), |dnses|);
      }
    }
  }

  lemma AttachedFrame(props: Props, dnses: seq<string>, pids: seq<int>, before: Props, after: Props)
    requires pids != []
    requires forall k: PropKey :: !AttachedSlot(k, pids[..|pids| - 1], |dnses|) ==> Get(before, k) == Get(props, k)
    requires after == WriteServers(before, dnses, Some(pids[|pids| - 1])).0
    ensures forall k: PropKey :: !AttachedSlot(k, pids, |dnses|) ==> Get(after, k) == Get(props, k)
  {
    forall k: PropKey | !AttachedSlot(k, pids, |dnses|)
      ensures Get(after, k) == Get(props, k)
    {
      assert !InSlots(k, Some(pids[|pids| - 1]), |dnses|);
    }
  }

  /** Whether the slots of some process in pids are stale. */
  predicate AnyStale(props: Props, dnses: seq<string>, pids: seq<int>)
  {
    exists j :: 0 <= j < |pids| && StaleSlots(props, dnses, Some(pids[j]))
  }

  lemma AnyStaleSnoc(props: Props, dnses: seq<string>, pids: seq<int>)
    requires pids != []
    ensures AnyStale(props, dnses, pids) <==>
      AnyStale(props, dnses, pids[..|pids| - 1]) || StaleSlots(props, dnses, Some(pids[|pids| - 1]))
  {
    var earlier := pids[..|pids| - 1];
    if AnyStale(props, dnses, pids) {
      var j :| 0 <= j < |pids| && StaleSlots(props, dnses, Some(pids[j]));
      if j < |pids| - 1 {
        assert earlier[j] == pids[j];
      }
    }
    if AnyStale(props, dnses, earlier) {
      var j :| 0 <= j < |earlier| && StaleSlots(props, dnses, Some(earlier[j]));
      assert pids[j] == earlier[j];
    }
  }

  /** A process written earlier in the list has no stale slots left, and its stale slots were already counted. */
  lemma RepeatedPidFlag(props: Props, dnses: seq<string>, pids: seq<int>, before: Props)
    requires pids != []
    requires forall j, i :: 0 <= j < |pids| - 1 && 1 <= i <= |dnses| ==> Get(before, DnsServer(i, Some(pids[j]))) == dnses[i - 1]
    requires pids[|pids| - 1] in pids[..|pids| - 1]
    ensures !StaleSlots(before, dnses, Some(pids[|pids| - 1]))
    ensures StaleSlots(props, dnses, Some(pids[|pids| - 1])) ==> AnyStale(props, dnses, pids[..|pids| - 1])
  {
    var earlier := pids[..|pids| - 1];
    var j :| 0 <= j < |earlier| && earlier[j] == pids[|pids| - 1];
    assert pids[j] == earlier[j];
  }

  /** A process not written before still has its original slots. */
  lemma NewPidFlag(props: Props, dnses: seq<string>, earlier: seq<int>, before: Props, p: int)
    requires forall k: PropKey :: !AttachedSlot(k, earlier, |dnses|) ==> Get(before, k) == Get(props, k)
    requires p !in earlier
    ensures StaleSlots(before, dnses, Some(p)) == StaleSlots(props, dnses, Some(p))
  {
    forall i | 1 <= i <= |dnses|
      ensures Get(before, DnsServer(i, Some(p))) == Get(props, DnsServer(i, Some(p)))
    {
      assert !AttachedSlot(DnsServer(i, Some(p)), earlier, |dnses|);
    }
  }

  /** Two processes, one DNS server: only process 2 already has it. */
  const STALE_FIRST: Props := map[DnsServer(1, Some(2)) := "10.0.0.1"]

  /**
   * Process 1's slot is written while process 2's is already right: the slots
   * change, yet the flag as written is false, so the resolver is not told.
   */
  lemma StaleFirstPidNotReported()
    ensures Get(AttachedPidDnsAsWritten(STALE_FIRST, ["10.0.0.1"], [1, 2]).0, DnsServer(1, Some(1))) == "10.0.0.1"
    ensures Get(STALE_FIRST, DnsServer(1, Some(1))) == ""
    ensures !AttachedPidDnsAsWritten(STALE_FIRST, ["10.0.0.1"], [1, 2]).1
    ensures AttachedPidDns(STALE_FIRST, ["10.0.0.1"], [1, 2]).1
  {
    var dnses := ["10.0.0.1"];
    assert [1, 2][..1] == [1];
    assert [1][..0] == [];
    var first := WriteServers(STALE_FIRST, dnses, Some(1));
    assert AttachedPidDnsAsWritten(STALE_FIRST, dnses, [1]) == first;
    assert Get(first.0, DnsServer(1, Some(2))) == "10.0.0.1";
    AttachedPidDnsExact(STALE_FIRST, dnses, [1, 2]);
    assert Get(STALE_FIRST, DnsServer(1, Some([1, 2][0]))) != dnses[0];
    assert StaleSlots(STALE_FIRST, dnses, Some([1, 2][0]));
  }

  /** Calls the service makes on the network daemon for DNS. */
  datatype DnsNetdCall =
    | SetDnsServersForInterface(iface: string, servers: seq<string>)
    | SetDefaultInterfaceForDns(iface: string)

  /** The outcome of a global DNS update. */
  datatype GlobalUpdate = GlobalUpdate(props: Props, numDnsEntries: nat, calls: seq<DnsNetdCall>, changed: bool)

  /**
   * updateDns: the servers (or the default server) go into the first global
   * slots, the slots after them up to the previous count are blanked, the
   * daemon learns the servers when any slot changed, and the search domain
   * is written when it differs.
   */
  function GlobalDnsUpdate(props: Props, numDnsEntries: nat, iface: string, dnses: seq<string>,
                           defaultDns: Option<string>, domains: string): GlobalUpdate
  {
    var servers := GlobalServers(dnses, defaultDns);
    var written := WriteServers(props, servers, None);
    var slotsChanged := written.1 || |servers| < numDnsEntries;
    var blanked := BlankServers(written.0, |servers| + 1, numDnsEntries, None);
    GlobalUpdate(
      if domains != Get(blanked, DnsSearch) then blanked[DnsSearch := domains] else blanked,
      |servers|,
      if slotsChanged then [SetDnsServersForInterface(iface, dnses), SetDefaultInterfaceForDns(iface)] else [],
      slotsChanged || domains != Get(props, DnsSearch))
  }

  /**
   * After a global update, slots 1..N hold the N servers (the default server
   * alone when none is given and one exists), the slots after them up to the
   * previous count are empty, the search domain is the given one, and the
   * count is N; no per-process slot changes.
   */
  lemma GlobalUpdateSlots(props: Props, numDnsEntries: nat, iface: string, dnses: seq<string>,
                          defaultDns: Option<string>, domains: string)
    ensures var u := GlobalDnsUpdate(props, numDnsEntries, iface, dnses, defaultDns, domains);
      var servers := GlobalServers(dnses, defaultDns);
      && u.numDnsEntries == |servers|
      && (forall i :: 1 <= i <= |servers| ==> Get(u.props, DnsServer(i, None)) == servers[i - 1])
      && (forall i :: |servers| < i <= numDnsEntries ==> Get(u.props, DnsServer(i, None)) == "")
      && Get(u.props, DnsSearch) == domains
      && (forall i, pid :: Get(u.props, DnsServer(i, Some(pid))) == Get(props, DnsServer(i, Some(pid))))
  {
    var servers := GlobalServers(dnses, defaultDns);
    var written := WriteServers(props, servers, None);
    var blanked := BlankServers(written.0, |servers| + 1, numDnsEntries, None);
    forall i, pid ensures Get(blanked, DnsServer(i, Some(pid))) == Get(props, DnsServer(i, Some(pid))) {
      assert !InSlots(DnsServer(i, Some(pid)), None, |servers|);
    }
  }

  /**
   * A global update reports a change exactly when some slot held a different
   * server, the previous count was larger, or the search domain differed;
   * the daemon is called exactly when a slot changed.
   */
  lemma GlobalUpdateChanged(props: Props, numDnsEntries: nat, iface: string, dnses: seq<string>,
                            defaultDns: Option<string>, domains: string)
    ensures var u := GlobalDnsUpdate(props, numDnsEntries, iface, dnses, defaultDns, domains);
      var servers := GlobalServers(dnses, defaultDns);
      var slotDiffers := exists i :: 1 <= i <= |servers| && Get(props, DnsServer(i, None)) != servers[i - 1];
      && (u.changed <==> slotDiffers || |servers| < numDnsEntries || Get(props, DnsSearch) != domains)
      && (u.calls != [] <==> slotDiffers || |servers| < numDnsEntries)
  {
  }

  /** Repeating a global update with the same servers changes nothing and reports no change. */
  lemma GlobalUpdateIdempotent(props: Props, numDnsEntries: nat, iface: string, dnses: seq<string>,
                               defaultDns: Option<string>, domains: string)
    ensures var u := GlobalDnsUpdate(props, numDnsEntries, iface, dnses, defaultDns, domains);
      var again := GlobalDnsUpdate(u.props, u.numDnsEntries, iface, dnses, defaultDns, domains);
      !again.changed && again.calls == [] && again.props == u.props && again.numDnsEntries == u.numDnsEntries
  {
    var u := GlobalDnsUpdate(props, numDnsEntries, iface, dnses, defaultDns, domains);
    var servers := GlobalServers(dnses, defaultDns);
    GlobalUpdateSlots(props, numDnsEntries, iface, dnses, defaultDns, domains);
    var w := WriteServers(u.props, servers, None);
    assert !w.1;
    WriteUnchanged(u.props, servers, None);
  }

  /** Writing servers that are already in place leaves the properties as they are. */
  lemma {:induction false} WriteUnchanged(props: Props, dnses: seq<string>, owner: Option<int>)
    requires forall i :: 1 <= i <= |dnses| ==> Get(props, DnsServer(i, owner)) == dnses[i - 1]
    ensures WriteServers(props, dnses, owner) == (props, false)
  {
    if dnses != [] {
      var init := dnses[..|dnses| - 1];
      WriteUnchanged(props, init, owner);
    }
  }

  /** The DNS properties, the number of global slots in use, and the calls sent to the daemon. */
  class DnsProperties {
    var props: Props
    /** The number of global server slots written by the last update. */
    var numDnsEntries: nat
    /** net.dnschange, the counter the resolver watches, as the number it spells. */
    var dnsChange: int
    /** DNS-cache clear broadcasts sent. */
    var cacheClears: nat
    var netd: seq<DnsNetdCall>

    constructor(initial: Props)
      ensures props == initial && numDnsEntries == 0 && dnsChange == 0 && cacheClears == 0 && netd == []
    {
      props := initial;
      numDnsEntries := 0;
      dnsChange := 0;
      cacheClears := 0;
      netd := [];
    }

    /** Tells the resolver to reread the servers: bumps the counter and clears DNS caches. */
    method BumpDns()
      modifies this`dnsChange, this`cacheClears
      ensures dnsChange == old(dnsChange) + 1 && cacheClears == old(cacheClears) + 1
    {
      dnsChange := dnsChange + 1;
      cacheClears := cacheClears + 1;
    }

    /** Writes `dnses` into the server slots of `owner`, from the first. */
    method WriteSlots(dnses: seq<string>, owner: Option<int>) returns (changed: bool)
      modifies this`props
      ensures (props, changed) == WriteServers(old(props), dnses, owner)
    {
      ghost var props0 := props;
      changed := false;
      var j := 1;
      while j <= |dnses|
        invariant 1 <= j <= |dnses| + 1
        invariant (props, changed) == WriteServers(props0, dnses[..j - 1], owner)
      {
        assert dnses[..j][..j - 1] == dnses[..j - 1];
        var key := DnsServer(j, owner);
        if changed || dnses[j - 1] != Get(props, key) {
          changed := true;
          props := props[key := dnses[j - 1]];
        }
        j := j + 1;
      }
      assert dnses[..j - 1] == dnses;
    }

    /** Blanks the global server slots from..to. */
    method BlankGlobalSlots(from: nat, to: int)
      modifies this`props
      ensures props == BlankServers(old(props), from, to, None)
    {
      var i := from;
      while i <= to
        invariant from <= i && (i <= to + 1 || i == from)
        invariant props == BlankServers(old(props), from, i - 1, None)
      {
        props := props[DnsServer(i, None) := ""];
        i := i + 1;
      }
    }

    /** Per-process servers: slots net.dns1.<pid> onwards hold `dnses`. */
    method WritePidDns(dnses: seq<string>, pid: int) returns (changed: bool)
      modifies this`props
      ensures (props, changed) == WriteServers(old(props), dnses, Some(pid))
    {
      changed := WriteSlots(dnses, Some(pid));
    }

    /**
     * The global servers: slots 1..N take the servers (or the default one),
     * slots N+1 up to the previous count are blanked, the count becomes N,
     * the daemon learns the servers when anything changed, and the search
     * domain is written when it differs.
     */
    method UpdateDns(iface: string, dnses: seq<string>, defaultDns: Option<string>, domains: string)
      returns (changed: bool)
      modifies this`props, this`numDnsEntries, this`netd
      ensures var u := GlobalDnsUpdate(old(props), old(numDnsEntries), iface, dnses, defaultDns, domains);
        props == u.props && numDnsEntries == u.numDnsEntries && netd == old(netd) + u.calls && changed == u.changed
    {
      var servers := GlobalServers(dnses, defaultDns);
      changed := WriteSlots(servers, None);
      var last := |servers|;
      BlankGlobalSlots(last + 1, numDnsEntries);
      changed := changed || last < numDnsEntries;
      numDnsEntries := last;
      if changed {
        netd := netd + [SetDnsServersForInterface(iface, dnses), SetDefaultInterfaceForDns(iface)];
      }
      assert Get(props, DnsSearch) == Get(old(props), DnsSearch);
      if domains != Get(props, DnsSearch) {
        props := props[DnsSearch := domains];
        changed := true;
      }
    }

    /**
     * Clears a process's slots: net.dns1.<pid>, net.dns2.<pid>, ... are
     * blanked up to the first one that is already empty. `cleared` is the
     * number blanked.
     */
    method ClearPidDns(pid: int) returns (cleared: nat)
      modifies this`props
      ensures cleared == FirstEmptySlot(old(props), pid, 1) - 1
      ensures props == BlankServers(old(props), 1, cleared, Some(pid))
    {
      var i := 1;
      while Get(props, DnsServer(i, Some(pid))) != ""
        invariant 1 <= i
        invariant props == BlankServers(old(props), 1, i - 1, Some(pid))
        invariant FirstEmptySlot(old(props), pid, 1) == FirstEmptySlot(old(props), pid, i)
        decreases |Pending(old(props), pid, i)|
      {
        PendingSkip(old(props), pid, i);
        props := props[DnsServer(i, Some(pid)) := ""];
        i := i + 1;
      }
      cleared := i - 1;
    }

    /** Servers for every process attached to a secondary network; the flag says whether any changed. */
    method WriteAttachedPidDns(dnses: seq<string>, pids: seq<int>) returns (changed: bool)
      modifies this`props
      ensures (props, changed) == AttachedPidDns(old(props), dnses, pids)
    {
      ghost var props0 := props;
      changed := false;
      var y := 0;
      while y < |pids|
        invariant 0 <= y <= |pids|
        invariant (props, changed) == AttachedPidDns(props0, dnses, pids[..y])
      {
        assert pids[..y + 1][..y] == pids[..y];
        var c := WritePidDns(dnses, pids[y]);
        changed := changed || c;
        y := y + 1;
      }
      assert pids[..y] == pids;
    }

    /** Records the servers of a secondary network's interface with the daemon. */
    method SetDnsServers(iface: string, dnses: seq<string>)
      modifies this`netd
      ensures netd == old(netd) + [SetDnsServersForInterface(iface, dnses)]
    {
      netd := netd + [SetDnsServersForInterface(iface, dnses)];
    }
  }

  /** The non-empty slots of process pid from slot i on. */
  function Pending(props: Props, pid: int, i: nat): set<PropKey>
  {
    set k | k in props.Keys && k.DnsServer? && k.owner == Some(pid) && k.index >= i && props[k] != ""
  }

  lemma PendingSkip(props: Props, pid: int, i: nat)
    requires Get(props, DnsServer(i, Some(pid))) != ""
    ensures |Pending(props, pid, i + 1)| < |Pending(props, pid, i)|
  {
    var key := DnsServer(i, Some(pid));
    assert key in Pending(props, pid, i);
    assert Pending(props, pid, i + 1) <= Pending(props, pid, i) - {key};
    SubsetCard(Pending(props, pid, i + 1), Pending(props, pid, i) - {key});
  }

  /** The first empty server slot of process pid from slot i on (a property never set reads as empty). */
  function FirstEmptySlot(props: Props, pid: int, i: nat): (n: nat)
    ensures i <= n && Get(props, DnsServer(n, Some(pid))) == ""
    ensures forall j :: i <= j < n ==> Get(props, DnsServer(j, Some(pid))) != ""
    decreases |Pending(props, pid, i)|
  {
    if Get(props, DnsServer(i, Some(pid))) == "" then i
    else
      PendingSkip(props, pid, i);
      FirstEmptySlot(props, pid, i + 1)
  }
}
