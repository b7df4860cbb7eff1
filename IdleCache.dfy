/**
 * The HTTP idle-connection cache: a fixed number of slots, each holding a host,
 * the idle connection to it and the time at which it expires, together with a
 * counter of the occupied slots.
 */
module HttpIdleCache {
  import opened Wrappers

  /** A cached connection lives six seconds. */
  const TIMEOUT: int := 6000

  type Host = string

  /** A connection as the cache sees it: an identity and its TCP pre-connect flag. */
  datatype Connection = Connection(id: nat, tcpPreConnect: bool)

  /** One slot; a slot is free when its host is null. The timeout survives vacating. */
  datatype Entry = Entry(host: Option<Host>, connection: Option<Connection>, timeout: int)
  {
    predicate Occupied() { host.Some? }
    /** Both references are set together and cleared together. */
    predicate WellFormed() { host.Some? <==> connection.Some? }
    function Vacated(): Entry { Entry(None, None, timeout) }
  }

  /** Which occupied slots a sweep vacates: all of them, or the idle ones at a given time. */
  datatype Sweep = All | IdleAt(now: int)

  predicate Doomed(e: Entry, sweep: Sweep)
  {
    e.Occupied() && e.connection.Some? &&
    match sweep
    case All => true
    case IdleAt(now) => now > e.timeout && !e.connection.value.tcpPreConnect
  }

  /** Number of occupied slots. */
  function Live(s: seq<Entry>): (n: nat)
    ensures n <= |s|
  {
    if s == [] then 0 else Live(s[..|s| - 1]) + (if s[|s| - 1].Occupied() then 1 else 0)
  }

  /** Lowest free slot, or |s| when every slot is taken. */
  function FirstFree(s: seq<Entry>): (k: nat)
    ensures k <= |s|
    ensures k < |s| ==> !s[k].Occupied()
    ensures forall j :: 0 <= j < k ==> s[j].Occupied()
  {
    if s == [] || !s[0].Occupied() then 0 else 1 + FirstFree(s[1..])
  }

  /** Lowest slot cached for host h, or |s| when there is none. */
  function FindHost(s: seq<Entry>, h: Host): (k: nat)
    ensures k <= |s|
    ensures k < |s| ==> s[k].host == Some(h)
    ensures forall j :: 0 <= j < k ==> s[j].host != Some(h)
  {
    if s == [] || s[0].host == Some(h) then 0 else 1 + FindHost(s[1..], h)
  }

  /** The connections a sweep closes, in slot order. */
  function Closed(s: seq<Entry>, sweep: Sweep): seq<Connection>
  {
    if s == [] then []
    else Closed(s[..|s| - 1], sweep)
         + (if Doomed(s[|s| - 1], sweep) then [s[|s| - 1].connection.value] else [])
  }

  /** The slots after a sweep. */
  function Swept(e: Entry, sweep: Sweep): Entry
  {
    if Doomed(e, sweep) then e.Vacated() else e
  }

  lemma {:induction false} LiveUpdate(s: seq<Entry>, k: nat, e: Entry)
    requires k < |s|
    ensures Live(s[k := e]) + (if s[k].Occupied() then 1 else 0)
         == Live(s) + (if e.Occupied() then 1 else 0)
  {
    if k < |s| - 1 {
      assert s[k := e][..|s| - 1] == s[..|s| - 1][k := e];
      LiveUpdate(s[..|s| - 1], k, e);
    } else {
      assert s[k := e][..|s| - 1] == s[..|s| - 1];
    }
  }

  lemma {:induction false} LiveZeroAllFree(s: seq<Entry>)
    requires Live(s) == 0
    ensures forall j :: 0 <= j < |s| ==> !s[j].Occupied()
  {
    if s != [] {
      LiveZeroAllFree(s[..|s| - 1]);
      assert forall j :: 0 <= j < |s| - 1 ==> s[j] == s[..|s| - 1][j];
    }
  }

  lemma {:induction false} LiveFull(s: seq<Entry>)
    requires Live(s) == |s|
    ensures forall j :: 0 <= j < |s| ==> s[j].Occupied()
  {
    if s != [] {
      LiveFull(s[..|s| - 1]);
      assert forall j :: 0 <= j < |s| - 1 ==> s[j] == s[..|s| - 1][j];
    }
  }

  lemma {:induction false} LiveAllOccupied(s: seq<Entry>)
    requires forall j :: 0 <= j < |s| ==> s[j].Occupied()
    ensures Live(s) == |s|
  {
    if s != [] {
      assert forall j :: 0 <= j < |s| - 1 ==> s[..|s| - 1][j] == s[j];
      LiveAllOccupied(s[..|s| - 1]);
    }
  }

  /** There is a free slot exactly when fewer slots are occupied than exist. */
  lemma FreeSlotExists(s: seq<Entry>)
    ensures FirstFree(s) < |s| <==> Live(s) < |s|
  {
    if Live(s) == |s| {
      LiveFull(s);
    } else if FirstFree(s) == |s| {
      LiveAllOccupied(s);
    }
  }

  /**
   * The cache's promise to its callers: after a connection c is cached for h
   * (in the lowest free slot), the next lookup for h finds a slot no later than
   * that one: an older slot for h if one exists, otherwise the slot holding c.
   */
  lemma CachedIsFound(s: seq<Entry>, h: Host, c: Connection, t: int)
    requires FirstFree(s) < |s|
    ensures var k := FirstFree(s);
      var j := FindHost(s[k := Entry(Some(h), Some(c), t)], h);
      j <= k && (j < k ==> j == FindHost(s, h)) &&
      (j == k ==> s[k := Entry(Some(h), Some(c), t)][j].connection == Some(c))
  {
    var k := FirstFree(s);
    var s' := s[k := Entry(Some(h), Some(c), t)];
    assert s'[k].host == Some(h);
    if FindHost(s', h) < k {
      FindHostPrefix(s, s', h, k);
    }
  }

  /** Two slot sequences that agree below k agree on a lookup that ends below k. */
  lemma {:induction false} FindHostPrefix(s: seq<Entry>, s': seq<Entry>, h: Host, k: nat)
    requires k <= |s| && k <= |s'|
    requires forall j :: 0 <= j < k ==> s[j] == s'[j]
    requires FindHost(s', h) < k
    ensures FindHost(s, h) == FindHost(s', h)
  {
    if s[0].host != Some(h) {
      assert forall j :: 0 <= j < k - 1 ==> s[1..][j] == s[j + 1] && s'[1..][j] == s'[j + 1];
      FindHostPrefix(s[1..], s'[1..], h, k - 1);
    }
  }

  class IdleCache {
    /** IDLE_CACHE_MAX, read once from a system property (default 8). */
    const capacity: nat
    var entries: array<Entry>
    var count: int
    /** Connections closed by the cache, in order (closeConnection is a foreign effect). */
    var closedLog: seq<Connection>

    ghost predicate Valid()
      reads this, entries
    {
      entries.Length == capacity &&
      (forall j :: 0 <= j < entries.Length ==> entries[j].WellFormed()) &&
      count == Live(entries[..])
    }

    constructor (maxEntries: nat)
      ensures Valid() && fresh(entries)
      ensures capacity == maxEntries && count == 0 && closedLog == []
      ensures forall j :: 0 <= j < capacity ==> !entries[j].Occupied()
    {
      capacity := maxEntries;
      entries := new Entry[maxEntries](_ => Entry(None, None, 0));
      count := 0;
      closedLog := [];
      new;
      LiveZeroOfFree(entries[..]);
    }

    static lemma {:induction false} LiveZeroOfFree(s: seq<Entry>)
      requires forall j :: 0 <= j < |s| ==> !s[j].Occupied()
      ensures Live(s) == 0
    {
      if s != [] {
        assert forall j :: 0 <= j < |s| - 1 ==> s[..|s| - 1][j] == s[j];
        LiveZeroOfFree(s[..|s| - 1]);
      }
    }

    /**
     * Caches a connection in the lowest free slot when there is room, with an
     * expiry of now + TIMEOUT; returns whether it was cached.
     */
    method CacheConnection(host: Host, connection: Connection, now: int) returns (cached: bool)
      requires Valid()
      modifies entries, this`count
      ensures Valid()
      ensures cached <==> old(count) < capacity
      ensures cached <==> FirstFree(old(entries[..])) < capacity
      ensures cached ==> (count == old(count) + 1 &&
        entries[..] == old(entries[..])[FirstFree(old(entries[..])) := Entry(Some(host), Some(connection), now + TIMEOUT)])
      ensures !cached ==> count == old(count) && entries[..] == old(entries[..])
    {
      cached := false;
      FreeSlotExists(entries[..]);
      if count < capacity {
        var i := 0;
        while i < capacity
          invariant 0 <= i <= capacity
          invariant entries[..] == old(entries[..]) && count == old(count)
          invariant forall j :: 0 <= j < i ==> entries[j].Occupied()
          invariant i <= FirstFree(entries[..])
        {
          if !entries[i].Occupied() {
            ghost var before := entries[..];
            LiveUpdate(before, i, Entry(Some(host), Some(connection), now + TIMEOUT));
            entries[i] := Entry(Some(host), Some(connection), now + TIMEOUT);
            count := count + 1;
            cached := true;
            return;
          }
          i := i + 1;
        }
      }
    }

    /**
     * Takes the connection cached for host out of the lowest matching slot,
     * vacating only that slot; null when no slot matches.
     */
    method GetConnection(host: Host) returns (connection: Option<Connection>)
      requires Valid()
      modifies entries, this`count
      ensures Valid()
      ensures var k := FindHost(old(entries[..]), host);
        if k < capacity then
          connection == old(entries[k].connection) && connection.Some? &&
          count == old(count) - 1 && entries[..] == old(entries[..])[k := old(entries[k]).Vacated()]
        else
          connection == None && count == old(count) && entries[..] == old(entries[..])
    {
      connection := None;
      if count > 0 {
        var i := 0;
        while i < capacity
          invariant 0 <= i <= capacity
          invariant entries[..] == old(entries[..]) && count == old(count)
          invariant i <= FindHost(entries[..], host)
        {
          if entries[i].host == Some(host) {
            connection := entries[i].connection;
            ghost var before := entries[..];
            LiveUpdate(before, i, entries[i].Vacated());
            entries[i] := entries[i].Vacated();
            count := count - 1;
            return;
          }
          i := i + 1;
        }
      } else {
        LiveZeroAllFree(entries[..]);
        FindHostAbsent(entries[..], host);
      }
    }

    static lemma {:induction false} FindHostAbsent(s: seq<Entry>, h: Host)
      requires forall j :: 0 <= j < |s| ==> !s[j].Occupied()
      ensures FindHost(s, h) == |s|
    {
      if s != [] {
        assert forall j :: 0 <= j < |s| - 1 ==> s[1..][j] == s[j + 1];
        FindHostAbsent(s[1..], h);
      }
    }

    /**
     * Vacates every slot the sweep dooms, closing its connection; the loop
     * stops early once the count reaches zero, as the source's loop does.
     */
    method SweepSlots(sweep: Sweep)
      requires Valid()
      modifies entries, this`count, this`closedLog
      ensures Valid()
      ensures forall j :: 0 <= j < capacity ==> entries[j] == Swept(old(entries[j]), sweep)
      ensures closedLog == old(closedLog) + Closed(old(entries[..]), sweep)
    {
      ghost var e0, log0 := entries[..], closedLog;
      var i := 0;
      while count > 0 && i < capacity
        invariant 0 <= i <= capacity
        invariant forall j :: 0 <= j < i ==> entries[j] == Swept(e0[j], sweep)
        invariant forall j :: i <= j < capacity ==> entries[j] == e0[j]
        invariant forall j :: 0 <= j < capacity ==> entries[j].WellFormed()
        invariant count == Live(entries[..])
        invariant closedLog == log0 + Closed(e0[..i], sweep)
        decreases capacity - i
      {
        SweepSlot(i, sweep, e0, log0);
        i := i + 1;
      }
      if i < capacity {
        LiveZeroAllFree(entries[..]);
        ClosedOfUntouched(e0, i, sweep);
      } else {
        assert e0[..i] == e0;
      }
    }

    /** One visit of the sweep: slot i is closed and vacated when the sweep dooms it. */
    method SweepSlot(i: nat, sweep: Sweep, ghost e0: seq<Entry>, ghost log0: seq<Connection>)
      requires entries.Length == capacity == |e0| && i < capacity
      requires forall j :: 0 <= j < i ==> entries[j] == Swept(e0[j], sweep)
      requires forall j :: i <= j < capacity ==> entries[j] == e0[j]
      requires forall j :: 0 <= j < capacity ==> entries[j].WellFormed()
      requires count == Live(entries[..])
      requires closedLog == log0 + Closed(e0[..i], sweep)
      modifies entries, this`count, this`closedLog
      ensures forall j :: 0 <= j < i + 1 ==> entries[j] == Swept(e0[j], sweep)
      ensures forall j :: i + 1 <= j < capacity ==> entries[j] == e0[j]
      ensures forall j :: 0 <= j < capacity ==> entries[j].WellFormed()
      ensures count == Live(entries[..])
      ensures closedLog == log0 + Closed(e0[..i + 1], sweep)
    {
      var e := entries[i];
      ghost var before := entries[..];
      assert e0[..i + 1][..i] == e0[..i];
      if Doomed(e, sweep) {
        LiveUpdate(before, i, e.Vacated());
        entries[i] := e.Vacated();
        closedLog := closedLog + [e.connection.value];
        count := count - 1;
      }
    }

    /** Once the remaining slots are all free, the sweep closes nothing more. */
    static lemma {:induction false} ClosedOfUntouched(s: seq<Entry>, i: nat, sweep: Sweep)
      requires i <= |s|
      requires forall j :: i <= j < |s| ==> !s[j].Occupied()
      ensures Closed(s, sweep) == Closed(s[..i], sweep)
    {
      if i < |s| {
        assert s[..|s| - 1][..i] == s[..i];
        ClosedOfUntouched(s[..|s| - 1], i, sweep);
      } else {
        assert s[..i] == s;
      }
    }

    /** clear: vacates every slot and closes each cached connection. */
    method Clear()
      requires Valid()
      modifies entries, this`count, this`closedLog
      ensures Valid() && count == 0
      ensures forall j :: 0 <= j < capacity ==> !entries[j].Occupied()
      ensures closedLog == old(closedLog) + Closed(old(entries[..]), All)
    {
      SweepSlots(All);
      LiveZeroOfFree(entries[..]);
    }

    /** clearTcpConnections: drops the pre-connect mark of every cached connection; vacates nothing. */
    method ClearTcpConnections()
      requires Valid()
      modifies entries
      ensures Valid()
      ensures forall j :: 0 <= j < capacity ==>
        entries[j] == (if old(entries[j]).Occupied()
                       then old(entries[j]).(connection := Some(old(entries[j]).connection.value.(tcpPreConnect := false)))
                       else old(entries[j]))
    {
      var i := 0;
      while i < capacity
        invariant 0 <= i <= capacity
        invariant forall j :: 0 <= j < i ==>
          entries[j] == (if old(entries[j]).Occupied()
                         then old(entries[j]).(connection := Some(old(entries[j]).connection.value.(tcpPreConnect := false)))
                         else old(entries[j]))
        invariant forall j :: i <= j < capacity ==> entries[j] == old(entries[j])
        invariant forall j :: 0 <= j < capacity ==> entries[j].WellFormed()
        invariant Live(entries[..]) == Live(old(entries[..]))
      {
        var e := entries[i];
        if e.Occupied() && e.connection.value.tcpPreConnect {
          ghost var before := entries[..];
          var e' := e.(connection := Some(e.connection.value.(tcpPreConnect := false)));
          LiveUpdate(before, i, e');
          entries[i] := e';
        }
        i := i + 1;
      }
    }

    /**
     * clearIdle: at time now, vacates exactly the occupied slots whose
     * timeout has passed and whose connection is not TCP-preconnected.
     */
    method ClearIdle(now: int)
      requires Valid()
      modifies entries, this`count, this`closedLog
      ensures Valid()
      ensures forall j :: 0 <= j < capacity ==>
        entries[j] == (if old(entries[j]).Occupied() && now > old(entries[j]).timeout
                          && !old(entries[j]).connection.value.tcpPreConnect
                       then old(entries[j]).Vacated() else old(entries[j]))
      ensures closedLog == old(closedLog) + Closed(old(entries[..]), IdleAt(now))
    {
      if count > 0 {
        SweepSlots(IdleAt(now));
      } else {
        LiveZeroAllFree(entries[..]);
        ClosedOfUntouched(entries[..], 0, IdleAt(now));
      }
    }
  }
}
