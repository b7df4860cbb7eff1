/**
 * The connectivity service's priority list: every configured network type,
 * built once at start-up, highest priority value first. The list fills an
 * array from its last slot backwards, one priority level per pass over the
 * configuration table, lowest level first.
 */
module PriorityList {
  import opened Wrappers
  import opened NetworkConfigs

  function Priority(configs: ConfigTable, t: int): int
    requires Configured(configs, t)
  {
    configs[t].value.priority
  }

  /** x stands before y: a larger priority value, or an equal one and a larger type. */
  predicate Outranks(configs: ConfigTable, x: int, y: int)
  {
    Configured(configs, x) && Configured(configs, y) &&
    (Priority(configs, x) > Priority(configs, y) ||
     (Priority(configs, x) == Priority(configs, y) && x > y))
  }

  /** A list of configured types, each standing before all that follow it. */
  predicate Ordered(configs: ConfigTable, order: seq<int>)
  {
    (forall i :: 0 <= i < |order| ==> Configured(configs, order[i])) &&
    (forall i, j :: 0 <= i < j < |order| ==> Outranks(configs, order[i], order[j]))
  }

  /** Some configured type sits at priority level c. */
  predicate Attained(configs: ConfigTable, c: int)
  {
    exists t :: 0 <= t < |configs| && configs[t].Some? && configs[t].value.priority == c
  }

  /** Configured types below priority level c. */
  function Below(configs: ConfigTable, c: int): set<int>
  {
    set t | 0 <= t < |configs| && configs[t].Some? && configs[t].value.priority < c
  }

  /** Configured types at priority level c among the first k slots. */
  function LevelBefore(configs: ConfigTable, c: int, k: int): set<int>
  {
    set t | 0 <= t < k && t < |configs| && configs[t].Some? && configs[t].value.priority == c
  }

  /** The least priority value above c among slots 0..k-1, as the corrected scan tracks it. */
  function NextLevel(configs: ConfigTable, c: int, k: nat): Option<int>
    requires k <= |configs|
  {
    if k == 0 then None
    else
      var prev := NextLevel(configs, c, k - 1);
      var slot := configs[k - 1];
      if slot.Some? && slot.value.priority > c && (prev.None? || slot.value.priority < prev.value) then Some(slot.value.priority)
      else prev
  }

  /**
   * NextLevel finds nothing exactly when no slot lies above c; otherwise it
   * is a priority some slot holds, above c, and no slot above c lies below it.
   */
  lemma {:induction false} NextLevelLeast(configs: ConfigTable, c: int, k: nat)
    requires k <= |configs|
    ensures var r := NextLevel(configs, c, k);
      && (r.None? <==> forall t :: 0 <= t < k && configs[t].Some? ==> configs[t].value.priority <= c)
      && (r.Some? ==> r.value > c && exists t :: 0 <= t < k && configs[t].Some? && configs[t].value.priority == r.value)
      && (r.Some? ==> forall t :: 0 <= t < k && configs[t].Some? && configs[t].value.priority > c ==> configs[t].value.priority >= r.value)
  {
    if k > 0 {
      NextLevelLeast(configs, c, k - 1);
    }
  }

  /** Scanning slot k raises the next level to its priority when that lies above c and below the level so far. */
  lemma NextLevelStep(configs: ConfigTable, c: int, k: nat)
    requires k < |configs|
    ensures var prev := NextLevel(configs, c, k);
      NextLevel(configs, c, k + 1) ==
        if configs[k].Some? && configs[k].value.priority > c && (prev.None? || configs[k].value.priority < prev.value)
        then Some(configs[k].value.priority) else prev
  {
  }

  /**
   * After level c the placed types are exactly those below the next level,
   * or, when there is no next level, all configured types.
   */
  lemma LevelsAdvance(configs: ConfigTable, c: int)
    ensures var n := NextLevel(configs, c, |configs|);
      && (n.Some? ==> forall x :: x in Below(configs, n.value) <==> x in Below(configs, c) || x in LevelBefore(configs, c, |configs|))
      && (n.None? ==> forall x :: x in Accepted(configs) <==> x in Below(configs, c) || x in LevelBefore(configs, c, |configs|))
  {
    NextLevelLeast(configs, c, |configs|);
  }

  // ------------------------------------------------------------ as written

  /** The loop's variables between two visits: the array contents and the three counters. */
  datatype Fill = Fill(slots: seq<int>, insertionPoint: int, currentLowest: int, nextLowest: int)

  /**
   * One visit of slot t: levels below the current one are skipped, higher
   * levels only lower the next level (0 meaning "not yet seen"), and a
   * configuration at the current level is written at the insertion point,
   * which then moves one slot down. None: the write falls outside the array.
   */
  function Visit(configs: ConfigTable, t: nat, f: Fill): (g: Option<Fill>)
    requires t < |configs|
    ensures g.Some? ==> |g.value.slots| == |f.slots|
  {
    if configs[t].None? then Some(f)
    else
      var p := configs[t].value.priority;
      if p < f.currentLowest then Some(f)
      else if p > f.currentLowest then
        Some(if p < f.nextLowest || f.nextLowest == 0 then f.(nextLowest := p) else f)
      else if 0 <= f.insertionPoint < |f.slots| then
        Some(f.(slots := f.slots[f.insertionPoint := configs[t].value.netType],
                insertionPoint := f.insertionPoint - 1))
      else None
  }

  /** The visits of slots k onwards in one pass. */
  function PassFrom(configs: ConfigTable, k: nat, f: Fill): (g: Option<Fill>)
    requires k <= |configs|
    ensures g.Some? ==> |g.value.slots| == |f.slots|
    decreases |configs| - k
  {
    if k == |configs| then Some(f)
    else match Visit(configs, k, f)
      case None => None
      case Some(g) => PassFrom(configs, k + 1, g)
  }

  datatype Outcome = Finished(list: seq<int>) | IndexOutOfBounds | StillRunning

  /**
   * At most `fuel` more passes of the loop as written: after each pass the
   * current level becomes the next one and the next one is reset to 0.
   */
  function RunPasses(configs: ConfigTable, f: Fill, fuel: nat): (r: Outcome)
    ensures r.Finished? ==> |r.list| == |f.slots|
    decreases fuel
  {
    if f.insertionPoint <= -1 then Finished(f.slots)
    else if fuel == 0 then StillRunning
    else match PassFrom(configs, 0, f)
      case None => IndexOutOfBounds
      case Some(g) => RunPasses(configs, g.(currentLowest := g.nextLowest, nextLowest := 0), fuel - 1)
  }

  /**
   * The priority list as written, given the number of defined networks: a
   * finished run fills an array of that size, no network gives the empty
   * list at once, and otherwise at least one pass is needed.
   */
  function AsWrittenPriorityList(configs: ConfigTable, networksDefined: nat, fuel: nat): (r: Outcome)
    ensures r.Finished? ==> |r.list| == networksDefined
    ensures networksDefined == 0 ==> r == Finished([])
    ensures networksDefined > 0 && fuel == 0 ==> r == StillRunning
  {
    RunPasses(configs, Fill(seq(networksDefined, _ => 0), networksDefined - 1, 0, 0), fuel)
  }

  /** A single configuration with priority -1, as network type 0. */
  const NEGATIVE_ONLY: ConfigTable := [Some(NetworkConfig("mobile", 0, 0, -1, 0, true))]

  /**
   * With only a negative priority configured, no pass ever writes anything
   * and the current level returns to 0: the loop never ends.
   */
  lemma {:induction false} NegativePriorityNeverFinishes(fuel: nat)
    ensures AsWrittenPriorityList(NEGATIVE_ONLY, 1, fuel) == StillRunning
  {
    var f := Fill([0], 0, 0, 0);
    assert seq(1, _ => 0) == [0];
    assert PassFrom(NEGATIVE_ONLY, 1, f) == Some(f);
    assert PassFrom(NEGATIVE_ONLY, 0, f) == Some(f);
    StallForever(f, fuel);
  }

  lemma {:induction false} StallForever(f: Fill, fuel: nat)
    requires f == Fill([0], 0, 0, 0)
    requires PassFrom(NEGATIVE_ONLY, 0, f) == Some(f)
    ensures RunPasses(NEGATIVE_ONLY, f, fuel) == StillRunning
  {
    if fuel > 0 {
      StallForever(f, fuel - 1);
    }
  }

  /** Type 0 at priority 1 and type 1 at priority -1. */
  const ONE_NEGATIVE: ConfigTable :=
    [Some(NetworkConfig("mobile", 0, 0, 1, 0, true)), Some(NetworkConfig("wifi", 1, 1, -1, 0, true))]

  /**
   * With one of two configurations negative, the loop wraps around to level 0
   * and places the other type twice: the list is [0, 0] and lacks type 1.
   */
  lemma NegativePriorityDuplicates()
    ensures AsWrittenPriorityList(ONE_NEGATIVE, 2, 4) == Finished([0, 0])
  {
    var f0 := Fill([0, 0], 1, 0, 0);
    assert seq(2, _ => 0) == [0, 0];
    // pass at level 0: type 0 raises the next level to 1, type 1 is skipped
    var f1 := Fill([0, 0], 1, 0, 1);
    assert PassFrom(ONE_NEGATIVE, 2, f1) == Some(f1);
    assert PassFrom(ONE_NEGATIVE, 1, f1) == Some(f1);
    assert PassFrom(ONE_NEGATIVE, 0, f0) == Some(f1);
    // pass at level 1: type 0 is written into slot 1
    var f2 := Fill([0, 0], 1, 1, 0);
    var f3 := Fill([0, 0], 0, 1, 0);
    assert [0, 0][1 := 0] == [0, 0];
    assert Visit(ONE_NEGATIVE, 0, f2) == Some(f3);
    assert PassFrom(ONE_NEGATIVE, 2, f3) == Some(f3);
    assert PassFrom(ONE_NEGATIVE, 1, f3) == Some(f3);
    assert PassFrom(ONE_NEGATIVE, 0, f2) == Some(f3);
    // pass at level 0 again: type 0 raises the next level
    var f4 := Fill([0, 0], 0, 0, 0);
    var f5 := Fill([0, 0], 0, 0, 1);
    assert PassFrom(ONE_NEGATIVE, 2, f5) == Some(f5);
    assert PassFrom(ONE_NEGATIVE, 1, f5) == Some(f5);
    assert PassFrom(ONE_NEGATIVE, 0, f4) == Some(f5);
    // pass at level 1 again: type 0 is written into slot 0
    var f6 := Fill([0, 0], 0, 1, 0);
    var f7 := Fill([0, 0], -1, 1, 0);
    assert [0, 0][0 := 0] == [0, 0];
    assert Visit(ONE_NEGATIVE, 0, f6) == Some(f7);
    assert PassFrom(ONE_NEGATIVE, 2, f7) == Some(f7);
    assert PassFrom(ONE_NEGATIVE, 1, f7) == Some(f7);
    assert PassFrom(ONE_NEGATIVE, 0, f6) == Some(f7);
    assert RunPasses(ONE_NEGATIVE, f7.(currentLowest := 0, nextLowest := 0), 0) == Finished([0, 0]);
    assert RunPasses(ONE_NEGATIVE, f4, 2) == Finished([0, 0]);
  }

  // ------------------------------------------------------------- corrected

  /** The lowest priority value among the configured types from slot k on. */
  function LowestFrom(configs: ConfigTable, k: nat): (lowest: Option<int>)
    requires k <= |configs|
    ensures lowest.None? <==> forall t :: k <= t < |configs| ==> configs[t].None?
    ensures lowest.Some? ==> exists t :: k <= t < |configs| && configs[t].Some? && configs[t].value.priority == lowest.value
    ensures lowest.Some? ==> forall t :: k <= t < |configs| && configs[t].Some? ==> lowest.value <= configs[t].value.priority
    decreases |configs| - k
  {
    if k == |configs| then None
    else
      var rest := LowestFrom(configs, k + 1);
      if configs[k].None? then rest
      else if rest.Some? && rest.value < configs[k].value.priority then rest
      else Some(configs[k].value.priority)
  }

  lemma {:induction false} DistinctCard(s: seq<int>)
    requires forall i, j :: 0 <= i < j < |s| ==> s[i] != s[j]
    ensures |set x | x in s| == |s|
  {
    if s != [] {
      DistinctCard(s[1..]);
      assert (set x | x in s) == {s[0]} + (set x | x in s[1..]);
      assert s[0] !in s[1..];
    }
  }

  /** An ordered list has no repeats, so it is no longer than any set holding its elements. */
  lemma OrderedFits(configs: ConfigTable, order: seq<int>, extra: set<int>)
    requires Ordered(configs, order)
    requires forall x :: x in order ==> x in Accepted(configs)
    requires extra <= Accepted(configs)
    requires forall x :: x in extra ==> x !in order
    ensures |order| + |extra| <= |Accepted(configs)|
    ensures (forall x :: x in Accepted(configs) ==> x in order) ==> |order| == |Accepted(configs)|
  {
    DistinctCard(order);
    var elems := set x | x in order;
    assert elems !! extra;
    SubsetCard(elems + extra, Accepted(configs));
    if forall x :: x in Accepted(configs) ==> x in order {
      assert elems == Accepted(configs);
    }
  }

  /**
   * One pass of the corrected loop at level c: writes every type at level c,
   * in slot order, at descending slots below those already written, and finds
   * the next level, the least priority value above c, if there is one.
   */
  method PlaceLevel(configs: ConfigTable, a: array<int>, c: int, ip0: int, ghost placed0: seq<int>)
    returns (ip: int, hasNext: bool, next: int, ghost placed: seq<int>)
    modifies a
    requires WellTyped(configs) && a.Length == |Accepted(configs)|
    requires -1 <= ip0 < a.Length && a[ip0 + 1..] == placed0
    requires Ordered(configs, placed0)
    requires forall x :: x in placed0 <==> x in Below(configs, c)
    ensures -1 <= ip <= ip0 && a[ip + 1..] == placed
    ensures Ordered(configs, placed)
    ensures hasNext ==> next > c && Attained(configs, next)
    ensures hasNext ==> forall x :: x in placed <==> x in Below(configs, next)
    ensures !hasNext ==> forall x :: x in placed <==> x in Accepted(configs)
    ensures LevelBefore(configs, c, |configs|) != {} ==> ip < ip0
  {
    ip, hasNext, next, placed := ip0, false, 0, placed0;
    var k := 0;
    while k < |configs|
      invariant 0 <= k <= |configs|
      invariant -1 <= ip <= ip0 && a[ip + 1..] == placed
      invariant Ordered(configs, placed)
      invariant forall x :: x in placed <==> x in Below(configs, c) || x in LevelBefore(configs, c, k)
      invariant hasNext == NextLevel(configs, c, k).Some? && (hasNext ==> next == NextLevel(configs, c, k).value)
      invariant LevelBefore(configs, c, k) != {} ==> ip < ip0
    {
      ip, hasNext, next, placed := ScanSlot(configs, a, c, k, ip0, ip, hasNext, next, placed);
      k := k + 1;
    }
    NextLevelLeast(configs, c, |configs|);
    LevelsAdvance(configs, c);
  }

  /** One iteration of the corrected scan: slot k is placed, raises the next level, or is skipped. */
  method ScanSlot(configs: ConfigTable, a: array<int>, c: int, k: nat, ip0: int, ip: int, hasNext: bool, next: int,
                  ghost placed: seq<int>)
    returns (ip': int, hasNext': bool, next': int, ghost placed': seq<int>)
    modifies a
    requires WellTyped(configs) && a.Length == |Accepted(configs)| && k < |configs|
    requires -1 <= ip <= ip0 < a.Length && a[ip + 1..] == placed
    requires Ordered(configs, placed)
    requires forall x :: x in placed <==> x in Below(configs, c) || x in LevelBefore(configs, c, k)
    requires hasNext == NextLevel(configs, c, k).Some? && (hasNext ==> next == NextLevel(configs, c, k).value)
    requires LevelBefore(configs, c, k) != {} ==> ip < ip0
    ensures -1 <= ip' <= ip0 && a[ip' + 1..] == placed'
    ensures Ordered(configs, placed')
    ensures forall x :: x in placed' <==> x in Below(configs, c) || x in LevelBefore(configs, c, k + 1)
    ensures hasNext' == NextLevel(configs, c, k + 1).Some? && (hasNext' ==> next' == NextLevel(configs, c, k + 1).value)
    ensures LevelBefore(configs, c, k + 1) != {} ==> ip' < ip0
  {
    NextLevelStep(configs, c, k);
    ip', hasNext', next', placed' := ip, hasNext, next, placed;
    var na := configs[k];
    if na.Some? && na.value.priority > c {
      if na.value.priority < next || !hasNext {
        next' := na.value.priority;
      }
      hasNext' := true;
    } else if na.Some? && na.value.priority == c {
      ip', placed' := Place(configs, a, c, k, ip, placed);
    }
  }

  /** Writes type k, which is at level c, in front of the types placed so far. */
  method Place(configs: ConfigTable, a: array<int>, c: int, k: nat, ip0: int, ghost placed0: seq<int>)
    returns (ip: int, ghost placed: seq<int>)
    modifies a
    requires WellTyped(configs) && a.Length == |Accepted(configs)|
    requires k < |configs| && configs[k].Some? && configs[k].value.priority == c
    requires -1 <= ip0 < a.Length && a[ip0 + 1..] == placed0
    requires Ordered(configs, placed0)
    requires forall x :: x in placed0 <==> x in Below(configs, c) || x in LevelBefore(configs, c, k)
    ensures 0 <= ip0 && ip == ip0 - 1 && a[ip + 1..] == placed && placed == [k] + placed0
    ensures Ordered(configs, placed)
    ensures forall x :: x in placed <==> x in Below(configs, c) || x in LevelBefore(configs, c, k + 1)
  {
    assert k !in placed0;
    OrderedFits(configs, placed0, {k});
    a[ip0] := configs[k].value.netType;
    ip := ip0 - 1;
    placed := [k] + placed0;
    assert a[ip + 1..] == [a[ip0]] + a[ip0 + 1..];
    forall i, j | 0 <= i < j < |placed|
      ensures Outranks(configs, placed[i], placed[j])
    {
      if i == 0 {
        assert placed[j] == placed0[j - 1];
        assert placed0[j - 1] in placed0;
      } else {
        assert placed[i] == placed0[i - 1] && placed[j] == placed0[j - 1];
      }
    }
  }

  /**
   * One iteration of the corrected outer loop: places level c and moves to
   * the next level, which exists exactly when slots remain to be filled.
   */
  method PassLevel(configs: ConfigTable, a: array<int>, c: int, ghost w0: int, ip0: int, ghost placed0: seq<int>)
    returns (ip: int, next: int, ghost w: int, ghost placed: seq<int>)
    modifies a
    requires WellTyped(configs) && a.Length == |Accepted(configs)|
    requires 0 <= ip0 < a.Length && a[ip0 + 1..] == placed0
    requires Ordered(configs, placed0)
    requires forall x :: x in placed0 <==> x in Below(configs, c)
    requires 0 <= w0 < |configs| && configs[w0].Some? && configs[w0].value.priority == c
    ensures -1 <= ip < ip0 && a[ip + 1..] == placed
    ensures Ordered(configs, placed)
    ensures ip >= 0 ==> forall x :: x in placed <==> x in Below(configs, next)
    ensures ip >= 0 ==> 0 <= w < |configs| && configs[w].Some? && configs[w].value.priority == next
    ensures ip == -1 ==> forall x :: x in placed <==> x in Accepted(configs)
  {
    var hasNext;
    ip, hasNext, next, placed := PlaceLevel(configs, a, c, ip0, placed0);
    assert w0 in LevelBefore(configs, c, |configs|);
    w := w0;
    if hasNext {
      w :| 0 <= w < |configs| && configs[w].Some? && configs[w].value.priority == next;
      assert w !in placed;
      OrderedFits(configs, placed, {w});
    } else {
      OrderedFits(configs, placed, {});
    }
  }

  /** Nothing lies below the lowest level; with no level at all, nothing is configured. */
  lemma FirstLevel(configs: ConfigTable, lowest: Option<int>) returns (w: int)
    requires lowest == LowestFrom(configs, 0)
    ensures lowest.Some? ==> Below(configs, lowest.value) == {}
    ensures lowest.Some? ==> 0 <= w < |configs| && configs[w].Some? && configs[w].value.priority == lowest.value
    ensures lowest.None? ==> Accepted(configs) == {}
  {
    w := 0;
    if lowest.Some? {
      w :| 0 <= w < |configs| && configs[w].Some? && configs[w].value.priority == lowest.value;
    }
  }

  /** A complete ordered list of the accepted types meets the list's contract. */
  lemma AllPlaced(configs: ConfigTable, order: seq<int>)
    requires Ordered(configs, order)
    requires forall x :: x in order <==> x in Accepted(configs)
    ensures forall t :: Configured(configs, t) <==> t in order
    ensures forall i, j :: 0 <= i < j < |order| ==> Outranks(configs, order[i], order[j])
  {
  }

  /**
   * The priority list, corrected: the first level is the lowest configured
   * priority and "no next level yet" is a flag rather than the value 0. The
   * list holds every configured type exactly once, larger priority values
   * first and, within a level, larger types first.
   */
  method BuildPriorityList(configs: ConfigTable, networksDefined: nat) returns (order: seq<int>)
    requires WellTyped(configs)
    requires networksDefined == |Accepted(configs)|
    ensures |order| == networksDefined
    ensures forall t :: Configured(configs, t) <==> t in order
    ensures forall i, j :: 0 <= i < j < |order| ==> Outranks(configs, order[i], order[j])
  {
    var list := new int[networksDefined];
    var insertionPoint := networksDefined - 1;
    var lowest := LowestFrom(configs, 0);
    var currentLowest := if lowest.Some? then lowest.value else 0;
    ghost var placed: seq<int> := [];
    ghost var w := FirstLevel(configs, lowest);
    while insertionPoint > -1
      invariant -1 <= insertionPoint < list.Length && list[insertionPoint + 1..] == placed
      invariant Ordered(configs, placed)
      invariant insertionPoint >= 0 ==> forall x :: x in placed <==> x in Below(configs, currentLowest)
      invariant insertionPoint == -1 ==> forall x :: x in placed <==> x in Accepted(configs)
      invariant insertionPoint >= 0 ==>
        0 <= w < |configs| && configs[w].Some? && configs[w].value.priority == currentLowest
    {
      insertionPoint, currentLowest, w, placed := PassLevel(configs, list, currentLowest, w, insertionPoint, placed);
    }
    order := list[..];
    AllPlaced(configs, order);
  }

  // ------------------------------------------------------------- agreement

  /** The as-written encoding of the next level: its value, or 0 for "none seen yet". */
  function Encoded(n: Option<int>): int
  {
    if n.Some? then n.value else 0
  }

  /**
   * The state of a pass of the loop as written at level c >= 0 before slot
   * k: the corrected scan's invariant, with the next level kept in
   * nextLowest and 0 standing for none.
   */
  ghost predicate PassState(configs: ConfigTable, c: int, k: nat, f: Fill, placed: seq<int>)
  {
    && WellTyped(configs) && |f.slots| == |Accepted(configs)| && k <= |configs|
    && 0 <= c && f.currentLowest == c
    && -1 <= f.insertionPoint < |f.slots| && f.slots[f.insertionPoint + 1..] == placed
    && Ordered(configs, placed)
    && (forall x :: x in placed <==> x in Below(configs, c) || x in LevelBefore(configs, c, k))
    && f.nextLowest == Encoded(NextLevel(configs, c, k))
  }

  /** Some type from slot k on sits at level c. */
  ghost predicate LevelAhead(configs: ConfigTable, c: int, k: nat)
  {
    exists t :: k <= t < |configs| && configs[t].Some? && configs[t].value.priority == c
  }

  /** A visit of a slot that is not at level c only updates the next level. */
  lemma VisitSkips(configs: ConfigTable, c: int, k: nat, f: Fill, placed: seq<int>) returns (g: Fill)
    requires PassState(configs, c, k, f, placed) && k < |configs|
    requires !(configs[k].Some? && configs[k].value.priority == c)
    ensures Visit(configs, k, f) == Some(g) && PassState(configs, c, k + 1, g, placed)
  {
    NextLevelStep(configs, c, k);
    NextLevelLeast(configs, c, k);
    g := Visit(configs, k, f).value;
    assert LevelBefore(configs, c, k + 1) == LevelBefore(configs, c, k);
  }

  /** A visit of a slot at level c writes its type in front of those placed, inside the array. */
  lemma VisitWrites(configs: ConfigTable, c: int, k: nat, f: Fill, placed: seq<int>) returns (g: Fill)
    requires PassState(configs, c, k, f, placed) && k < |configs|
    requires configs[k].Some? && configs[k].value.priority == c
    ensures Visit(configs, k, f) == Some(g) && PassState(configs, c, k + 1, g, [k] + placed)
  {
    NextLevelStep(configs, c, k);
    assert k !in placed;
    OrderedFits(configs, placed, {k});
    var ip := f.insertionPoint;
    g := Visit(configs, k, f).value;
    assert g.slots[g.insertionPoint + 1..] == [g.slots[ip]] + f.slots[ip + 1..];
    PrependOrdered(configs, k, placed);
  }

  /** A type at level c, in front of an ordered list of lower types and earlier types at level c. */
  lemma PrependOrdered(configs: ConfigTable, k: int, placed: seq<int>)
    requires Configured(configs, k) && Ordered(configs, placed)
    requires forall x :: x in placed ==> x in Below(configs, Priority(configs, k)) || x in LevelBefore(configs, Priority(configs, k), k)
    ensures Ordered(configs, [k] + placed)
  {
    var placed' := [k] + placed;
    forall i, j | 0 <= i < j < |placed'|
      ensures Outranks(configs, placed'[i], placed'[j])
    {
      if i == 0 {
        assert placed'[j] == placed[j - 1];
        assert placed[j - 1] in placed;
      } else {
        assert placed'[i] == placed[i - 1] && placed'[j] == placed[j - 1];
      }
    }
  }

  /**
   * A pass of the loop as written at a level c >= 0, from slot k on, does
   * what the corrected pass does: it writes the types at level c in front of
   * those placed, never outside the array, and leaves the next level in
   * nextLowest, encoded with 0 for none.
   */
  lemma {:induction false} PassFromPlaces(configs: ConfigTable, c: int, k: nat, f: Fill, placed: seq<int>)
    returns (g: Fill, placedOut: seq<int>)
    requires PassState(configs, c, k, f, placed)
    ensures PassFrom(configs, k, f) == Some(g) && PassState(configs, c, |configs|, g, placedOut)
    ensures |placedOut| >= |placed|
    ensures LevelAhead(configs, c, k) ==> |placedOut| > |placed|
    decreases |configs| - k
  {
    if k == |configs| {
      g, placedOut := f, placed;
    } else {
      var h: Fill;
      var placed' := placed;
      if configs[k].Some? && configs[k].value.priority == c {
        h := VisitWrites(configs, c, k, f, placed);
        placed' := [k] + placed;
      } else {
        h := VisitSkips(configs, c, k, f, placed);
        if LevelAhead(configs, c, k) {
          var t :| k <= t < |configs| && configs[t].Some? && configs[t].value.priority == c;
          assert LevelAhead(configs, c, k + 1);
        }
      }
      g, placedOut := PassFromPlaces(configs, c, k + 1, h, placed');
    }
  }

  /**
   * From a level c >= 0 with everything below it placed, the passes as
   * written finish, with enough fuel, on the complete ordered list: each
   * pass either places a level that some type holds, or (only at a level
   * nobody holds) moves on to one that some type holds.
   */
  lemma {:induction false} RunPassesFinishes(configs: ConfigTable, f: Fill, placed: seq<int>, fuel: nat)
    requires PassState(configs, f.currentLowest, 0, f, placed) && f.nextLowest == 0
    requires fuel >= |f.slots| - |placed| + (if Attained(configs, f.currentLowest) then 0 else 1)
    ensures var out := RunPasses(configs, f, fuel);
      && out.Finished? && |out.list| == |f.slots| && Ordered(configs, out.list)
      && forall x :: x in out.list <==> x in Accepted(configs)
    decreases fuel
  {
    var c := f.currentLowest;
    if f.insertionPoint <= -1 {
      assert f.slots == placed;
      OrderedFits(configs, placed, Accepted(configs) - Below(configs, c));
    } else {
      assert |placed| < |f.slots|;
      var g, placed' := PassFromPlaces(configs, c, 0, f, placed);
      LevelsAdvance(configs, c);
      NextLevelLeast(configs, c, |configs|);
      var n := NextLevel(configs, c, |configs|);
      if n.None? {
        OrderedFits(configs, placed', {});
        assert g.insertionPoint == -1;
      } else {
        var w :| 0 <= w < |configs| && configs[w].Some? && configs[w].value.priority == n.value;
        assert Attained(configs, n.value);
        var f' := g.(currentLowest := n.value, nextLowest := 0);
        assert PassState(configs, n.value, 0, f', placed');
        RunPassesFinishes(configs, f', placed', fuel - 1);
      }
    }
  }

  /** The head of an ordered list outranks every other element. */
  lemma HeadOutranks(configs: ConfigTable, a: seq<int>)
    requires Ordered(configs, a) && a != []
    ensures forall x :: x in a && x != a[0] ==> Outranks(configs, a[0], x)
  {
    forall x | x in a && x != a[0]
      ensures Outranks(configs, a[0], x)
    {
      var i :| 0 <= i < |a| && a[i] == x;
    }
  }

  /** Ordered lists of the same types have the same length, since neither repeats a type. */
  lemma SameLength(configs: ConfigTable, a: seq<int>, b: seq<int>)
    requires Ordered(configs, a) && Ordered(configs, b)
    requires forall x :: x in a <==> x in b
    ensures |a| == |b|
  {
    DistinctCard(a);
    DistinctCard(b);
    assert (set x | x in a) == (set x | x in b);
  }

  /** Below equal heads, ordered lists of the same types have tails of the same types. */
  lemma SameTails(configs: ConfigTable, a: seq<int>, b: seq<int>)
    requires Ordered(configs, a) && Ordered(configs, b) && a != [] && b != [] && a[0] == b[0]
    requires forall x :: x in a <==> x in b
    ensures forall x :: x in a[1..] <==> x in b[1..]
  {
    forall x ensures x in a[1..] <==> x in b[1..]
    {
      if x in a[1..] {
        var i :| 1 <= i < |a| && a[i] == x;
        assert Outranks(configs, a[0], a[i]);
        assert x in b && b == [b[0]] + b[1..];
      }
      if x in b[1..] {
        var j :| 1 <= j < |b| && b[j] == x;
        assert Outranks(configs, b[0], b[j]);
        assert x in a && a == [a[0]] + a[1..];
      }
    }
  }

  /** Two ordered lists of the same types are the same list. */
  lemma {:induction false} OrderedUnique(configs: ConfigTable, a: seq<int>, b: seq<int>)
    requires Ordered(configs, a) && Ordered(configs, b)
    requires forall x :: x in a <==> x in b
    ensures a == b
    decreases |a|
  {
    SameLength(configs, a, b);
    if a != [] {
      assert a[0] in b && b[0] in a;
      HeadOutranks(configs, a);
      HeadOutranks(configs, b);
      SameTails(configs, a, b);
      OrderedUnique(configs, a[1..], b[1..]);
      assert a == [a[0]] + a[1..] && b == [b[0]] + b[1..];
    }
  }

  /**
   * When no priority is negative, the loop as written finishes within
   * networksDefined + 1 passes on the list BuildPriorityList promises: every
   * configured type once, in Outranks order. OrderedUnique makes that list
   * the only one, so the two builders agree.
   */
  lemma AsWrittenAgrees(configs: ConfigTable, networksDefined: nat)
    requires WellTyped(configs) && networksDefined == |Accepted(configs)|
    requires forall t :: 0 <= t < |configs| && configs[t].Some? ==> configs[t].value.priority >= 0
    ensures var out := AsWrittenPriorityList(configs, networksDefined, networksDefined + 1);
      && out.Finished? && |out.list| == networksDefined
      && (forall t :: Configured(configs, t) <==> t in out.list)
      && (forall i, j :: 0 <= i < j < |out.list| ==> Outranks(configs, out.list[i], out.list[j]))
  {
    var f := Fill(seq(networksDefined, _ => 0), networksDefined - 1, 0, 0);
    assert f.slots[f.insertionPoint + 1..] == [];
    assert Below(configs, 0) == {};
    RunPassesFinishes(configs, f, [], networksDefined + 1);
  }
}
