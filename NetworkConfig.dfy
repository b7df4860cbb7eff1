/**
 * The connectivity service's static network registry: the radio attribute
 * table and the network configuration table loaded once at start-up, the
 * mapping from a (network type, feature) request to the network type that
 * serves it, and the restore delay of a feature request.
 */
module NetworkConfigs {
  import opened Wrappers

  /**
   * One parsed entry of the network attributes resource. The parser that
   * builds it from its text form is not part of this model; `isDefault`
   * stands for the configuration's answer to isDefault().
   */
  datatype NetworkConfig = NetworkConfig(
    name: string, netType: int, radio: int, priority: int,
    restoreTime: int, isDefault: bool)

  /** The registry: slot t holds the configuration of network type t, or null. */
  type ConfigTable = seq<Option<NetworkConfig>>

  /** Every stored configuration sits in the slot of its own type. */
  predicate WellTyped(configs: ConfigTable)
  {
    forall t :: 0 <= t < |configs| && configs[t].Some? ==> configs[t].value.netType == t
  }

  predicate Configured(configs: ConfigTable, t: int)
  {
    0 <= t < |configs| && configs[t].Some?
  }

  /** The types that have a configuration (the ones the service counts as defined). */
  function Accepted(configs: ConfigTable): set<int>
  {
    set t | 0 <= t < |configs| && configs[t].Some?
  }

  // ---------------------------------------------------------------- radios

  /**
   * The radio table after one parsed radio type: types above the maximum and
   * redefinitions are ignored; a negative type indexes outside the table,
   * which nothing catches, so start-up fails (None).
   */
  function RadioStep(radios: seq<bool>, t: int): Option<seq<bool>>
  {
    if t >= |radios| then Some(radios)
    else if t < 0 then None
    else if radios[t] then Some(radios)
    else Some(radios[t := true])
  }

  /** The radio table after the first k parsed radio types. */
  function RadioTable(maxRadioType: nat, types: seq<int>): Option<seq<bool>>
  {
    if types == [] then Some(seq(maxRadioType + 1, _ => false))
    else match RadioTable(maxRadioType, types[..|types| - 1])
      case None => None
      case Some(radios) => RadioStep(radios, types[|types| - 1])
  }

  /**
   * Start-up fails exactly when some radio type is negative; otherwise radio r
   * is defined exactly when it is listed and within the maximum.
   */
  lemma {:induction false} RadioTableDefines(maxRadioType: nat, types: seq<int>)
    ensures RadioTable(maxRadioType, types).None? <==> exists i :: 0 <= i < |types| && types[i] < 0
    ensures RadioTable(maxRadioType, types).Some? ==>
      |RadioTable(maxRadioType, types).value| == maxRadioType + 1 &&
      forall r :: 0 <= r <= maxRadioType ==> (RadioTable(maxRadioType, types).value[r] <==> r in types)
  {
    if types != [] {
      var init := types[..|types| - 1];
      var last := types[|types| - 1];
      RadioTableDefines(maxRadioType, init);
      assert types == init + [last];
      if RadioTable(maxRadioType, init).None? {
        var i :| 0 <= i < |init| && init[i] < 0;
        assert types[i] < 0;
      } else if last < 0 {
        assert types[|types| - 1] < 0;
      } else {
        forall i | 0 <= i < |types|
          ensures types[i] >= 0
        {
          if i < |init| { assert types[i] == init[i]; }
        }
        forall r | 0 <= r <= maxRadioType
          ensures RadioTable(maxRadioType, types).value[r] <==> r in types
        {
          assert r in types <==> r in init || r == last;
        }
      }
    }
  }

  /** Loads the radio attributes: `ok` is false when start-up fails. */
  method LoadRadioAttributes(maxRadioType: nat, types: seq<int>) returns (radios: array<bool>, ok: bool)
    ensures radios.Length == maxRadioType + 1
    ensures ok <==> RadioTable(maxRadioType, types).Some?
    ensures ok ==> radios[..] == RadioTable(maxRadioType, types).value
  {
    radios := new bool[maxRadioType + 1](_ => false);
    assert radios[..] == RadioTable(maxRadioType, types[..0]).value;
    var k := 0;
    while k < |types|
      invariant 0 <= k <= |types|
      invariant RadioTable(maxRadioType, types[..k]).Some?
      invariant radios[..] == RadioTable(maxRadioType, types[..k]).value
    {
      assert types[..k + 1][..k] == types[..k];
      var t := types[k];
      if t > maxRadioType {
        k := k + 1;
        continue;
      }
      if t < 0 {
        assert RadioTable(maxRadioType, types[..k + 1]).None?;
        RadioFailurePersists(maxRadioType, types, k + 1);
        return radios, false;
      }
      if radios[t] {
        k := k + 1;
        continue;
      }
      radios[t] := true;
      k := k + 1;
    }
    assert types[..k] == types;
    return radios, true;
  }

  lemma {:induction false} RadioFailurePersists(maxRadioType: nat, types: seq<int>, k: nat)
    requires k <= |types|
    requires RadioTable(maxRadioType, types[..k]).None?
    ensures RadioTable(maxRadioType, types).None?
    decreases |types| - k
  {
    if k < |types| {
      assert types[..k + 1][..k] == types[..k];
      RadioFailurePersists(maxRadioType, types, k + 1);
    } else {
      assert types[..k] == types;
    }
  }

  // ------------------------------------------------------- network configs

  /**
   * Whether a parsed entry is stored into a table that has no entry for its
   * type yet: its type must be within the table and its radio defined. A
   * parse failure (None) and any index outside a table are caught and ignored.
   */
  predicate Acceptable(e: Option<NetworkConfig>, radios: seq<bool>, size: nat)
  {
    e.Some? && 0 <= e.value.netType < size &&
    0 <= e.value.radio < |radios| && radios[e.value.radio]
  }

  /** The configuration table after one parsed entry; the flag says whether it was stored. */
  function ConfigStep(configs: ConfigTable, radios: seq<bool>, e: Option<NetworkConfig>): (ConfigTable, bool)
  {
    if e.None? then (configs, false)
    else if e.value.netType >= |configs| then (configs, false)
    else if e.value.netType < 0 then (configs, false)
    else if configs[e.value.netType].Some? then (configs, false)
    else if e.value.radio < 0 || e.value.radio >= |radios| then (configs, false)
    else if !radios[e.value.radio] then (configs, false)
    else (configs[e.value.netType := e], true)
  }

  /** The configuration table after the given entries. */
  function LoadedConfigs(maxNetworkType: nat, radios: seq<bool>, entries: seq<Option<NetworkConfig>>): ConfigTable
  {
    if entries == [] then seq(maxNetworkType + 1, _ => None)
    else ConfigStep(LoadedConfigs(maxNetworkType, radios, entries[..|entries| - 1]), radios, entries[|entries| - 1]).0
  }

  /** The first acceptable entry for type t, the one that defines it. */
  function FirstFor(entries: seq<Option<NetworkConfig>>, radios: seq<bool>, size: nat, t: int): Option<NetworkConfig>
  {
    if entries == [] then None
    else if FirstFor(entries[..|entries| - 1], radios, size, t).Some? then FirstFor(entries[..|entries| - 1], radios, size, t)
    else if Acceptable(entries[|entries| - 1], radios, size) && entries[|entries| - 1].value.netType == t then entries[|entries| - 1]
    else None
  }

  /**
   * The loaded table has one slot per type up to the maximum; each slot holds
   * the first acceptable entry for that type, so later redefinitions lose;
   * every stored configuration is in its own slot and uses a defined radio.
   */
  lemma {:induction false} LoadedIsFirstAcceptable(maxNetworkType: nat, radios: seq<bool>, entries: seq<Option<NetworkConfig>>)
    ensures |LoadedConfigs(maxNetworkType, radios, entries)| == maxNetworkType + 1
    ensures forall t :: 0 <= t <= maxNetworkType ==>
      LoadedConfigs(maxNetworkType, radios, entries)[t] == FirstFor(entries, radios, maxNetworkType + 1, t)
    ensures WellTyped(LoadedConfigs(maxNetworkType, radios, entries))
    ensures forall t :: Configured(LoadedConfigs(maxNetworkType, radios, entries), t) ==>
      var c := LoadedConfigs(maxNetworkType, radios, entries)[t].value;
      0 <= c.radio < |radios| && radios[c.radio]
  {
    if entries != [] {
      var init := entries[..|entries| - 1];
      LoadedIsFirstAcceptable(maxNetworkType, radios, init);
    }
  }

  /**
   * Loads the network attributes into a table indexed by type, counting the
   * stored entries as the service's number of defined networks.
   */
  method LoadNetworkConfigs(maxNetworkType: nat, radios: array<bool>, entries: seq<Option<NetworkConfig>>)
    returns (configs: array<Option<NetworkConfig>>, defined: nat)
    ensures configs.Length == maxNetworkType + 1
    ensures configs[..] == LoadedConfigs(maxNetworkType, radios[..], entries)
    ensures defined == |Accepted(configs[..])|
  {
    configs := new Option<NetworkConfig>[maxNetworkType + 1](_ => None);
    defined := 0;
    assert configs[..] == LoadedConfigs(maxNetworkType, radios[..], entries[..0]);
    assert Accepted(configs[..]) == {};
    var k := 0;
    while k < |entries|
      invariant 0 <= k <= |entries|
      invariant configs[..] == LoadedConfigs(maxNetworkType, radios[..], entries[..k])
      invariant defined == |Accepted(configs[..])|
    {
      assert entries[..k + 1][..k] == entries[..k];
      var e := entries[k];
      if e.None? || e.value.netType > maxNetworkType || e.value.netType < 0 || configs[e.value.netType].Some?
         || e.value.radio < 0 || e.value.radio >= radios.Length || !radios[e.value.radio] {
        k := k + 1;
        continue;
      }
      AcceptedAdd(configs[..], e.value.netType, e);
      configs[e.value.netType] := e;
      defined := defined + 1;
      k := k + 1;
    }
    assert entries[..k] == entries;
  }

  lemma AcceptedAdd(configs: ConfigTable, t: int, e: Option<NetworkConfig>)
    requires 0 <= t < |configs| && configs[t].None? && e.Some?
    ensures Accepted(configs[t := e]) == Accepted(configs) + {t}
    ensures |Accepted(configs[t := e])| == |Accepted(configs)| + 1
  {
    assert t !in Accepted(configs);
  }

  // ------------------------------------------------------ feature mapping

  /** The feature names a caller may ask of a network type. */
  datatype Feature =
    | EnableMms | EnableSupl | EnableDun | EnableDunAlways | EnableHipri
    | EnableFota | EnableIms | EnableCbs | EnableDm | EnableWap
    | P2p
    | OtherFeature(name: string)

  /** The strings of the Phone.FEATURE_ENABLE_* constants, which are not part of this model. */
  datatype FeatureNames = FeatureNames(mms: string, supl: string, dun: string, dunAlways: string, hipri: string,
                                       fota: string, ims: string, cbs: string, dm: string, wap: string)

  /** Every string the mapping tests for, in the order it tests them, "p2p" last. */
  function KnownNames(n: FeatureNames): seq<string>
  {
    [n.mms, n.supl, n.dun, n.dunAlways, n.hipri, n.fota, n.ims, n.cbs, n.dm, n.wap, "p2p"]
  }

  /** The string a feature stands for. */
  function NameOf(n: FeatureNames, f: Feature): string
  {
    match f
    case EnableMms => n.mms
    case EnableSupl => n.supl
    case EnableDun => n.dun
    case EnableDunAlways => n.dunAlways
    case EnableHipri => n.hipri
    case EnableFota => n.fota
    case EnableIms => n.ims
    case EnableCbs => n.cbs
    case EnableDm => n.dm
    case EnableWap => n.wap
    case P2p => "p2p"
    case OtherFeature(name) => name
  }

  /**
   * The feature a caller's string names, tested in the order of the mapping's
   * TextUtils.equals chain: a string that is none of the known names stays
   * an OtherFeature, and the feature always stands for the string it came from.
   */
  function FeatureOf(n: FeatureNames, s: string): (f: Feature)
    ensures f.OtherFeature? <==> s !in KnownNames(n)
    ensures NameOf(n, f) == s
  {
    if s == n.mms then EnableMms
    else if s == n.supl then EnableSupl
    else if s == n.dun then EnableDun
    else if s == n.dunAlways then EnableDunAlways
    else if s == n.hipri then EnableHipri
    else if s == n.fota then EnableFota
    else if s == n.ims then EnableIms
    else if s == n.cbs then EnableCbs
    else if s == n.dm then EnableDm
    else if s == n.wap then EnableWap
    else if s == "p2p" then P2p
    else OtherFeature(s)
  }

  /** Two strings give the same feature exactly when they are equal, as Java compares them. */
  lemma FeatureOfMatchesStringEquality(n: FeatureNames, s: string, t: string)
    ensures FeatureOf(n, s) == FeatureOf(n, t) <==> s == t
  {
    assert NameOf(n, FeatureOf(n, s)) == s && NameOf(n, FeatureOf(n, t)) == t;
  }

  /**
   * With distinct constants, every feature whose OtherFeature string is not
   * a known name is the feature of its own string: FeatureOf and NameOf are
   * inverse on the features a caller can produce.
   */
  lemma FeatureNameRoundTrip(n: FeatureNames, f: Feature)
    requires forall i, j :: 0 <= i < j < |KnownNames(n)| ==> KnownNames(n)[i] != KnownNames(n)[j]
    requires f.OtherFeature? ==> f.name !in KnownNames(n)
    ensures FeatureOf(n, NameOf(n, f)) == f
  {
    var k := KnownNames(n);
    assert k[0] == n.mms && k[1] == n.supl && k[2] == n.dun && k[3] == n.dunAlways && k[4] == n.hipri;
    assert k[5] == n.fota && k[6] == n.ims && k[7] == n.cbs && k[8] == n.dm && k[9] == n.wap && k[10] == "p2p";
  }

  /** The numeric network type constants the mapping refers to. */
  datatype TypeIds = TypeIds(
    mobile: int, wifi: int,
    mobileMms: int, mobileSupl: int, mobileDun: int, mobileHipri: int,
    mobileFota: int, mobileIms: int, mobileCbs: int, mobileDm: int, mobileWap: int,
    wifiP2p: int)

  /** Every type number the mapping can return lies in 0..n-1. */
  predicate IdsInRange(ids: TypeIds, n: int)
  {
    && 0 <= ids.mobile < n && 0 <= ids.wifi < n && 0 <= ids.mobileMms < n && 0 <= ids.mobileSupl < n
    && 0 <= ids.mobileDun < n && 0 <= ids.mobileHipri < n && 0 <= ids.mobileFota < n
    && 0 <= ids.mobileIms < n && 0 <= ids.mobileCbs < n && 0 <= ids.mobileDm < n
    && 0 <= ids.mobileWap < n && 0 <= ids.wifiP2p < n
  }

  /** The mobile sub-type serving a feature, if the feature names one. */
  function MobileFeatureType(ids: TypeIds, feature: Feature): Option<int>
  {
    match feature
    case EnableMms => Some(ids.mobileMms)
    case EnableSupl => Some(ids.mobileSupl)
    case EnableDun => Some(ids.mobileDun)
    case EnableDunAlways => Some(ids.mobileDun)
    case EnableHipri => Some(ids.mobileHipri)
    case EnableFota => Some(ids.mobileFota)
    case EnableIms => Some(ids.mobileIms)
    case EnableCbs => Some(ids.mobileCbs)
    case EnableDm => Some(ids.mobileDm)
    case EnableWap => Some(ids.mobileWap)
    case _ => None
  }

  /** The sub-types are told apart from the two base types they are reached through. */
  predicate SubTypesDistinct(ids: TypeIds)
  {
    var subs := {ids.mobileMms, ids.mobileSupl, ids.mobileDun, ids.mobileHipri, ids.mobileFota,
                 ids.mobileIms, ids.mobileCbs, ids.mobileDm, ids.mobileWap, ids.wifiP2p};
    ids.mobile !in subs && ids.wifi !in subs
  }

  /**
   * The network type that serves a feature request: a mobile feature selects
   * its mobile sub-type, "p2p" on WiFi selects WiFi P2P, anything else keeps
   * the requested type. The caller's string becomes a Feature through
   * FeatureOf, so Feature equality here is the source's string equality.
   */
  function ConvertFeatureToNetworkType(ids: TypeIds, networkType: int, feature: Feature): (used: int)
    ensures networkType != ids.mobile && networkType != ids.wifi ==> used == networkType
    ensures networkType == ids.mobile ==>
      used == (if MobileFeatureType(ids, feature).Some? then MobileFeatureType(ids, feature).value else networkType)
    ensures networkType == ids.wifi && networkType != ids.mobile ==>
      used == (if feature == P2p then ids.wifiP2p else networkType)
    ensures forall n :: IdsInRange(ids, n) && 0 <= networkType < n ==> 0 <= used < n
  {
    var usedNetworkType := networkType;
    if networkType == ids.mobile then
      if feature == EnableMms then ids.mobileMms
      else if feature == EnableSupl then ids.mobileSupl
      else if feature == EnableDun || feature == EnableDunAlways then ids.mobileDun
      else if feature == EnableHipri then ids.mobileHipri
      else if feature == EnableFota then ids.mobileFota
      else if feature == EnableIms then ids.mobileIms
      else if feature == EnableCbs then ids.mobileCbs
      else if feature == EnableDm then ids.mobileDm
      else if feature == EnableWap then ids.mobileWap
      else usedNetworkType
    else if networkType == ids.wifi then
      if feature == P2p then ids.wifiP2p else usedNetworkType
    else usedNetworkType
  }

  /** Mapping an already mapped request again changes nothing. */
  lemma ConvertIdempotent(ids: TypeIds, networkType: int, feature: Feature)
    requires SubTypesDistinct(ids)
    ensures var used := ConvertFeatureToNetworkType(ids, networkType, feature);
      ConvertFeatureToNetworkType(ids, used, feature) == used
  {
    var used := ConvertFeatureToNetworkType(ids, networkType, feature);
    if used != networkType {
      assert used in {ids.mobileMms, ids.mobileSupl, ids.mobileDun, ids.mobileHipri, ids.mobileFota,
                      ids.mobileIms, ids.mobileCbs, ids.mobileDm, ids.mobileWap, ids.wifiP2p};
    }
  }

  // ---------------------------------------------------------- restore delay

  /** The restore delay used when neither the system property nor a configuration gives one. */
  const RESTORE_DEFAULT_NETWORK_DELAY: int := 1 * 60 * 1000

  /**
   * The delay after which a feature request expires: the value of the restore
   * delay system property when it is set and numeric (`property`), else the
   * configured restore time of the type, else one minute.
   */
  function RestoreDefaultNetworkDelay(property: Option<int>, configs: ConfigTable, networkType: int): (delay: int)
    requires 0 <= networkType
    ensures property.Some? ==> delay == property.value
    ensures property.None? && Configured(configs, networkType) ==> delay == configs[networkType].value.restoreTime
    ensures property.None? && !Configured(configs, networkType) ==> delay == 60000
  {
    if property.Some? then property.value
    else if networkType <= |configs| - 1 && configs[networkType].Some? then configs[networkType].value.restoreTime
    else RESTORE_DEFAULT_NETWORK_DELAY
  }

  /** Whether a type number names a network type at all. */
  predicate IsNetworkTypeValid(configs: ConfigTable, t: int)
  {
    0 <= t < |configs|
  }
}
