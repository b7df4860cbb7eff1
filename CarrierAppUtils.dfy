/**
 * The carrier-app enable/disable policy. Preinstalled carrier apps stay
 * disabled until a SIM grants them carrier privileges (or, for the special
 * apps, until a SIM with a matching operator code appears). The package
 * manager, settings and telephony services are inputs; every call that
 * changes something is recorded as an Action, in the order it is made.
 */
module CarrierApps {
  import opened Wrappers
  import SpecialCarrierApps

  /** PackageManager.COMPONENT_ENABLED_STATE_*. */
  datatype EnabledState = DEFAULT | ENABLED | DISABLED | DISABLED_USER | DISABLED_UNTIL_USED

  /** PackageManager.DONT_KILL_APP. */
  const DONT_KILL_APP: int := 1

  datatype ApplicationInfo = ApplicationInfo(
    packageName: string,
    isSystemApp: bool,
    isUpdatedSystemApp: bool,
    enabledSetting: EnabledState)

  /** The calls the policy makes on the platform. */
  datatype Action =
    | SetApplicationEnabledSetting(packageName: string, state: EnabledState, flags: int)
    | PutCarrierAppsHandled
    | GrantDefaultPermissions(packageNames: seq<string>)
    | StartMatchService(info: SpecialCarrierApps.SpecialCarrierAppInfo, deviceProvisioned: bool)

  /** What the package manager reports for each installed package; absent means null. */
  type PackageManager = map<string, ApplicationInfo>

  /** getApplicationInfoIfSystemApp: the package's info when it is installed as a system app. */
  function SystemAppInfo(pm: PackageManager, packageName: string): (ai: Option<ApplicationInfo>)
    ensures ai.Some? <==> packageName in pm && pm[packageName].isSystemApp
    ensures ai.Some? ==> ai.value == pm[packageName]
  {
    if packageName in pm && pm[packageName].isSystemApp then Some(pm[packageName]) else None
  }

  // ---------------------------------------------------------------------------
  // Candidate lookup
  // ---------------------------------------------------------------------------

  /** The system apps among the named packages, in the order named. */
  function SystemApps(pm: PackageManager, names: seq<string>): seq<ApplicationInfo>
  {
    if names == [] then []
    else
      var rest := SystemApps(pm, names[..|names| - 1]);
      match SystemAppInfo(pm, names[|names| - 1])
      case Some(ai) => rest + [ai]
      case None => rest
  }

  lemma {:induction false} SystemAppsSound(pm: PackageManager, names: seq<string>)
    ensures forall ai :: ai in SystemApps(pm, names) ==>
      ai.isSystemApp && exists n :: n in names && n in pm && pm[n] == ai
  {
    if names != [] {
      SystemAppsSound(pm, names[..|names| - 1]);
      forall ai | ai in SystemApps(pm, names)
        ensures ai.isSystemApp && exists n :: n in names && n in pm && pm[n] == ai
      {
        if ai in SystemApps(pm, names[..|names| - 1]) {
          var n :| n in names[..|names| - 1] && n in pm && pm[n] == ai;
          assert n in names;
        } else {
          assert names[|names| - 1] in names;
        }
      }
    }
  }

  lemma {:induction false} SystemAppsComplete(pm: PackageManager, names: seq<string>, n: string)
    requires n in names && n in pm && pm[n].isSystemApp
    ensures pm[n] in SystemApps(pm, names)
  {
    if names[|names| - 1] != n {
      assert n in names[..|names| - 1];
      SystemAppsComplete(pm, names[..|names| - 1], n);
    }
  }

  /**
   * getDefaultCarrierAppCandidatesHelper: null for a null or empty name set;
   * otherwise the installed system apps among the names, in order.
   */
  method CandidatesHelper(pm: PackageManager, names: Option<seq<string>>)
    returns (candidates: Option<seq<ApplicationInfo>>)
    ensures candidates.None? <==> names.None? || names.value == []
    ensures candidates.Some? ==> candidates.value == SystemApps(pm, names.value)
  {
    if names.None? || |names.value| == 0 {
      return None;
    }
    var ns := names.value;
    var apps: seq<ApplicationInfo> := [];
    var i := 0;
    while i < |ns|
      invariant 0 <= i <= |ns|
      invariant apps == SystemApps(pm, ns[..i])
    {
      assert ns[..i + 1][..i] == ns[..i];
      var ai := SystemAppInfo(pm, ns[i]);
      if ai.Some? {
        apps := apps + [ai.value];
      }
      i := i + 1;
    }
    assert ns[..i] == ns;
    return Some(apps);
  }

  // ---------------------------------------------------------------------------
  // Associated apps
  // ---------------------------------------------------------------------------

  /** An associated app is acted on only when it is an installed, not updated, system app. */
  predicate Eligible(pm: PackageManager, name: string)
  {
    SystemAppInfo(pm, name).Some? && !SystemAppInfo(pm, name).value.isUpdatedSystemApp
  }

  /** Appends the eligible apps among names to m[key], creating the list on first use. */
  function AddAssociated(m: map<string, seq<ApplicationInfo>>, pm: PackageManager, key: string, names: seq<string>)
    : map<string, seq<ApplicationInfo>>
  {
    if names == [] then m
    else
      var m' := AddAssociated(m, pm, key, names[..|names| - 1]);
      var n := names[|names| - 1];
      if Eligible(pm, n) then m'[key := (if key in m' then m'[key] else []) + [pm[n]]] else m'
  }

  /** The associated-apps map built from the configured (carrier app, associated packages) pairs. */
  function Associated(pm: PackageManager, config: seq<(string, seq<string>)>): map<string, seq<ApplicationInfo>>
  {
    if config == [] then map[]
    else
      var (key, names) := config[|config| - 1];
      AddAssociated(Associated(pm, config[..|config| - 1]), pm, key, names)
  }

  /** Every list in the map is non-empty and holds only installed, not updated system apps. */
  predicate WellShaped(m: map<string, seq<ApplicationInfo>>)
  {
    forall k :: k in m ==> m[k] != [] && forall ai :: ai in m[k] ==> ai.isSystemApp && !ai.isUpdatedSystemApp
  }

  predicate SomeEligible(pm: PackageManager, names: seq<string>)
  {
    exists n :: n in names && Eligible(pm, n)
  }

  /** Some configured pair for carrier app k names an eligible package. */
  predicate KeyListed(pm: PackageManager, config: seq<(string, seq<string>)>, k: string)
  {
    exists j :: 0 <= j < |config| && config[j].0 == k && SomeEligible(pm, config[j].1)
  }

  lemma {:induction false} AddAssociatedShape(m: map<string, seq<ApplicationInfo>>, pm: PackageManager, key: string, names: seq<string>)
    requires WellShaped(m)
    ensures WellShaped(AddAssociated(m, pm, key, names))
    ensures forall k :: k != key ==> (k in AddAssociated(m, pm, key, names) <==> k in m)
    ensures key in AddAssociated(m, pm, key, names) <==> key in m || SomeEligible(pm, names)
  {
    if names != [] {
      var init := names[..|names| - 1];
      AddAssociatedShape(m, pm, key, init);
      var n := names[|names| - 1];
      if SomeEligible(pm, init) {
        var x :| x in init && Eligible(pm, x);
        assert x in names;
      }
      if Eligible(pm, n) {
        assert n in names;
      }
      if SomeEligible(pm, names) && !Eligible(pm, n) {
        var x :| x in names && Eligible(pm, x);
        assert x in init;
      }
    }
  }

  /**
   * The associated-apps map holds a key exactly when one of its configured
   * packages is an installed, not updated system app, and its lists hold only
   * such apps and are never empty.
   */
  lemma {:induction false} AssociatedShape(pm: PackageManager, config: seq<(string, seq<string>)>)
    ensures WellShaped(Associated(pm, config))
    ensures forall k :: k in Associated(pm, config) <==> KeyListed(pm, config, k)
  {
    if config != [] {
      var init := config[..|config| - 1];
      var (key, names) := config[|config| - 1];
      AssociatedShape(pm, init);
      AddAssociatedShape(Associated(pm, init), pm, key, names);
      forall k
        ensures k in Associated(pm, config) <==> KeyListed(pm, config, k)
      {
        if KeyListed(pm, init, k) {
          var j :| 0 <= j < |init| && init[j].0 == k && SomeEligible(pm, init[j].1);
          assert config[j] == init[j];
        }
        if k == key && SomeEligible(pm, names) {
          assert config[|config| - 1].0 == k;
        }
        if KeyListed(pm, config, k) {
          var j :| 0 <= j < |config| && config[j].0 == k && SomeEligible(pm, config[j].1);
          if j < |init| {
            assert init[j] == config[j];
          }
        }
      }
    }
  }

  /** getDefaultCarrierAssociatedAppsHelper. */
  method AssociatedAppsHelper(pm: PackageManager, config: seq<(string, seq<string>)>)
    returns (associated: map<string, seq<ApplicationInfo>>)
    ensures associated == Associated(pm, config)
  {
    associated := map[];
    var i := 0;
    while i < |config|
      invariant 0 <= i <= |config|
      invariant associated == Associated(pm, config[..i])
    {
      var (key, names) := config[i];
      assert config[..i + 1][..i] == config[..i];
      var j := 0;
      while j < |names|
        invariant 0 <= j <= |names|
        invariant associated == AddAssociated(Associated(pm, config[..i]), pm, key, names[..j])
      {
        assert names[..j + 1][..j] == names[..j];
        var ai := SystemAppInfo(pm, names[j]);
        if ai.Some? && !ai.value.isUpdatedSystemApp {
          var list := if key in associated then associated[key] else [];
          associated := associated[key := list + [ai.value]];
        }
        j := j + 1;
      }
      assert names[..j] == names;
      i := i + 1;
    }
    assert config[..i] == config;
  }

  // ---------------------------------------------------------------------------
  // disableCarrierAppsUntilPrivileged
  // ---------------------------------------------------------------------------

  /** The calls made for the associated apps of one carrier app. */
  function AssociatedActions(apps: seq<ApplicationInfo>, privileged: bool, hasRunOnce: bool): seq<Action>
  {
    if apps == [] then []
    else
      var a := apps[|apps| - 1];
      AssociatedActions(apps[..|apps| - 1], privileged, hasRunOnce) +
      (if privileged && a.enabledSetting in {DEFAULT, DISABLED_UNTIL_USED}
       then [SetApplicationEnabledSetting(a.packageName, ENABLED, DONT_KILL_APP)]
       else if !privileged && !hasRunOnce && a.enabledSetting == DEFAULT
       then [SetApplicationEnabledSetting(a.packageName, DISABLED_UNTIL_USED, 0)]
       else [])
  }

  /** The calls made for one candidate. */
  function CandidateActions(ai: ApplicationInfo, privileged: bool, associated: map<string, seq<ApplicationInfo>>, hasRunOnce: bool)
    : seq<Action>
  {
    var own :=
      if privileged && !ai.isUpdatedSystemApp && ai.enabledSetting in {DEFAULT, DISABLED_UNTIL_USED}
      then [SetApplicationEnabledSetting(ai.packageName, ENABLED, DONT_KILL_APP)]
      else if !privileged && !ai.isUpdatedSystemApp && ai.enabledSetting == DEFAULT
      then [SetApplicationEnabledSetting(ai.packageName, DISABLED_UNTIL_USED, 0)]
      else [];
    var assoc := if ai.packageName in associated then associated[ai.packageName] else [];
    own + AssociatedActions(assoc, privileged, hasRunOnce)
  }

  /** A candidate is privileged when a TelephonyManager exists and grants the package access. */
  predicate Privileged(privileges: Option<set<string>>, packageName: string)
  {
    privileges.Some? && packageName in privileges.value
  }

  function LoopActions(cands: seq<ApplicationInfo>, privileges: Option<set<string>>,
                       associated: map<string, seq<ApplicationInfo>>, hasRunOnce: bool): seq<Action>
  {
    if cands == [] then []
    else
      var ai := cands[|cands| - 1];
      LoopActions(cands[..|cands| - 1], privileges, associated, hasRunOnce) +
      CandidateActions(ai, Privileged(privileges, ai.packageName), associated, hasRunOnce)
  }

  function PrivilegedNames(cands: seq<ApplicationInfo>, privileges: Option<set<string>>): seq<string>
  {
    if cands == [] then []
    else
      var ai := cands[|cands| - 1];
      PrivilegedNames(cands[..|cands| - 1], privileges) +
      (if Privileged(privileges, ai.packageName) then [ai.packageName] else [])
  }

  /** The whole effect of one run of the policy, as a list of calls. */
  function PolicyActions(cands: seq<ApplicationInfo>, privileges: Option<set<string>>,
                         associated: map<string, seq<ApplicationInfo>>, hasRunOnce: bool): seq<Action>
  {
    var enabled := PrivilegedNames(cands, privileges);
    LoopActions(cands, privileges, associated, hasRunOnce) +
    (if !hasRunOnce then [PutCarrierAppsHandled] else []) +
    (if enabled != [] then [GrantDefaultPermissions(enabled)] else [])
  }

  /** One more candidate: its calls and, when privileged, its name are appended. */
  lemma PolicyStep(cands: seq<ApplicationInfo>, i: nat, privileges: Option<set<string>>,
                   associated: map<string, seq<ApplicationInfo>>, hasRunOnce: bool)
    requires i < |cands|
    ensures LoopActions(cands[..i + 1], privileges, associated, hasRunOnce)
         == LoopActions(cands[..i], privileges, associated, hasRunOnce)
            + CandidateActions(cands[i], Privileged(privileges, cands[i].packageName), associated, hasRunOnce)
    ensures PrivilegedNames(cands[..i + 1], privileges)
         == PrivilegedNames(cands[..i], privileges)
            + (if Privileged(privileges, cands[i].packageName) then [cands[i].packageName] else [])
  {
    assert cands[..i + 1][..i] == cands[..i];
  }

  /**
   * disableCarrierAppsUntilPrivileged (the variant taking the telephony
   * manager and the configured sets). privileges is None when no
   * TelephonyManager is given, otherwise the packages it grants carrier
   * privileges; handledSetting is the CARRIER_APPS_HANDLED setting.
   */
  method DisableCarrierAppsUntilPrivileged(
    pm: PackageManager, privileges: Option<set<string>>, handledSetting: int,
    carrierApps: Option<seq<string>>, associatedConfig: seq<(string, seq<string>)>)
    returns (actions: seq<Action>)
    ensures carrierApps.None? || carrierApps.value == [] || SystemApps(pm, carrierApps.value) == [] ==> actions == []
    ensures carrierApps.Some? && SystemApps(pm, carrierApps.value) != [] ==>
      actions == PolicyActions(SystemApps(pm, carrierApps.value), privileges,
                               Associated(pm, associatedConfig), handledSetting == 1)
  {
    var candidates := CandidatesHelper(pm, carrierApps);
    if candidates.None? || |candidates.value| == 0 {
      return [];
    }
    var associated := AssociatedAppsHelper(pm, associatedConfig);
    actions := RunPolicy(candidates.value, privileges, associated, handledSetting == 1);
  }

  /** The candidate loop and what follows it, for a non-empty candidate list. */
  method RunPolicy(cands: seq<ApplicationInfo>, privileges: Option<set<string>>,
                   associated: map<string, seq<ApplicationInfo>>, hasRunOnce: bool)
    returns (actions: seq<Action>)
    ensures actions == PolicyActions(cands, privileges, associated, hasRunOnce)
  {
    var enabled: seq<string> := [];
    actions := [];
    var i := 0;
    while i < |cands|
      invariant 0 <= i <= |cands|
      invariant actions == LoopActions(cands[..i], privileges, associated, hasRunOnce)
      invariant enabled == PrivilegedNames(cands[..i], privileges)
    {
      PolicyStep(cands, i, privileges, associated, hasRunOnce);
      var ai := cands[i];
      var hasPrivileges := privileges.Some? && ai.packageName in privileges.value;
      actions := CandidateStep(actions, ai, hasPrivileges, associated, hasRunOnce);
      if hasPrivileges {
        enabled := enabled + [ai.packageName];
      }
      i := i + 1;
    }
    assert cands[..i] == cands;
    if !hasRunOnce {
      actions := actions + [PutCarrierAppsHandled];
    }
    if |enabled| > 0 {
      actions := actions + [GrantDefaultPermissions(enabled)];
    }
  }

  /** The body of the candidate loop: the calls made for one candidate. */
  method CandidateStep(prefix: seq<Action>, ai: ApplicationInfo, hasPrivileges: bool,
                       associated: map<string, seq<ApplicationInfo>>, hasRunOnce: bool)
    returns (actions: seq<Action>)
    ensures actions == prefix + CandidateActions(ai, hasPrivileges, associated, hasRunOnce)
  {
    actions := prefix;
    var assoc := if ai.packageName in associated then associated[ai.packageName] else [];
    if hasPrivileges {
      if !ai.isUpdatedSystemApp && (ai.enabledSetting == DEFAULT || ai.enabledSetting == DISABLED_UNTIL_USED) {
        actions := actions + [SetApplicationEnabledSetting(ai.packageName, ENABLED, DONT_KILL_APP)];
      }
      actions := AppendAssociated(actions, assoc, true, hasRunOnce);
    } else {
      if !ai.isUpdatedSystemApp && ai.enabledSetting == DEFAULT {
        actions := actions + [SetApplicationEnabledSetting(ai.packageName, DISABLED_UNTIL_USED, 0)];
      }
      if !hasRunOnce {
        actions := AppendAssociated(actions, assoc, false, hasRunOnce);
      } else {
        AssociatedSilentAfterFirstRun(assoc);
      }
    }
  }

  /** The loop over one carrier app's associated apps. */
  method AppendAssociated(prefix: seq<Action>, apps: seq<ApplicationInfo>, privileged: bool, hasRunOnce: bool)
    returns (actions: seq<Action>)
    ensures actions == prefix + AssociatedActions(apps, privileged, hasRunOnce)
  {
    actions := prefix;
    var j := 0;
    while j < |apps|
      invariant 0 <= j <= |apps|
      invariant actions == prefix + AssociatedActions(apps[..j], privileged, hasRunOnce)
    {
      assert apps[..j + 1][..j] == apps[..j];
      var a := apps[j];
      if privileged && (a.enabledSetting == DEFAULT || a.enabledSetting == DISABLED_UNTIL_USED) {
        actions := actions + [SetApplicationEnabledSetting(a.packageName, ENABLED, DONT_KILL_APP)];
      } else if !privileged && !hasRunOnce && a.enabledSetting == DEFAULT {
        actions := actions + [SetApplicationEnabledSetting(a.packageName, DISABLED_UNTIL_USED, 0)];
      }
      j := j + 1;
    }
    assert apps[..j] == apps;
  }

  /** Associated apps of an unprivileged carrier app are left alone after the first run. */
  lemma {:induction false} AssociatedSilentAfterFirstRun(apps: seq<ApplicationInfo>)
    ensures AssociatedActions(apps, false, true) == []
  {
    if apps != [] {
      AssociatedSilentAfterFirstRun(apps[..|apps| - 1]);
    }
  }

  /**
   * Nothing the loop does touches an app the user explicitly enabled or
   * disabled: every enable targets an app in DEFAULT or DISABLED_UNTIL_USED
   * (a not-updated candidate or an associated app), every disable an app in
   * DEFAULT, and an unprivileged candidate's associated apps are disabled only
   * on the first run.
   */
  lemma {:induction false} AssociatedActionsRespectUser(apps: seq<ApplicationInfo>, privileged: bool, hasRunOnce: bool)
    ensures forall act :: act in AssociatedActions(apps, privileged, hasRunOnce) ==>
      act.SetApplicationEnabledSetting? &&
      exists a :: a in apps && a.packageName == act.packageName &&
        (act.state == ENABLED ==> privileged && a.enabledSetting in {DEFAULT, DISABLED_UNTIL_USED}) &&
        (act.state != ENABLED ==> !privileged && !hasRunOnce && act.state == DISABLED_UNTIL_USED && a.enabledSetting == DEFAULT)
  {
    if apps != [] {
      var init := apps[..|apps| - 1];
      AssociatedActionsRespectUser(init, privileged, hasRunOnce);
      forall act | act in AssociatedActions(apps, privileged, hasRunOnce)
        ensures act.SetApplicationEnabledSetting? &&
          exists a :: a in apps && a.packageName == act.packageName &&
            (act.state == ENABLED ==> privileged && a.enabledSetting in {DEFAULT, DISABLED_UNTIL_USED}) &&
            (act.state != ENABLED ==> !privileged && !hasRunOnce && act.state == DISABLED_UNTIL_USED && a.enabledSetting == DEFAULT)
      {
        if act in AssociatedActions(init, privileged, hasRunOnce) {
          var a :| a in init && a.packageName == act.packageName &&
            (act.state == ENABLED ==> privileged && a.enabledSetting in {DEFAULT, DISABLED_UNTIL_USED}) &&
            (act.state != ENABLED ==> !privileged && !hasRunOnce && act.state == DISABLED_UNTIL_USED && a.enabledSetting == DEFAULT);
          assert a in apps;
        } else {
          assert apps[|apps| - 1] in apps;
        }
      }
    }
  }

  /**
   * The candidate's own setting changes: ENABLED only for a privileged,
   * not-updated app in DEFAULT or DISABLED_UNTIL_USED; DISABLED_UNTIL_USED
   * only for an unprivileged, not-updated app in DEFAULT; otherwise none.
   */
  lemma CandidateOwnAction(ai: ApplicationInfo, privileged: bool, associated: map<string, seq<ApplicationInfo>>, hasRunOnce: bool)
    requires ai.packageName !in associated
    ensures CandidateActions(ai, privileged, associated, hasRunOnce) ==
      if privileged && !ai.isUpdatedSystemApp && ai.enabledSetting in {DEFAULT, DISABLED_UNTIL_USED}
      then [SetApplicationEnabledSetting(ai.packageName, ENABLED, DONT_KILL_APP)]
      else if !privileged && !ai.isUpdatedSystemApp && ai.enabledSetting == DEFAULT
      then [SetApplicationEnabledSetting(ai.packageName, DISABLED_UNTIL_USED, 0)]
      else []
  {
    assert AssociatedActions([], privileged, hasRunOnce) == [];
  }

  /** Without a TelephonyManager no candidate is privileged, so nothing is enabled or granted. */
  lemma {:induction false} NoTelephonyNoGrant(cands: seq<ApplicationInfo>)
    ensures PrivilegedNames(cands, None) == []
  {
    if cands != [] {
      NoTelephonyNoGrant(cands[..|cands| - 1]);
    }
  }

  /** The permission grant lists exactly the privileged candidates, in candidate order. */
  lemma {:induction false} GrantListsPrivileged(cands: seq<ApplicationInfo>, privileges: Option<set<string>>)
    ensures forall n :: n in PrivilegedNames(cands, privileges) <==>
      Privileged(privileges, n) && exists ai :: ai in cands && ai.packageName == n
  {
    if cands != [] {
      var init := cands[..|cands| - 1];
      GrantListsPrivileged(init, privileges);
      forall n ensures n in PrivilegedNames(cands, privileges) <==>
        Privileged(privileges, n) && exists ai :: ai in cands && ai.packageName == n
      {
        if Privileged(privileges, n) && exists ai :: ai in cands && ai.packageName == n {
          var ai :| ai in cands && ai.packageName == n;
          if ai != cands[|cands| - 1] {
            assert ai in init;
          }
        }
        if n in PrivilegedNames(init, privileges) {
          var ai :| ai in init && ai.packageName == n;
          assert ai in cands;
        }
        if n == cands[|cands| - 1].packageName {
          assert cands[|cands| - 1] in cands;
        }
      }
    }
  }

  /**
   * The handled flag is written exactly on the first run (and only when there
   * are candidates); the grant is issued exactly when some candidate is privileged.
   */
  lemma PolicyTail(cands: seq<ApplicationInfo>, privileges: Option<set<string>>,
                   associated: map<string, seq<ApplicationInfo>>, hasRunOnce: bool)
    ensures PutCarrierAppsHandled in PolicyActions(cands, privileges, associated, hasRunOnce) <==> !hasRunOnce
    ensures (exists ns :: GrantDefaultPermissions(ns) in PolicyActions(cands, privileges, associated, hasRunOnce)) <==>
      exists ai :: ai in cands && Privileged(privileges, ai.packageName)
  {
    LoopActionsKinds(cands, privileges, associated, hasRunOnce);
    GrantListsPrivileged(cands, privileges);
    var enabled := PrivilegedNames(cands, privileges);
    var p := PolicyActions(cands, privileges, associated, hasRunOnce);
    if exists ai :: ai in cands && Privileged(privileges, ai.packageName) {
      var ai :| ai in cands && Privileged(privileges, ai.packageName);
      assert ai.packageName in enabled;
      assert GrantDefaultPermissions(enabled) in p;
    }
    if exists ns :: GrantDefaultPermissions(ns) in p {
      var ns :| GrantDefaultPermissions(ns) in p;
      assert enabled != [];
      var n := enabled[0];
      assert n in enabled;
    }
  }

  /** The candidate loop itself only changes enabled settings. */
  lemma {:induction false} LoopActionsKinds(cands: seq<ApplicationInfo>, privileges: Option<set<string>>,
                                          associated: map<string, seq<ApplicationInfo>>, hasRunOnce: bool)
    ensures forall act :: act in LoopActions(cands, privileges, associated, hasRunOnce) ==> act.SetApplicationEnabledSetting?
  {
    if cands != [] {
      var ai := cands[|cands| - 1];
      LoopActionsKinds(cands[..|cands| - 1], privileges, associated, hasRunOnce);
      var assoc := if ai.packageName in associated then associated[ai.packageName] else [];
      AssociatedActionsRespectUser(assoc, Privileged(privileges, ai.packageName), hasRunOnce);
    }
  }

  // ---------------------------------------------------------------------------
  // getDefaultCarrierApps
  // ---------------------------------------------------------------------------

  function PrivilegedApps(cands: seq<ApplicationInfo>, privileges: set<string>): seq<ApplicationInfo>
  {
    if cands == [] then []
    else (if cands[0].packageName in privileges then [cands[0]] else []) + PrivilegedApps(cands[1..], privileges)
  }

  /**
   * Removing the unprivileged entries from the back keeps exactly the
   * privileged candidates in their original relative order.
   */
  lemma {:induction false} PrivilegedAppsExact(cands: seq<ApplicationInfo>, privileges: set<string>)
    ensures forall ai :: ai in PrivilegedApps(cands, privileges) <==> ai in cands && ai.packageName in privileges
  {
    if cands != [] {
      PrivilegedAppsExact(cands[1..], privileges);
      assert cands == [cands[0]] + cands[1..];
    }
  }

  /** One step of the backwards removal loop. */
  lemma RemovalStep(original: seq<ApplicationInfo>, list: seq<ApplicationInfo>, i: nat, privileges: set<string>)
    requires i < |original|
    requires list == original[..i + 1] + PrivilegedApps(original[i + 1..], privileges)
    ensures list[i] == original[i]
    ensures original[i].packageName in privileges ==>
      list == original[..i] + PrivilegedApps(original[i..], privileges)
    ensures original[i].packageName !in privileges ==>
      list[..i] + list[i + 1..] == original[..i] + PrivilegedApps(original[i..], privileges)
  {
    assert original[i..][1..] == original[i + 1..];
    assert original[..i + 1] == original[..i] + [original[i]];
  }

  /**
   * getDefaultCarrierApps: null when there are no candidates; otherwise the
   * candidate list with the unprivileged entries removed, walking from the end.
   */
  method DefaultCarrierApps(pm: PackageManager, privileges: set<string>, carrierApps: Option<seq<string>>)
    returns (apps: Option<seq<ApplicationInfo>>)
    ensures apps.None? <==> carrierApps.None? || SystemApps(pm, carrierApps.value) == []
    ensures apps.Some? ==> apps.value == PrivilegedApps(SystemApps(pm, carrierApps.value), privileges)
  {
    var candidates := CandidatesHelper(pm, carrierApps);
    if candidates.None? || |candidates.value| == 0 {
      return None;
    }
    var list := candidates.value;
    ghost var original := list;
    var i := |list| - 1;
    while i >= 0
      invariant -1 <= i < |original|
      invariant list == original[..i + 1] + PrivilegedApps(original[i + 1..], privileges)
    {
      RemovalStep(original, list, i, privileges);
      if list[i].packageName !in privileges {
        list := list[..i] + list[i + 1..];
      }
      i := i - 1;
    }
    assert original[0..] == original;
    return Some(list);
  }

  // ---------------------------------------------------------------------------
  // disableSpecialCarrierAppsUntilMatched
  // ---------------------------------------------------------------------------

  /** The lowest SIM slot whose operator code the app matches, or -1. */
  function MatchedSlot(info: SpecialCarrierApps.SpecialCarrierAppInfo, simCodes: seq<Option<string>>): (slot: int)
    ensures -1 <= slot < |simCodes|
    ensures slot >= 0 ==> SpecialCarrierApps.MatchesAgainstOperator(info, simCodes[slot])
    ensures forall j :: 0 <= j < |simCodes| && (slot == -1 || j < slot) ==>
      !SpecialCarrierApps.MatchesAgainstOperator(info, simCodes[j])
  {
    if simCodes == [] then -1
    else if SpecialCarrierApps.MatchesAgainstOperator(info, simCodes[0]) then 0
    else
      var rest := MatchedSlot(info, simCodes[1..]);
      if rest == -1 then -1 else rest + 1
  }

  /** The slot loop of the special-app pass. */
  method MatchSlot(info: SpecialCarrierApps.SpecialCarrierAppInfo, simCodes: seq<Option<string>>) returns (slot: int)
    ensures slot == MatchedSlot(info, simCodes)
  {
    var i := 0;
    while i < |simCodes|
      invariant 0 <= i <= |simCodes|
      invariant forall j :: 0 <= j < i ==> !SpecialCarrierApps.MatchesAgainstOperator(info, simCodes[j])
    {
      if SpecialCarrierApps.MatchesAgainstOperator(info, simCodes[i]) {
        MatchedSlotIsLowest(info, simCodes, i);
        return i;
      }
      i := i + 1;
    }
    MatchedSlotIsLowest(info, simCodes, -1);
    return -1;
  }

  /** MatchedSlot is determined by its contract. */
  lemma MatchedSlotIsLowest(info: SpecialCarrierApps.SpecialCarrierAppInfo, simCodes: seq<Option<string>>, slot: int)
    requires -1 <= slot < |simCodes|
    requires slot >= 0 ==> SpecialCarrierApps.MatchesAgainstOperator(info, simCodes[slot])
    requires forall j :: 0 <= j < |simCodes| && (slot == -1 || j < slot) ==>
      !SpecialCarrierApps.MatchesAgainstOperator(info, simCodes[j])
    ensures MatchedSlot(info, simCodes) == slot
  {
  }

  /**
   * The names with repeats dropped, each at its first occurrence: the
   * contents of the set built from the configured array.
   */
  function Distinct(names: seq<string>): (d: seq<string>)
    ensures forall n :: n in d <==> n in names
    ensures forall i, j :: 0 <= i < j < |d| ==> d[i] != d[j]
    ensures |d| <= |names|
  {
    if names == [] then []
    else
      var rest := Distinct(names[..|names| - 1]);
      if names[|names| - 1] in rest then rest else rest + [names[|names| - 1]]
  }

  /** The configured special apps, their operator codes and their intents, index by index. */
  datatype SpecialConfig = SpecialConfig(names: seq<string>, operatorCodes: seq<string>, intents: seq<string>)
  {
    predicate Parallel() { |operatorCodes| == |names| && |intents| == |names| }
  }

  /** Index of the first configured entry for the package, or |names| when there is none. */
  function ConfigIndex(names: seq<string>, packageName: string): (i: nat)
    ensures i <= |names|
    ensures i < |names| ==> names[i] == packageName
    ensures forall j :: 0 <= j < i ==> names[j] != packageName
  {
    if names == [] || names[0] == packageName then 0 else 1 + ConfigIndex(names[1..], packageName)
  }

  /** What the special-app pass does for one candidate. */
  datatype Decision = Skip | Act(action: Action) | Abort

  function SpecialDecision(ai: ApplicationInfo, config: SpecialConfig,
                           simCodes: seq<Option<string>>, simNames: seq<Option<string>>,
                           provisioned: Option<int>): Decision
    requires config.Parallel() && |simNames| == |simCodes|
  {
    if ai.isUpdatedSystemApp then Skip
    else
      var idx := ConfigIndex(config.names, ai.packageName);
      if idx == |config.names| || config.operatorCodes[idx] == "" then Skip
      else
        var unmatched := SpecialCarrierApps.NewInfo(ai.packageName, config.operatorCodes[idx], Some(config.intents[idx]));
        var slot := MatchedSlot(unmatched, simCodes);
        var info := if slot == -1 then unmatched else unmatched.(uiccSlotId := slot, carrierName := simNames[slot]);
        if SpecialCarrierApps.HasMatched(info) && ai.enabledSetting in {DEFAULT, DISABLED_UNTIL_USED} then
          match provisioned
          case None => Abort
          case Some(v) => Act(StartMatchService(info, v == 1))
        else if !SpecialCarrierApps.HasMatched(info) && ai.enabledSetting == DEFAULT then
          Act(SetApplicationEnabledSetting(ai.packageName, DISABLED_UNTIL_USED, 0))
        else Skip
  }

  /** The calls of the special-app pass over the candidates; a missing provisioning setting ends it. */
  function SpecialActions(cands: seq<ApplicationInfo>, config: SpecialConfig,
                          simCodes: seq<Option<string>>, simNames: seq<Option<string>>,
                          provisioned: Option<int>): seq<Action>
    requires config.Parallel() && |simNames| == |simCodes|
  {
    if cands == [] then []
    else
      match SpecialDecision(cands[0], config, simCodes, simNames, provisioned)
      case Skip => SpecialActions(cands[1..], config, simCodes, simNames, provisioned)
      case Act(a) => [a] + SpecialActions(cands[1..], config, simCodes, simNames, provisioned)
      case Abort => []
  }

  /**
   * The per-candidate rule: updated apps and apps without operator codes are
   * skipped; a matched app in DEFAULT or DISABLED_UNTIL_USED is handed to the
   * match service with the lowest matching slot and that SIM's carrier name;
   * an unmatched app in DEFAULT is set to DISABLED_UNTIL_USED; nothing else
   * is done.
   */
  lemma SpecialDecisionRule(ai: ApplicationInfo, config: SpecialConfig,
                            simCodes: seq<Option<string>>, simNames: seq<Option<string>>,
                            provisioned: Option<int>)
    requires config.Parallel() && |simNames| == |simCodes|
    ensures var d := SpecialDecision(ai, config, simCodes, simNames, provisioned);
      var idx := ConfigIndex(config.names, ai.packageName);
      (ai.isUpdatedSystemApp || idx == |config.names| || config.operatorCodes[idx] == "" ==> d == Skip) &&
      (d.Act? && d.action.SetApplicationEnabledSetting? ==>
        d.action == SetApplicationEnabledSetting(ai.packageName, DISABLED_UNTIL_USED, 0) &&
        ai.enabledSetting == DEFAULT &&
        forall j :: 0 <= j < |simCodes| ==>
          !SpecialCarrierApps.MatchesAgainstOperator(SpecialCarrierApps.NewInfo(ai.packageName, config.operatorCodes[idx], Some(config.intents[idx])), simCodes[j])) &&
      (d.Act? && d.action.StartMatchService? ==>
        var slot := d.action.info.uiccSlotId;
        ai.enabledSetting in {DEFAULT, DISABLED_UNTIL_USED} &&
        0 <= slot < |simCodes| && d.action.info.carrierName == simNames[slot] &&
        d.action.info.packageName == ai.packageName &&
        SpecialCarrierApps.MatchesAgainstOperator(d.action.info, simCodes[slot]) &&
        forall j :: 0 <= j < slot ==> !SpecialCarrierApps.MatchesAgainstOperator(d.action.info, simCodes[j])) &&
      (d == Abort ==> provisioned.None?)
  {
  }

  /** The special-app pass never changes an app the user explicitly enabled or disabled. */
  lemma {:induction false} SpecialRespectsUser(cands: seq<ApplicationInfo>, config: SpecialConfig,
                                               simCodes: seq<Option<string>>, simNames: seq<Option<string>>,
                                               provisioned: Option<int>)
    requires config.Parallel() && |simNames| == |simCodes|
    ensures forall a :: a in SpecialActions(cands, config, simCodes, simNames, provisioned) ==>
      (a.SetApplicationEnabledSetting? || a.StartMatchService?) &&
      (a.SetApplicationEnabledSetting? ==> (a.state == DISABLED_UNTIL_USED &&
         exists ai :: ai in cands && ai.packageName == a.packageName && ai.enabledSetting == DEFAULT && !ai.isUpdatedSystemApp))
  {
    if cands != [] {
      SpecialRespectsUser(cands[1..], config, simCodes, simNames, provisioned);
      var rest := SpecialActions(cands[1..], config, simCodes, simNames, provisioned);
      forall a | a in SpecialActions(cands, config, simCodes, simNames, provisioned)
        ensures (a.SetApplicationEnabledSetting? || a.StartMatchService?) &&
          (a.SetApplicationEnabledSetting? ==> (a.state == DISABLED_UNTIL_USED &&
            exists ai :: ai in cands && ai.packageName == a.packageName && ai.enabledSetting == DEFAULT && !ai.isUpdatedSystemApp))
      {
        if a in rest {
          if a.SetApplicationEnabledSetting? {
            var ai :| ai in cands[1..] && ai.packageName == a.packageName && ai.enabledSetting == DEFAULT && !ai.isUpdatedSystemApp;
            assert ai in cands;
          }
        } else {
          assert cands[0] in cands;
        }
      }
    }
  }

  /** The suffix from candidate i on: candidate i's decision, then the rest. */
  lemma SpecialActionsStep(cands: seq<ApplicationInfo>, i: nat, config: SpecialConfig,
                           simCodes: seq<Option<string>>, simNames: seq<Option<string>>, provisioned: Option<int>)
    requires config.Parallel() && |simNames| == |simCodes| && i < |cands|
    ensures SpecialActions(cands[i..], config, simCodes, simNames, provisioned)
         == match SpecialDecision(cands[i], config, simCodes, simNames, provisioned)
            case Skip => SpecialActions(cands[i + 1..], config, simCodes, simNames, provisioned)
            case Act(a) => [a] + SpecialActions(cands[i + 1..], config, simCodes, simNames, provisioned)
            case Abort => []
  {
    assert cands[i..][0] == cands[i] && cands[i..][1..] == cands[i + 1..];
  }

  /**
   * disableSpecialCarrierAppsUntilMatched: only for the system user; the
   * candidates are the installed system apps among the configured names,
   * each name once (the names go through a set first), and each SIM slot's
   * operator code and carrier name are inputs. deviceProvisioned is the
   * DEVICE_PROVISIONED setting (None when unset).
   */
  method DisableSpecialCarrierAppsUntilMatched(
    isSystemUser: bool, pm: PackageManager, config: SpecialConfig,
    simCodes: seq<Option<string>>, simNames: seq<Option<string>>, deviceProvisioned: Option<int>)
    returns (actions: seq<Action>)
    requires config.Parallel() && |simNames| == |simCodes|
    ensures !isSystemUser ==> actions == []
    ensures isSystemUser ==>
      actions == SpecialActions(SystemApps(pm, Distinct(config.names)), config, simCodes, simNames, deviceProvisioned)
  {
    actions := [];
    if !isSystemUser {
      return;
    }
    var candidates := CandidatesHelper(pm, Some(Distinct(config.names)));
    if candidates.None? || |candidates.value| == 0 {
      return;
    }
    actions := RunSpecial(candidates.value, config, simCodes, simNames, deviceProvisioned);
  }

  /** The candidate loop: stops at the first abort, otherwise collects every action decided. */
  method RunSpecial(cands: seq<ApplicationInfo>, config: SpecialConfig,
                    simCodes: seq<Option<string>>, simNames: seq<Option<string>>, deviceProvisioned: Option<int>)
    returns (actions: seq<Action>)
    requires config.Parallel() && |simNames| == |simCodes|
    ensures actions == SpecialActions(cands, config, simCodes, simNames, deviceProvisioned)
  {
    actions := [];
    var i := 0;
    while i < |cands|
      invariant 0 <= i <= |cands|
      invariant actions + SpecialActions(cands[i..], config, simCodes, simNames, deviceProvisioned)
             == SpecialActions(cands, config, simCodes, simNames, deviceProvisioned)
    {
      SpecialActionsStep(cands, i, config, simCodes, simNames, deviceProvisioned);
      var d := SpecialStep(cands[i], config, simCodes, simNames, deviceProvisioned);
      match d {
        case Abort =>
          return;
        case Act(a) =>
          actions := actions + [a];
        case Skip =>
      }
      i := i + 1;
    }
  }

  /** The body of the special-app loop for one candidate. */
  method SpecialStep(ai: ApplicationInfo, config: SpecialConfig,
                     simCodes: seq<Option<string>>, simNames: seq<Option<string>>, deviceProvisioned: Option<int>)
    returns (d: Decision)
    requires config.Parallel() && |simNames| == |simCodes|
    ensures d == SpecialDecision(ai, config, simCodes, simNames, deviceProvisioned)
  {
    if ai.isUpdatedSystemApp {
      return Skip;
    }
    var idx := 0;
    while idx < |config.names| && config.names[idx] != ai.packageName
      invariant 0 <= idx <= |config.names|
      invariant forall j :: 0 <= j < idx ==> config.names[j] != ai.packageName
    {
      idx := idx + 1;
    }
    ConfigIndexIsFirst(config.names, ai.packageName, idx);
    if idx == |config.names| || config.operatorCodes[idx] == "" {
      return Skip;
    }
    var info := SpecialCarrierApps.NewInfo(ai.packageName, config.operatorCodes[idx], Some(config.intents[idx]));
    var slot := MatchSlot(info, simCodes);
    if slot != -1 {
      info := info.(uiccSlotId := slot, carrierName := simNames[slot]);
    }
    if SpecialCarrierApps.HasMatched(info) && (ai.enabledSetting == DEFAULT || ai.enabledSetting == DISABLED_UNTIL_USED) {
      if deviceProvisioned.None? {
        return Abort;
      }
      return Act(StartMatchService(info, deviceProvisioned.value == 1));
    } else if !SpecialCarrierApps.HasMatched(info) && ai.enabledSetting == DEFAULT {
      return Act(SetApplicationEnabledSetting(ai.packageName, DISABLED_UNTIL_USED, 0));
    }
    return Skip;
  }

  lemma ConfigIndexIsFirst(names: seq<string>, packageName: string, idx: nat)
    requires idx <= |names|
    requires idx < |names| ==> names[idx] == packageName
    requires forall j :: 0 <= j < idx ==> names[j] != packageName
    ensures ConfigIndex(names, packageName) == idx
  {
  }
}
