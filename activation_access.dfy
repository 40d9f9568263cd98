/** From a combo to ACL ids (`_find_or_create_acl_id`): the devices of each time zone, the device
    group of each device set and the ACL entry of each (time zone, device group) pair. */
module ActivationAccess {
  import opened Wrappers
  import opened Text
  import opened ActivationBasics
  import opened ActivationCombos

  // ---------------------------------------------------------------------------------------------
  // Grants (ACLGrp) and the devices of each time zone.

  /** An ACLGrp row: an ACL group name grants a device in up to four time zones (0 = none). */
  datatype Grant = Grant(nameId: nat, dev: nat, tz1: nat, tz2: nat, tz3: nat, tz4: nat)

  predicate HasTz(g: Grant, tz: nat)
  {
    g.tz1 == tz || g.tz2 == tz || g.tz3 == tz || g.tz4 == tz
  }

  /** `SELECT Dev, Tz1, Tz2, Tz3, Tz4 FROM ACLGrp WHERE AclGrpNameID IN (...)`, in table order. */
  function Selected(grants: seq<Grant>, names: set<nat>): (r: seq<Grant>)
    ensures forall g :: g in r <==> g in grants && g.nameId in names
  {
    if |grants| == 0 then []
    else (if grants[0].nameId in names then [grants[0]] else []) + Selected(grants[1..], names)
  }

  /** `tz_to_dev_list`: the devices of each time zone. */
  type DeviceMap = map<nat, set<nat>>

  /** `tz_to_dev_list[tz].add(dev)` when `tz` is not 0. */
  function AddDevice(m: DeviceMap, tz: nat, dev: nat): DeviceMap
  {
    if tz == 0 then m else m[tz := (if tz in m then m[tz] else {}) + {dev}]
  }

  function AddGrant(m: DeviceMap, g: Grant): DeviceMap
  {
    AddDevice(AddDevice(AddDevice(AddDevice(m, g.tz1, g.dev), g.tz2, g.dev), g.tz3, g.dev), g.tz4, g.dev)
  }

  /** The `defaultdict` the loop over the granted rows builds. */
  function TzDevices(rows: seq<Grant>): DeviceMap
  {
    if |rows| == 0 then map[] else AddGrant(TzDevices(rows[..|rows| - 1]), rows[|rows| - 1])
  }

  /** The map lists device `d` under time zone `t`. */
  predicate Lists(m: DeviceMap, t: nat, d: nat)
  {
    t in m && d in m[t]
  }

  lemma {:induction false} AddGrantLists(m: DeviceMap, g: Grant, t: nat, d: nat)
    ensures Lists(AddGrant(m, g), t, d) <==> Lists(m, t, d) || (t != 0 && d == g.dev && HasTz(g, t))
  {
    var m1 := AddDevice(m, g.tz1, g.dev);
    var m2 := AddDevice(m1, g.tz2, g.dev);
    var m3 := AddDevice(m2, g.tz3, g.dev);
    assert Lists(m1, t, d) <==> Lists(m, t, d) || (t != 0 && d == g.dev && g.tz1 == t);
    assert Lists(m2, t, d) <==> Lists(m1, t, d) || (t != 0 && d == g.dev && g.tz2 == t);
    assert Lists(m3, t, d) <==> Lists(m2, t, d) || (t != 0 && d == g.dev && g.tz3 == t);
  }

  /** The device projection: device d is listed under time zone t exactly when t is not 0 and some
      granted row has Dev d and t among its four time zones. */
  lemma {:induction false} TzDevicesLists(rows: seq<Grant>, t: nat, d: nat)
    ensures Lists(TzDevices(rows), t, d) <==> t != 0 && exists i :: 0 <= i < |rows| && rows[i].dev == d && HasTz(rows[i], t)
  {
    if |rows| > 0 {
      var init := rows[..|rows| - 1];
      var g := rows[|rows| - 1];
      TzDevicesLists(init, t, d);
      AddGrantLists(TzDevices(init), g, t, d);
      if exists i :: 0 <= i < |rows| && rows[i].dev == d && HasTz(rows[i], t) {
        var i :| 0 <= i < |rows| && rows[i].dev == d && HasTz(rows[i], t);
        if i < |rows| - 1 {
          assert init[i] == rows[i];
        }
      }
      if exists i :: 0 <= i < |init| && init[i].dev == d && HasTz(init[i], t) {
        var i :| 0 <= i < |init| && init[i].dev == d && HasTz(init[i], t);
        assert rows[i] == init[i];
      }
    }
  }

  /** Every time zone in the map is a real one (not 0) with at least one device. */
  lemma {:induction false} TzDevicesKeys(rows: seq<Grant>)
    ensures forall t :: t in TzDevices(rows) ==> t != 0 && TzDevices(rows)[t] != {}
  {
    if |rows| > 0 {
      TzDevicesKeys(rows[..|rows| - 1]);
    }
  }

  /** The loop over the granted rows that fills the `defaultdict`. */
  method DevicesByTimeZone(rows: seq<Grant>) returns (m: DeviceMap)
    ensures m == TzDevices(rows)
  {
    m := map[];
    var i := 0;
    while i < |rows|
      invariant 0 <= i <= |rows|
      invariant m == TzDevices(rows[..i])
    {
      var access := rows[i];
      assert rows[..i + 1][..i] == rows[..i];
      m := AddDevice(m, access.tz1, access.dev);
      m := AddDevice(m, access.tz2, access.dev);
      m := AddDevice(m, access.tz3, access.dev);
      m := AddDevice(m, access.tz4, access.dev);
      i := i + 1;
    }
    assert rows[..i] == rows;
  }

  // ---------------------------------------------------------------------------------------------
  // Device groups (DGRP): an id (a Double in the database) and the 128 bits D0 … D127, given
  // here as the set of devices whose bit is on.

  datatype DGroup = DGroup(dgrp: real, dlFlag: int, ckSum: int, devices: set<nat>)

  /** A group agrees with a device set when each of the bits D0 … D127 is on exactly for the
      devices of the set. */
  predicate Agrees(devs: set<nat>, g: DGroup)
  {
    forall d :: 0 <= d < 128 ==> (d in devs <==> d in g.devices)
  }

  /** The id of the first group that agrees with the device set. */
  function FirstAgreeing(groups: seq<DGroup>, devs: set<nat>): Option<real>
  {
    match FindFirst(groups, (g: DGroup) => Agrees(devs, g))
    case None => None
    case Some(k) => Some(groups[k].dgrp)
  }

  /** The inner loop: the 128 bits are compared in order, stopping at the first that differs. */
  method GroupAgrees(devs: set<nat>, g: DGroup) returns (valid: bool)
    ensures valid == Agrees(devs, g)
  {
    valid := true;
    var dev := 0;
    while dev < 128
      invariant 0 <= dev <= 128
      invariant valid
      invariant forall d :: 0 <= d < dev ==> (d in devs <==> d in g.devices)
    {
      if (dev in devs) != (dev in g.devices) {
        valid := false;
        break;
      }
      dev := dev + 1;
    }
  }

  /** The outer loop of `_find_or_create_matching_device_group`: the first group that agrees. */
  method MatchDeviceGroup(devs: set<nat>, groups: seq<DGroup>) returns (r: Option<real>)
    ensures r == FirstAgreeing(groups, devs)
  {
    var i := 0;
    while i < |groups|
      invariant 0 <= i <= |groups|
      invariant forall j :: 0 <= j < i ==> !Agrees(devs, groups[j])
    {
      var valid := GroupAgrees(devs, groups[i]);
      if valid {
        return Some(groups[i].dgrp);
      }
      i := i + 1;
    }
    return None;
  }

  /** `float.is_integer`. */
  predicate Integral(x: real)
  {
    x.Floor as real == x
  }

  /** `[int(x.DGrp) for x in group_names if float.is_integer(x.DGrp)]`. */
  function IntegralIds(groups: seq<DGroup>): seq<int>
  {
    if |groups| == 0 then []
    else (if Integral(groups[0].dgrp) then [groups[0].dgrp.Floor] else []) + IntegralIds(groups[1..])
  }

  /** An integer is in the list exactly when some group has it as its id. */
  lemma {:induction false} IntegralIdsHas(groups: seq<DGroup>, n: int)
    ensures n in IntegralIds(groups) <==> exists i :: 0 <= i < |groups| && groups[i].dgrp == n as real
  {
    if |groups| > 0 {
      var tail := groups[1..];
      IntegralIdsHas(tail, n);
      if exists i :: 0 <= i < |groups| && groups[i].dgrp == n as real {
        var i :| 0 <= i < |groups| && groups[i].dgrp == n as real;
        if i > 0 {
          assert tail[i - 1] == groups[i];
        }
      }
      if exists i :: 0 <= i < |tail| && tail[i].dgrp == n as real {
        var i :| 0 <= i < |tail| && tail[i].dgrp == n as real;
        assert groups[i + 1] == tail[i];
      }
    }
  }

  function SeqMax(s: seq<int>): (m: int)
    requires |s| > 0
    ensures m in s && forall x :: x in s ==> x <= m
  {
    if |s| == 1 then s[0]
    else
      var rest := SeqMax(s[1..]);
      assert forall x :: x in s ==> x == s[0] || x in s[1..];
      if s[0] >= rest then s[0] else rest
  }

  /** `max(...) + 1`: the next device group id, or the ValueError of `max` on no integral id. */
  function NextDGrp(groups: seq<DGroup>): Result<int, Raised>
  {
    var ids := IntegralIds(groups);
    if |ids| == 0 then Err(MaxOfEmpty) else Ok(SeqMax(ids) + 1)
  }

  /** The next id is one more than the largest integral id, so no group has it; `max` fails
      exactly when no group id is integral. */
  lemma {:induction false} NextDGrpFresh(groups: seq<DGroup>)
    ensures NextDGrp(groups).Ok? ==>
      (forall i :: 0 <= i < |groups| ==> groups[i].dgrp != NextDGrp(groups).value as real) &&
      (exists i :: 0 <= i < |groups| && groups[i].dgrp == (NextDGrp(groups).value - 1) as real)
    ensures NextDGrp(groups).Err? <==> forall i :: 0 <= i < |groups| ==> !Integral(groups[i].dgrp)
  {
    var ids := IntegralIds(groups);
    forall i | 0 <= i < |groups| && Integral(groups[i].dgrp) ensures groups[i].dgrp.Floor in ids {
      IntegralIdsHas(groups, groups[i].dgrp.Floor);
    }
    if |ids| > 0 {
      IntegralIdsHas(groups, SeqMax(ids));
    }
  }

  // ---------------------------------------------------------------------------------------------
  // The INSERT statement for a new device group.

  /** `, D0, D1, …` for the first n device columns. */
  function ColumnList(n: nat): string
  {
    if n == 0 then "" else ColumnList(n - 1) + ", D" + NatToString(n - 1)
  }

  /** `, ?` n times. */
  function Placeholders(n: nat): (s: string)
    ensures |s| == 3 * n
  {
    if n == 0 then "" else Placeholders(n - 1) + ", ?"
  }

  const DGroupInsertHead := "INSERT INTO DGRP(DGrp, DlFlag, CkSum"
  const DGroupInsertMid := ") VALUES ("

  /** The statement text for a group of `n` device columns: the columns DGrp, DlFlag, CkSum and
      D0 … D(n-1), and one placeholder for each of the n + 3 columns. */
  function DGroupInsert(n: nat): string
  {
    DGroupInsertHead + ColumnList(n) + DGroupInsertMid + Placeholders(n + 3) + ")"
  }

  /** The first loop: the column names. */
  method BuildColumns(n: nat) returns (columns: string)
    ensures columns == ColumnList(n)
  {
    columns := "";
    var i := 0;
    while i < n
      invariant 0 <= i <= n
      invariant columns == ColumnList(i)
    {
      columns := columns + ", D" + NatToString(i);
      i := i + 1;
    }
  }

  /** The placeholder loops. */
  method BuildPlaceholders(n: nat) returns (marks: string)
    ensures marks == Placeholders(n)
  {
    marks := "";
    var i := 0;
    while i < n
      invariant 0 <= i <= n
      invariant marks == Placeholders(i)
    {
      marks := marks + ", ?";
      i := i + 1;
    }
  }

  /** The loops of the creation path that build the statement. */
  method BuildDGroupInsert(n: nat) returns (sql: string)
    ensures sql == DGroupInsert(n)
  {
    var columns := BuildColumns(n);
    var marks := BuildPlaceholders(n + 3);
    sql := DGroupInsertHead + columns + DGroupInsertMid + marks + ")";
  }

  lemma {:induction false} PlaceholdersFront(n: nat)
    ensures Placeholders(n + 1) == ", ?" + Placeholders(n)
  {
    if n > 0 {
      PlaceholdersFront(n - 1);
    }
  }

  /** Whatever the number of device columns, the statement has a placeholder for each column but
      opens its values list with a comma, `VALUES (, ?, ?…`: the database refuses it, so no device
      group is ever created. */
  lemma {:induction false} DGroupInsertMalformed(n: nat)
    ensures DGroupInsert(n) == DGroupInsertHead + ColumnList(n) + ") VALUES (, ?" + Placeholders(n + 2) + ")"
  {
    PlaceholdersFront(n + 2);
    assert DGroupInsertMid + ", ?" == ") VALUES (, ?";
  }

  /** What the creation path of `_find_or_create_matching_device_group` raises: `max` of no id,
      or the database's refusal of the INSERT. */
  function GroupCreationError(groups: seq<DGroup>): Raised
  {
    if NextDGrp(groups).Err? then MaxOfEmpty else MalformedInsert
  }

  /** `_find_or_create_matching_device_group`: an agreeing group's id, or else the failure of the
      creation path. */
  function DeviceGroupOutcome(groups: seq<DGroup>, devs: set<nat>): Result<real, Raised>
  {
    match FirstAgreeing(groups, devs)
    case Some(g) => Ok(g)
    case None => Err(GroupCreationError(groups))
  }

  method FindOrCreateMatchingDeviceGroup(devs: set<nat>, groups: seq<DGroup>) returns (r: Result<real, Raised>)
    ensures r == DeviceGroupOutcome(groups, devs)
  {
    var found := MatchDeviceGroup(devs, groups);
    if found.Some? {
      return Ok(found.value);
    }
    var next := NextDGrp(groups);
    if next.Err? {
      return Err(next.error);
    }
    var sql := BuildDGroupInsert(128);
    DGroupInsertMalformed(128);
    return Err(MalformedInsert);
  }

  /** A group is reused only if it agrees on all 128 bits, and creation is reached only when none
      does; creation never yields a group. */
  lemma {:induction false} DeviceGroupReuse(groups: seq<DGroup>, devs: set<nat>)
    ensures DeviceGroupOutcome(groups, devs).Ok? <==> exists i :: 0 <= i < |groups| && Agrees(devs, groups[i])
    ensures DeviceGroupOutcome(groups, devs).Ok? ==>
      exists i :: 0 <= i < |groups| && Agrees(devs, groups[i]) && groups[i].dgrp == DeviceGroupOutcome(groups, devs).value
  {
    var p := (g: DGroup) => Agrees(devs, g);
    if exists i :: 0 <= i < |groups| && Agrees(devs, groups[i]) {
      var i :| 0 <= i < |groups| && Agrees(devs, groups[i]);
      assert p(groups[i]);
    }
  }

  // ---------------------------------------------------------------------------------------------
  // ACL entries.

  /** An ACL row: the entry `acl` for a time zone and a device group. */
  datatype AclRow = AclRow(loc: int, acl: nat, tz: nat, dgrp: real, dlFlag: int, ckSum: int)

  /** What the creation path of `_find_or_create_matching_acl` raises: its next-id expression reads
      `x.DGrp` on rows of `SELECT Acl FROM ACL`, which have no such column, or takes `max` of
      nothing when the table is empty. */
  function AclCreationError(acls: seq<AclRow>): Raised
  {
    if |acls| == 0 then MaxOfEmpty else NoDGrpColumn
  }

  /** `_find_or_create_matching_acl`: the first entry for the pair, or the creation path's error. */
  function MatchingAcl(acls: seq<AclRow>, tz: nat, dgrp: real): (r: Result<nat, Raised>)
    ensures r.Ok? <==> exists i :: 0 <= i < |acls| && acls[i].tz == tz && acls[i].dgrp == dgrp
    ensures r.Ok? ==> exists i :: 0 <= i < |acls| && acls[i].tz == tz && acls[i].dgrp == dgrp && acls[i].acl == r.value
    ensures r.Err? ==> r.error == AclCreationError(acls)
  {
    match FindFirst(acls, (a: AclRow) => a.tz == tz && a.dgrp == dgrp)
    case Some(k) => Ok(acls[k].acl)
    case None => Err(AclCreationError(acls))
  }

  /** The agreeing group's id, where there is one. */
  function GroupOf(groups: seq<DGroup>, devs: set<nat>): real
  {
    match FirstAgreeing(groups, devs)
    case Some(g) => g
    case None => 0.0
  }

  /** The pair's ACL entry, where there is one. */
  function AclOf(acls: seq<AclRow>, tz: nat, dgrp: real): nat
  {
    match MatchingAcl(acls, tz, dgrp)
    case Ok(a) => a
    case Err(_) => 0
  }

  /** The first loop of `_find_or_create_acl_id`: the device group of every time zone, or the first
      failure (which is the same whichever time zone fails). */
  function DeviceGroups(m: DeviceMap, groups: seq<DGroup>): Result<map<nat, real>, Raised>
  {
    if exists t :: t in m && FirstAgreeing(groups, m[t]).None? then Err(GroupCreationError(groups))
    else Ok(map t | t in m :: GroupOf(groups, m[t]))
  }

  /** The second loop: the set of the ACL entries of the pairs, or the first failure. */
  function AclsOf(tg: map<nat, real>, acls: seq<AclRow>): Result<set<nat>, Raised>
  {
    if exists t :: t in tg && MatchingAcl(acls, t, tg[t]).Err? then Err(AclCreationError(acls))
    else Ok(set t | t in tg :: AclOf(acls, t, tg[t]))
  }

  /** `_find_or_create_acl_id` for one combo; all device groups are resolved before any ACL
      entry. */
  function AclIds(grants: seq<Grant>, combos: seq<ComboRow>, groups: seq<DGroup>, acls: seq<AclRow>, combo: nat)
    : Result<set<nat>, Raised>
  {
    match DeviceGroups(TzDevices(Selected(grants, Members(combos, combo))), groups)
    case Err(e) => Err(e)
    case Ok(tg) => AclsOf(tg, acls)
  }

  /** One time zone without an agreeing group makes the whole lookup fail. */
  lemma {:induction false} DeviceGroupsFail(m: DeviceMap, groups: seq<DGroup>, t: nat)
    requires t in m && FirstAgreeing(groups, m[t]).None?
    ensures DeviceGroups(m, groups) == Err(GroupCreationError(groups))
  {
  }

  /** A map holding the agreeing group of every time zone is the lookup's result. */
  lemma {:induction false} DeviceGroupsAll(m: DeviceMap, groups: seq<DGroup>, tg: map<nat, real>)
    requires tg.Keys == m.Keys
    requires forall t :: t in tg ==> FirstAgreeing(groups, m[t]) == Some(tg[t])
    ensures DeviceGroups(m, groups) == Ok(tg)
  {
    forall t | t in m ensures FirstAgreeing(groups, m[t]).Some? {
      assert t in tg;
    }
    assert !exists t :: t in m && FirstAgreeing(groups, m[t]).None?;
    assert DeviceGroups(m, groups).Ok?;
    assert DeviceGroups(m, groups).value == map t | t in m :: GroupOf(groups, m[t]);
    forall t | t in tg ensures tg[t] == GroupOf(groups, m[t]) { }
    assert tg == map t | t in m :: GroupOf(groups, m[t]);
  }

  /** The loop over `tz_to_dev_list`. Python visits the time zones in insertion order; the outcome
      does not depend on the order. */
  method ResolveDeviceGroups(m: DeviceMap, groups: seq<DGroup>) returns (r: Result<map<nat, real>, Raised>)
    ensures r == DeviceGroups(m, groups)
  {
    var todo := m.Keys;
    var tg: map<nat, real> := map[];
    while todo != {}
      invariant todo <= m.Keys && tg.Keys == m.Keys - todo
      invariant forall t :: t in tg ==> FirstAgreeing(groups, m[t]) == Some(tg[t])
      decreases |todo|
    {
      var t :| t in todo;
      var g := FindOrCreateMatchingDeviceGroup(m[t], groups);
      if g.Err? {
        DeviceGroupsFail(m, groups, t);
        return Err(g.error);
      }
      tg := tg[t := g.value];
      todo := todo - {t};
    }
    DeviceGroupsAll(m, groups, tg);
    return Ok(tg);
  }

  /** One pair without an ACL entry makes the whole lookup fail. */
  lemma {:induction false} AclsOfFail(tg: map<nat, real>, acls: seq<AclRow>, t: nat)
    requires t in tg && MatchingAcl(acls, t, tg[t]).Err?
    ensures AclsOf(tg, acls) == Err(AclCreationError(acls))
  {
  }

  /** The set of the entries of every pair is the lookup's result. */
  lemma {:induction false} AclsOfAll(tg: map<nat, real>, acls: seq<AclRow>, ids: set<nat>)
    requires forall t :: t in tg ==> MatchingAcl(acls, t, tg[t]).Ok?
    requires ids == AclsAt(tg, acls, tg.Keys)
    ensures AclsOf(tg, acls) == Ok(ids)
  {
  }

  /** The loop over `tz_to_device_group`, collecting the ACL ids in a set. */
  method ResolveAcls(tg: map<nat, real>, acls: seq<AclRow>) returns (r: Result<set<nat>, Raised>)
    ensures r == AclsOf(tg, acls)
  {
    var ids: set<nat> := {};
    var rest := tg.Keys;
    while rest != {}
      invariant rest <= tg.Keys
      invariant forall t :: t in tg.Keys - rest ==> MatchingAcl(acls, t, tg[t]).Ok?
      invariant ids == AclsAt(tg, acls, tg.Keys - rest)
      decreases |rest|
    {
      var t :| t in rest;
      var a := MatchingAcl(acls, t, tg[t]);
      if a.Err? {
        AclsOfFail(tg, acls, t);
        return Err(a.error);
      }
      AclsStep(tg, acls, tg.Keys - rest, t);
      assert tg.Keys - (rest - {t}) == (tg.Keys - rest) + {t};
      ids := ids + {a.value};
      rest := rest - {t};
    }
    assert tg.Keys - rest == tg.Keys;
    AclsOfAll(tg, acls, ids);
    return Ok(ids);
  }

  /** The ACL ids of the time zones `ts`. */
  ghost function AclsAt(tg: map<nat, real>, acls: seq<AclRow>, ts: set<nat>): set<nat>
    requires ts <= tg.Keys
  {
    set t | t in ts :: AclOf(acls, t, tg[t])
  }

  lemma {:induction false} AclsStep(tg: map<nat, real>, acls: seq<AclRow>, done: set<nat>, t: nat)
    requires done <= tg.Keys && t in tg
    requires MatchingAcl(acls, t, tg[t]).Ok?
    ensures AclsAt(tg, acls, done + {t}) == AclsAt(tg, acls, done) + {MatchingAcl(acls, t, tg[t]).value}
  {
    assert AclOf(acls, t, tg[t]) == MatchingAcl(acls, t, tg[t]).value;
  }

  /** `_find_or_create_acl_id`: the device map, then the two loops. */
  method AclIdsFor(grants: seq<Grant>, combos: seq<ComboRow>, groups: seq<DGroup>, acls: seq<AclRow>, combo: nat)
    returns (r: Result<set<nat>, Raised>)
    ensures r == AclIds(grants, combos, groups, acls, combo)
  {
    var m := DevicesByTimeZone(Selected(grants, Members(combos, combo)));
    var tg := ResolveDeviceGroups(m, groups);
    if tg.Err? {
      return Err(tg.error);
    }
    r := ResolveAcls(tg.value, acls);
  }

  /** The device groups resolved are ones that agree with their time zone's devices, one for each
      time zone; the lookup fails exactly when some time zone has no agreeing group. */
  lemma {:induction false} DeviceGroupsMeans(m: DeviceMap, groups: seq<DGroup>)
    ensures DeviceGroups(m, groups).Err? <==>
      exists t :: t in m && forall i :: 0 <= i < |groups| ==> !Agrees(m[t], groups[i])
    ensures DeviceGroups(m, groups).Ok? ==> var tg := DeviceGroups(m, groups).value;
      tg.Keys == m.Keys &&
      forall t :: t in tg ==> exists i :: 0 <= i < |groups| && Agrees(m[t], groups[i]) && groups[i].dgrp == tg[t]
  {
    forall t | t in m ensures FirstAgreeing(groups, m[t]).None? <==> forall i :: 0 <= i < |groups| ==> !Agrees(m[t], groups[i]) {
      DeviceGroupReuse(groups, m[t]);
    }
    if DeviceGroups(m, groups).Ok? {
      var tg := DeviceGroups(m, groups).value;
      forall t | t in tg ensures exists i :: 0 <= i < |groups| && Agrees(m[t], groups[i]) && groups[i].dgrp == tg[t] {
        DeviceGroupReuse(groups, m[t]);
      }
    }
  }

  /** Each ACL id found is the entry of some pair, and each pair contributes its entry. */
  lemma {:induction false} AclsOfOk(tg: map<nat, real>, acls: seq<AclRow>, ids: set<nat>)
    requires AclsOf(tg, acls) == Ok(ids)
    ensures forall a :: a in ids ==> exists t, i :: t in tg && 0 <= i < |acls| && acls[i].acl == a && acls[i].tz == t && acls[i].dgrp == tg[t]
    ensures forall t :: t in tg ==> exists i :: 0 <= i < |acls| && acls[i].tz == t && acls[i].dgrp == tg[t] && acls[i].acl in ids
  {
    AclsOfFound(tg, acls, ids);
    AclIdsEntries(tg, acls, ids);
    PairsEntries(tg, acls, ids);
  }

  lemma {:induction false} AclsOfFound(tg: map<nat, real>, acls: seq<AclRow>, ids: set<nat>)
    requires AclsOf(tg, acls) == Ok(ids)
    ensures forall t :: t in tg ==> MatchingAcl(acls, t, tg[t]).Ok?
    ensures ids == set t | t in tg :: AclOf(acls, t, tg[t])
  {
  }

  lemma {:induction false} AclIdsEntries(tg: map<nat, real>, acls: seq<AclRow>, ids: set<nat>)
    requires forall t :: t in tg ==> MatchingAcl(acls, t, tg[t]).Ok?
    requires ids == set t | t in tg :: AclOf(acls, t, tg[t])
    ensures forall a :: a in ids ==> exists t, i :: t in tg && 0 <= i < |acls| && acls[i].acl == a && acls[i].tz == t && acls[i].dgrp == tg[t]
  {
    forall a | a in ids
      ensures exists t, i :: t in tg && 0 <= i < |acls| && acls[i].acl == a && acls[i].tz == t && acls[i].dgrp == tg[t]
    {
      AclIdEntry(tg, acls, ids, a);
    }
  }

  lemma {:induction false} PairsEntries(tg: map<nat, real>, acls: seq<AclRow>, ids: set<nat>)
    requires forall t :: t in tg ==> MatchingAcl(acls, t, tg[t]).Ok?
    requires ids == set t | t in tg :: AclOf(acls, t, tg[t])
    ensures forall t :: t in tg ==> exists i :: 0 <= i < |acls| && acls[i].tz == t && acls[i].dgrp == tg[t] && acls[i].acl in ids
  {
    forall t | t in tg ensures exists i :: 0 <= i < |acls| && acls[i].tz == t && acls[i].dgrp == tg[t] && acls[i].acl in ids {
      assert AclOf(acls, t, tg[t]) in ids;
    }
  }

  /** The lookup fails exactly when some pair has no entry. */
  lemma {:induction false} AclsOfErr(tg: map<nat, real>, acls: seq<AclRow>)
    ensures AclsOf(tg, acls).Err? <==>
      exists t :: t in tg && forall i :: 0 <= i < |acls| ==> !(acls[i].tz == t && acls[i].dgrp == tg[t])
  {
    forall t | t in tg
      ensures MatchingAcl(acls, t, tg[t]).Err? <==> forall i :: 0 <= i < |acls| ==> !(acls[i].tz == t && acls[i].dgrp == tg[t])
    {
    }
  }

  lemma {:induction false} AclIdEntry(tg: map<nat, real>, acls: seq<AclRow>, ids: set<nat>, a: nat)
    requires forall t :: t in tg ==> MatchingAcl(acls, t, tg[t]).Ok?
    requires ids == set t | t in tg :: AclOf(acls, t, tg[t])
    requires a in ids
    ensures exists t, i :: t in tg && 0 <= i < |acls| && acls[i].acl == a && acls[i].tz == t && acls[i].dgrp == tg[t]
  {
    var t :| t in tg && AclOf(acls, t, tg[t]) == a;
    assert MatchingAcl(acls, t, tg[t]).Ok?;
  }
}
