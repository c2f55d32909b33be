/** What a principal may do at a tenant, with roles inherited down the tree
    (libs/common/sovereign/tenancy/authz.py, models.py). */
module Authz {
  import opened Prelude
  import opened TenantTree

  datatype Role = PlatformAdmin | AgencyAdmin | BureauAdmin | ProgramTeam | Auditor

  /** One principal's binding. */
  datatype Binding = Binding(tenantId: string, role: Role)

  datatype EffectiveAuthz = EffectiveAuthz(tenantId: string, roles: set<Role>, inheritedFrom: map<string, set<Role>>)

  function ActionsOf(role: Role): set<string> {
    match role
    case PlatformAdmin => {"provision", "deprovision", "update", "bind", "read", "read-audit", "manage-tenant",
                           "manage-roles", "manage-quotas"}
    case AgencyAdmin => {"provision", "deprovision", "update", "bind", "read", "read-audit", "manage-tenant",
                         "manage-roles", "manage-quotas"}
    case BureauAdmin => {"provision", "deprovision", "update", "bind", "read", "read-audit", "manage-roles",
                         "manage-quotas"}
    case ProgramTeam => {"provision", "deprovision", "update", "bind", "read"}
    case Auditor => {"read", "read-audit"}
  }

  predicate Grants(roles: set<Role>, action: string) {
    exists r :: r in roles && action in ActionsOf(r)
  }

  /** The same table read by action: who may do what. */
  lemma WhoMayDoWhat(r: Role)
    ensures "read" in ActionsOf(r)
    ensures "read-audit" in ActionsOf(r) <==> r != ProgramTeam
    ensures forall a :: a in {"provision", "deprovision", "update", "bind"} ==> (a in ActionsOf(r) <==> r != Auditor)
    ensures "manage-tenant" in ActionsOf(r) <==> r in {PlatformAdmin, AgencyAdmin}
    ensures forall a :: a in {"manage-roles", "manage-quotas"} ==>
              (a in ActionsOf(r) <==> r in {PlatformAdmin, AgencyAdmin, BureauAdmin})
    ensures forall a :: a in ActionsOf(r) ==>
              a in {"read", "read-audit", "provision", "deprovision", "update", "bind",
                    "manage-tenant", "manage-roles", "manage-quotas"}
  {
  }

  // ---------------------------------------------------------------- the rule

  /** A binding counts at its own tenant, below it, and everywhere for a platform admin. */
  ghost predicate Applies(idx: Index, b: Binding, t: string) {
    b.tenantId == t || b.tenantId in AncestorIds(idx, t) || b.role == PlatformAdmin
  }

  ghost function RolesAt(idx: Index, bindings: seq<Binding>, t: string): set<Role> {
    set b | b in bindings && Applies(idx, b, t) :: b.role
  }

  /** The roles that tenant k passes on to t. */
  ghost function InheritedRoles(idx: Index, bindings: seq<Binding>, t: string, k: string): set<Role> {
    set b | b in bindings && b.tenantId == k &&
      (k in AncestorIds(idx, t) || (b.role == PlatformAdmin && k != t)) :: b.role
  }

  // ---------------------------------------------------------------- the resolver

  function RolesBoundAt(bindings: seq<Binding>, t: string): set<Role> {
    set b | b in bindings && b.tenantId == t :: b.role
  }

  method InheritFromAncestors(bindings: seq<Binding>, ancestors: seq<Tenant>)
    returns (inherited: map<string, set<Role>>)
    ensures forall k :: k in inherited <==> k in Ids(ancestors) && RolesBoundAt(bindings, k) != {}
    ensures forall k :: k in inherited ==> inherited[k] == RolesBoundAt(bindings, k)
  {
    inherited := map[];
    for i := 0 to |ancestors|
      invariant forall k :: k in inherited <==> k in Ids(ancestors[..i]) && RolesBoundAt(bindings, k) != {}
      invariant forall k :: k in inherited ==> inherited[k] == RolesBoundAt(bindings, k)
    {
      assert ancestors[..i + 1] == ancestors[..i] + [ancestors[i]];
      IdsSnoc(ancestors[..i], ancestors[i]);
      var roles := RolesBoundAt(bindings, ancestors[i].id);
      if roles != {} {
        inherited := inherited[ancestors[i].id := roles];
      }
    }
    assert ancestors[..|ancestors|] == ancestors;
  }

  /** base with a platform-admin role added at every other tenant that binds one. */
  ghost predicate WithAdmins(bindings: seq<Binding>, t: string, base: map<string, set<Role>>,
                             inherited: map<string, set<Role>>) {
    && (forall k :: k in inherited <==> k in base || (k != t && Binding(k, PlatformAdmin) in bindings))
    && (forall k :: k in inherited ==>
          inherited[k] == (if k in base then base[k] else {})
                          + if k != t && Binding(k, PlatformAdmin) in bindings then {PlatformAdmin} else {})
  }

  method InheritPlatformAdmin(bindings: seq<Binding>, t: string, base: map<string, set<Role>>)
    returns (inherited: map<string, set<Role>>)
    ensures WithAdmins(bindings, t, base, inherited)
  {
    inherited := base;
    for i := 0 to |bindings|
      invariant WithAdmins(bindings[..i], t, base, inherited)
    {
      assert bindings[..i + 1] == bindings[..i] + [bindings[i]];
      var b := bindings[i];
      if b.role == PlatformAdmin && b.tenantId != t {
        var k := b.tenantId;
        inherited := inherited[k := (if k in inherited then inherited[k] else {}) + {PlatformAdmin}];
      }
    }
    assert bindings[..|bindings|] == bindings;
  }

  method UnionAll(direct: set<Role>, inherited: map<string, set<Role>>) returns (roles: set<Role>)
    ensures forall r :: r in roles <==> r in direct || exists k :: k in inherited && r in inherited[k]
  {
    roles := direct;
    var left := inherited.Keys;
    while left != {}
      invariant left <= inherited.Keys
      invariant forall r :: r in roles <==> r in direct || exists k :: k in inherited && k !in left && r in inherited[k]
      decreases |left|
    {
      var k :| k in left;
      roles := roles + inherited[k];
      left := left - {k};
    }
  }

  /** The snapshot holds exactly the roles the inheritance rule gives, and records
      for every tenant exactly the roles it passed on. */
  method EffectiveRolesAt(rows: seq<Tenant>, bindings: seq<Binding>, t: string) returns (e: EffectiveAuthz)
    ensures e.tenantId == t && e.roles == RolesAt(IndexOf(rows), bindings, t)
    ensures forall k :: k in e.inheritedFrom <==> InheritedRoles(IndexOf(rows), bindings, t, k) != {}
    ensures forall k :: k in e.inheritedFrom ==> e.inheritedFrom[k] == InheritedRoles(IndexOf(rows), bindings, t, k)
  {
    var direct := RolesBoundAt(bindings, t);
    var ancestors := GetAncestors(rows, t);
    var fromAncestors := InheritFromAncestors(bindings, ancestors);
    var inherited := InheritPlatformAdmin(bindings, t, fromAncestors);
    var roles := UnionAll(direct, inherited);
    InheritedIsExact(IndexOf(rows), bindings, t, fromAncestors, inherited);
    RolesAreExact(IndexOf(rows), bindings, t, roles);
    e := EffectiveAuthz(t, roles, inherited);
  }

  lemma InheritedIsExact(idx: Index, bindings: seq<Binding>, t: string, base: map<string, set<Role>>,
                         inherited: map<string, set<Role>>)
    requires forall k :: k in base <==> k in AncestorIds(idx, t) && RolesBoundAt(bindings, k) != {}
    requires forall k :: k in base ==> base[k] == RolesBoundAt(bindings, k)
    requires WithAdmins(bindings, t, base, inherited)
    ensures forall k :: k in inherited <==> InheritedRoles(idx, bindings, t, k) != {}
    ensures forall k :: k in inherited ==> inherited[k] == InheritedRoles(idx, bindings, t, k)
  {
    forall k ensures (k in inherited <==> InheritedRoles(idx, bindings, t, k) != {})
                     && (k in inherited ==> inherited[k] == InheritedRoles(idx, bindings, t, k)) {
      InheritedAt(idx, bindings, t, k);
    }
  }

  lemma InheritedAt(idx: Index, bindings: seq<Binding>, t: string, k: string)
    ensures InheritedRoles(idx, bindings, t, k) ==
            (if k in AncestorIds(idx, t) then RolesBoundAt(bindings, k) else {}) +
            if k != t && Binding(k, PlatformAdmin) in bindings then {PlatformAdmin} else {}
  {
  }

  lemma RolesAreExact(idx: Index, bindings: seq<Binding>, t: string, roles: set<Role>)
    requires forall r :: r in roles <==>
             r in RolesBoundAt(bindings, t) || exists k :: r in InheritedRoles(idx, bindings, t, k)
    ensures roles == RolesAt(idx, bindings, t)
  {
    forall r | r in RolesAt(idx, bindings, t) ensures r in roles {
      var b :| b in bindings && Applies(idx, b, t) && b.role == r;
      if b.tenantId != t {
        assert r in InheritedRoles(idx, bindings, t, b.tenantId);
      }
    }
    forall r | r in roles ensures r in RolesAt(idx, bindings, t) {
      if r !in RolesBoundAt(bindings, t) {
        var k :| r in InheritedRoles(idx, bindings, t, k);
        var b :| b in bindings && b.tenantId == k && b.role == r &&
          (k in AncestorIds(idx, t) || (b.role == PlatformAdmin && k != t));
        assert Applies(idx, b, t);
      } else {
        var b :| b in bindings && b.tenantId == t && b.role == r;
        assert Applies(idx, b, t);
      }
    }
  }

  method Can(rows: seq<Tenant>, bindings: seq<Binding>, t: string, action: string) returns (ok: bool)
    ensures ok <==> Grants(RolesAt(IndexOf(rows), bindings, t), action)
  {
    var e := EffectiveRolesAt(rows, bindings, t);
    ok := Grants(e.roles, action);
  }

  const SEES_BELOW: set<Role> := {PlatformAdmin, AgencyAdmin, BureauAdmin, Auditor}

  /** The ids a principal sees from t: none without read, t alone without an admin
      or audit role, t and everything below it otherwise. t comes first; no id is
      listed twice, except t itself when it lies on a cycle and the walk below it
      comes back to it. */
  method VisibleTenants(rows: seq<Tenant>, bindings: seq<Binding>, t: string) returns (ids: seq<string>)
    requires DistinctIds(rows)
    ensures forall d :: d in ids <==> Visible(IndexOf(rows), bindings, t, d)
    ensures ids != [] ==> ids[0] == t && Distinct(ids[1..])
    ensures ids != [] ==>
              (t in ids[1..] <==> RolesAt(IndexOf(rows), bindings, t) * SEES_BELOW != {} && Below(IndexOf(rows), t, t))
  {
    var e := EffectiveRolesAt(rows, bindings, t);
    if !Grants(e.roles, "read") {
      return [];
    }
    if e.roles * SEES_BELOW == {} {
      return [t];
    }
    var below := GetDescendants(rows, t);
    IdListMembers(below);
    ids := [t] + IdList(below);
  }

  function IdList(ts: seq<Tenant>): (ids: seq<string>)
    ensures |ids| == |ts|
  {
    seq(|ts|, i requires 0 <= i < |ts| => ts[i].id)
  }

  lemma IdListMembers(ts: seq<Tenant>)
    ensures forall d :: d in IdList(ts) <==> d in Ids(ts)
  {
    forall d | d in Ids(ts) ensures d in IdList(ts) {
      var i :| 0 <= i < |ts| && ts[i].id == d;
      assert IdList(ts)[i] == d;
    }
  }

  ghost predicate Visible(idx: Index, bindings: seq<Binding>, t: string, d: string) {
    var roles := RolesAt(idx, bindings, t);
    Grants(roles, "read") && (d == t || (roles * SEES_BELOW != {} && Below(idx, d, t)))
  }

  /** From its tenant, every role but the program team's sees what lies below. */
  lemma WhoSeesBelow(idx: Index, t: string, r: Role, d: string)
    requires d != t && Below(idx, d, t)
    ensures Visible(idx, [Binding(t, r)], t, t)
    ensures Visible(idx, [Binding(t, r)], t, d) <==> r != ProgramTeam
  {
    var b := Binding(t, r);
    assert b in [b] && Applies(idx, b, t);
    assert RolesAt(idx, [b], t) == {r};
    WhoMayDoWhat(r);
    assert r != ProgramTeam ==> r in RolesAt(idx, [b], t) * SEES_BELOW;
  }

  // ---------------------------------------------------------------- inheritance

  /** Where a role comes from: a binding at the tenant, one at an existing tenant above
      it, or a platform admin's anywhere. */
  lemma RolesComeFrom(idx: Index, bindings: seq<Binding>, t: string, r: Role)
    ensures r in RolesAt(idx, bindings, t) <==>
            exists b :: b in bindings && b.role == r
                        && (b.tenantId == t || r == PlatformAdmin || (b.tenantId in idx && Below(idx, t, b.tenantId)))
  {
    if r in RolesAt(idx, bindings, t) {
      var b :| b in bindings && Applies(idx, b, t) && b.role == r;
      assert b in bindings && b.role == r;
    }
  }

  /** Every role held at an existing tenant is held at each of its descendants. */
  lemma RolesAreInherited(idx: Index, bindings: seq<Binding>, t: string, d: string)
    requires t in idx && Below(idx, d, t)
    ensures RolesAt(idx, bindings, t) <= RolesAt(idx, bindings, d)
  {
    forall r | r in RolesAt(idx, bindings, t) ensures r in RolesAt(idx, bindings, d) {
      var b :| b in bindings && Applies(idx, b, t) && b.role == r;
      if b.tenantId in AncestorIds(idx, t) {
        BelowTransitive(idx, d, t, b.tenantId);
      }
      assert Applies(idx, b, d);
    }
  }

  /** A binding that is not a platform admin's grants nothing at tenants that are
      neither its own nor below it: dropping it changes no role there. */
  lemma BindingsAreLocal(idx: Index, before: seq<Binding>, b: Binding, after: seq<Binding>, t: string)
    requires b.role != PlatformAdmin && t != b.tenantId && !Below(idx, t, b.tenantId)
    ensures RolesAt(idx, before + [b] + after, t) == RolesAt(idx, before + after, t)
  {
    assert !Applies(idx, b, t);
    assert forall c :: c in before + [b] + after <==> c == b || c in before + after;
  }

  /** Whatever the bindings, everything visible from t can be read, exactly when t
      has a row or nothing hangs below it. From an id without a row, children left
      behind are listed although the binding does not reach them. */
  lemma VisibleIsReadableExactly(idx: Index, t: string)
    ensures (forall bindings: seq<Binding>, d :: Visible(idx, bindings, t, d) ==>
             Grants(RolesAt(idx, bindings, d), "read"))
            <==> t in idx || !exists d :: Below(idx, d, t)
  {
    if t in idx || !exists d :: Below(idx, d, t) {
      forall bindings: seq<Binding>, d | Visible(idx, bindings, t, d)
        ensures Grants(RolesAt(idx, bindings, d), "read")
      {
        if d != t {
          RolesAreInherited(idx, bindings, t, d);
        }
      }
    } else {
      var d :| Below(idx, d, t);
      OrphanIsVisibleNotReadable(idx, t, d);
    }
  }

  lemma OrphanIsVisibleNotReadable(idx: Index, t: string, d: string)
    requires t !in idx && Below(idx, d, t)
    ensures var bindings := [Binding(t, AgencyAdmin)];
            Visible(idx, bindings, t, d) && !Grants(RolesAt(idx, bindings, d), "read")
  {
    var b := Binding(t, AgencyAdmin);
    var bindings := [b];
    assert b in bindings && Applies(idx, b, t);
    assert AgencyAdmin in RolesAt(idx, bindings, t) * SEES_BELOW;
    assert "read" in ActionsOf(AgencyAdmin);
    var n: nat :| n >= 1 && Climb(idx, d, n) == Some(t);
    if d == t {
      NoRowNoAncestors(idx, t);
      assert Climb(idx, t, 0) == Some(t);
      ClimbStops(idx, t, 1, n);
    }
    assert !Applies(idx, b, d);
    assert RolesAt(idx, bindings, d) == {};
  }
}
