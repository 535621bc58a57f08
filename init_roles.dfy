/**
 * apps/accounts/management/commands/init_roles.py: the `init_roles` command
 * creates one group per role and gives it the permissions of the role's
 * actions on the core models.  A permission that does not exist is reported
 * and skipped; a lookup that matches several permissions raises and stops the
 * command, leaving what it already wrote.
 */
module InitRoles {
  import opened Wrappers
  import opened Seqs
  import opened PyStr

  type PermId = nat

  /** A Permission row: its content type's app label and its codename. */
  datatype Permission = Permission(id: PermId, appLabel: string, codename: string)

  /** An entry of ROLE_DEFS: the group name and its `perms` actions. */
  datatype Role = Role(name: string, actions: seq<string>)

  const RoleDefs: seq<Role> := [
    Role("READER", ["view"]),
    Role("EDITOR", ["view", "add", "change"]),
    Role("LOCAL_ADMIN", ["view", "add", "change", "delete"])]

  /** (app_label, model_name) of each model the roles apply to. */
  const TargetModels: seq<(string, string)> := [("core", "organization"), ("core", "company"), ("core", "analystcompany")]

  const Reminder := "Remember: set is_superuser=True for your SUPERADMIN account."

  function PermCodename(action: string, model: string): string
  {
    action + "_" + model
  }

  /** The first underscore of a codename ends the action, when the action has none. */
  lemma CodenameSplits(action: string, model: string)
    requires '_' !in action
    ensures '_' in PermCodename(action, model) && IndexOf(PermCodename(action, model), '_') == |action|
  {
    var c := PermCodename(action, model);
    assert c[|action|] == '_';
    assert c[..|action|] == action;
  }

  /** Codenames of underscore-free actions name the action and the model. */
  lemma CodenameInjective(a1: string, m1: string, a2: string, m2: string)
    requires '_' !in a1 && '_' !in a2
    requires PermCodename(a1, m1) == PermCodename(a2, m2)
    ensures a1 == a2 && m1 == m2
  {
    var c := PermCodename(a1, m1);
    CodenameSplits(a1, m1);
    CodenameSplits(a2, m2);
    assert a1 == c[..|a1|] && a2 == c[..|a2|];
    assert m1 == c[|a1| + 1..] && m2 == c[|a2| + 1..];
  }

  /** What `Permission.objects.get(content_type__app_label=app, codename=code)` finds. */
  datatype Lookup = Found(p: Permission) | Missing | Multiple

  predicate Matches(p: Permission, app: string, code: string)
  {
    p.appLabel == app && p.codename == code
  }

  /** Two rows of the permission table carry the app label and the codename. */
  predicate MatchesTwice(ps: seq<Permission>, app: string, code: string)
  {
    exists i, j :: 0 <= i < j < |ps| && Matches(ps[i], app, code) && Matches(ps[j], app, code)
  }

  /** `get()`: DoesNotExist with no match, MultipleObjectsReturned with two or more. */
  function LookupPermission(ps: seq<Permission>, app: string, code: string): (l: Lookup)
    ensures l.Missing? <==> forall p :: p in ps ==> !Matches(p, app, code)
    ensures l.Multiple? <==> MatchesTwice(ps, app, code)
    ensures l.Found? ==> l.p in ps && Matches(l.p, app, code)
    ensures l.Found? ==> forall q :: q in ps && Matches(q, app, code) ==> q == l.p
  {
    var f := (p: Permission) => Matches(p, app, code);
    var m := Keep(ps, f);
    KeepTwo(ps, f);
    if |m| == 0 then
      assert forall i :: 0 <= i < |ps| ==> !Matches(ps[i], app, code);
      Missing
    else if |m| == 1 then
      assert forall q :: q in ps && Matches(q, app, code) ==> q in m;
      Found(m[0])
    else Multiple
  }

  /** The lookup of `action` on `model` cannot raise MultipleObjectsReturned. */
  predicate Unambiguous(ps: seq<Permission>, app: string, model: string, action: string)
  {
    !MatchesTwice(ps, app, PermCodename(action, model))
  }

  function NotFoundLine(app: string, code: string): string
  {
    "Permission not found: " + app + "." + code
  }

  function InitializedLine(created: seq<string>): string
  {
    "Groups initialized: " + Join(", ", created)
  }

  // ---- the run, step by step ----------------------------------------------------------

  /**
   * The groups with their permissions, what the command wrote out, the names
   * of the groups initialised so far, and whether no lookup has raised.
   */
  datatype RunState = RunState(groups: map<string, set<PermId>>, out: seq<string>, created: seq<string>, ok: bool)

  function GroupPerms(groups: map<string, set<PermId>>, name: string): set<PermId>
  {
    if name in groups then groups[name] else {}
  }

  /**
   * One action: the permission is added to the group, reported missing, or the
   * lookup raises.  Only the role's group can change, and only by gaining a
   * permission; the output only grows.
   */
  function GrantOne(ps: seq<Permission>, st: RunState, role: string, app: string, model: string, action: string): (r: RunState)
    ensures r.ok == (st.ok && Unambiguous(ps, app, model, action))
    ensures r.created == st.created && r.groups.Keys <= st.groups.Keys + {role}
    ensures forall g :: g in st.groups && g != role ==> g in r.groups && r.groups[g] == st.groups[g]
    ensures GroupPerms(st.groups, role) <= GroupPerms(r.groups, role)
    ensures st.out <= r.out
  {
    if !st.ok then st
    else match LookupPermission(ps, app, PermCodename(action, model))
      case Missing => st.(out := st.out + [NotFoundLine(app, PermCodename(action, model))])
      case Multiple => st.(ok := false)
      case Found(p) => st.(groups := st.groups[role := GroupPerms(st.groups, role) + {p.id}])
  }

  /** `for action in cfg["perms"]`. */
  function GrantActions(ps: seq<Permission>, st: RunState, role: string, app: string, model: string, actions: seq<string>): RunState
  {
    if actions == [] then st
    else GrantOne(ps, GrantActions(ps, st, role, app, model, actions[..|actions| - 1]), role, app, model, actions[|actions| - 1])
  }

  /** `for app_label, model in TARGET_MODELS`. */
  function GrantModels(ps: seq<Permission>, st: RunState, role: string, targets: seq<(string, string)>, actions: seq<string>): RunState
  {
    if targets == [] then st
    else
      var t := targets[|targets| - 1];
      GrantActions(ps, GrantModels(ps, st, role, targets[..|targets| - 1], actions), role, t.0, t.1, actions)
  }

  /** `Group.objects.get_or_create(name=role)`. */
  function OpenGroup(st: RunState, name: string): RunState
  {
    if !st.ok then st else st.(groups := if name in st.groups then st.groups else st.groups[name := {}])
  }

  /** `group.save()` and `created.append(group.name)`. */
  function CloseGroup(st: RunState, name: string): RunState
  {
    if !st.ok then st else st.(created := st.created + [name])
  }

  function InitRole(ps: seq<Permission>, st: RunState, role: Role): RunState
  {
    CloseGroup(GrantModels(ps, OpenGroup(st, role.name), role.name, TargetModels, role.actions), role.name)
  }

  /** `for role, cfg in ROLE_DEFS.items()`. */
  function InitRolesFor(ps: seq<Permission>, st: RunState, roles: seq<Role>): RunState
  {
    if roles == [] then st
    else InitRole(ps, InitRolesFor(ps, st, roles[..|roles| - 1]), roles[|roles| - 1])
  }

  /** `handle`: the roles in order, then the two closing lines when nothing raised. */
  function Handle(ps: seq<Permission>, groups: map<string, set<PermId>>, out: seq<string>): RunState
  {
    var st := InitRolesFor(ps, RunState(groups, out, [], true), RoleDefs);
    if st.ok then st.(out := st.out + [InitializedLine(st.created), Reminder]) else st
  }

  // ---- what a run amounts to -----------------------------------------------------------

  /** The permissions one model's actions grant. */
  function ActionGrants(ps: seq<Permission>, app: string, model: string, actions: seq<string>): set<PermId>
  {
    if actions == [] then {}
    else
      var l := LookupPermission(ps, app, PermCodename(actions[|actions| - 1], model));
      ActionGrants(ps, app, model, actions[..|actions| - 1]) + (if l.Found? then {l.p.id} else {})
  }

  function ActionWarnings(ps: seq<Permission>, app: string, model: string, actions: seq<string>): seq<string>
  {
    if actions == [] then []
    else
      var code := PermCodename(actions[|actions| - 1], model);
      ActionWarnings(ps, app, model, actions[..|actions| - 1])
        + (if LookupPermission(ps, app, code).Missing? then [NotFoundLine(app, code)] else [])
  }

  function ModelGrants(ps: seq<Permission>, targets: seq<(string, string)>, actions: seq<string>): set<PermId>
  {
    if targets == [] then {}
    else
      var t := targets[|targets| - 1];
      ModelGrants(ps, targets[..|targets| - 1], actions) + ActionGrants(ps, t.0, t.1, actions)
  }

  function ModelWarnings(ps: seq<Permission>, targets: seq<(string, string)>, actions: seq<string>): seq<string>
  {
    if targets == [] then []
    else
      var t := targets[|targets| - 1];
      ModelWarnings(ps, targets[..|targets| - 1], actions) + ActionWarnings(ps, t.0, t.1, actions)
  }

  function RoleGrants(ps: seq<Permission>, role: Role): set<PermId>
  {
    ModelGrants(ps, TargetModels, role.actions)
  }

  /** The groups after the roles: each role's group gains the role's grants. */
  function GrantRoles(groups: map<string, set<PermId>>, ps: seq<Permission>, roles: seq<Role>): map<string, set<PermId>>
  {
    if roles == [] then groups
    else
      var g := GrantRoles(groups, ps, roles[..|roles| - 1]);
      var r := roles[|roles| - 1];
      g[r.name := GroupPerms(g, r.name) + RoleGrants(ps, r)]
  }

  function RolesWarnings(ps: seq<Permission>, roles: seq<Role>): seq<string>
  {
    if roles == [] then []
    else RolesWarnings(ps, roles[..|roles| - 1]) + ModelWarnings(ps, TargetModels, roles[|roles| - 1].actions)
  }

  function Names(roles: seq<Role>): seq<string>
  {
    if roles == [] then [] else Names(roles[..|roles| - 1]) + [roles[|roles| - 1].name]
  }

  predicate ModelsUnambiguous(ps: seq<Permission>, targets: seq<(string, string)>, actions: seq<string>)
  {
    forall t, a :: t in targets && a in actions ==> Unambiguous(ps, t.0, t.1, a)
  }

  /** No lookup of the command matches several permissions. */
  predicate AllUnambiguous(ps: seq<Permission>, roles: seq<Role>)
  {
    forall r :: r in roles ==> ModelsUnambiguous(ps, TargetModels, r.actions)
  }

  /** `st` after `role`'s group gains `g` and the output gains `w`. */
  function Granted(st: RunState, role: string, g: set<PermId>, w: seq<string>): RunState
  {
    st.(groups := st.groups[role := GroupPerms(st.groups, role) + g], out := st.out + w)
  }

  lemma GrantedTwice(st: RunState, role: string, g1: set<PermId>, w1: seq<string>, g2: set<PermId>, w2: seq<string>)
    ensures Granted(Granted(st, role, g1, w1), role, g2, w2) == Granted(st, role, g1 + g2, w1 + w2)
  {
    assert st.out + w1 + w2 == st.out + (w1 + w2);
    var x := GroupPerms(st.groups, role);
    assert x + g1 + g2 == x + (g1 + g2);
    assert st.groups[role := x + g1][role := x + g1 + g2] == st.groups[role := x + (g1 + g2)];
  }

  lemma GrantedNothing(st: RunState, role: string)
    requires role in st.groups
    ensures Granted(st, role, {}, []) == st
  {
    assert GroupPerms(st.groups, role) + {} == st.groups[role];
    assert st.groups[role := st.groups[role]] == st.groups;
    assert st.out + [] == st.out;
  }

  function OneGrant(l: Lookup): set<PermId>
  {
    if l.Found? then {l.p.id} else {}
  }

  function OneWarning(l: Lookup, app: string, code: string): seq<string>
  {
    if l.Missing? then [NotFoundLine(app, code)] else []
  }

  lemma GrantOneClosed(ps: seq<Permission>, st: RunState, role: string, app: string, model: string, action: string)
    requires st.ok && role in st.groups
    ensures var l := LookupPermission(ps, app, PermCodename(action, model));
      !l.Multiple? ==> GrantOne(ps, st, role, app, model, action)
                       == Granted(st, role, OneGrant(l), OneWarning(l, app, PermCodename(action, model)))
  {
    var l := LookupPermission(ps, app, PermCodename(action, model));
    if l.Missing? {
      assert st.groups[role] + {} == st.groups[role];
      assert st.groups[role := st.groups[role]] == st.groups;
    }
  }

  /** The loop over actions completes iff no lookup raises, and then adds exactly the found permissions. */
  lemma {:induction false} GrantActionsClosed(ps: seq<Permission>, st: RunState, role: string, app: string, model: string,
                                              actions: seq<string>)
    requires st.ok && role in st.groups
    ensures GrantActions(ps, st, role, app, model, actions).ok <==> forall a :: a in actions ==> Unambiguous(ps, app, model, a)
    ensures GrantActions(ps, st, role, app, model, actions).ok ==>
      GrantActions(ps, st, role, app, model, actions) == Granted(st, role, ActionGrants(ps, app, model, actions),
                                                                  ActionWarnings(ps, app, model, actions))
  {
    if actions == [] {
      GrantedNothing(st, role);
    } else {
      var init := actions[..|actions| - 1];
      var last := actions[|actions| - 1];
      GrantActionsClosed(ps, st, role, app, model, init);
      assert forall a :: a in actions <==> a in init || a == last;
      var mid := GrantActions(ps, st, role, app, model, init);
      if mid.ok {
        var code := PermCodename(last, model);
        var l := LookupPermission(ps, app, code);
        GrantOneClosed(ps, mid, role, app, model, last);
        GrantedTwice(st, role, ActionGrants(ps, app, model, init), ActionWarnings(ps, app, model, init),
                     OneGrant(l), OneWarning(l, app, code));
      }
    }
  }

  lemma {:induction false} GrantModelsClosed(ps: seq<Permission>, st: RunState, role: string, targets: seq<(string, string)>,
                                             actions: seq<string>)
    requires st.ok && role in st.groups
    ensures GrantModels(ps, st, role, targets, actions).ok <==> ModelsUnambiguous(ps, targets, actions)
    ensures GrantModels(ps, st, role, targets, actions).ok ==>
      GrantModels(ps, st, role, targets, actions) == Granted(st, role, ModelGrants(ps, targets, actions),
                                                             ModelWarnings(ps, targets, actions))
  {
    if targets == [] {
      GrantedNothing(st, role);
    } else {
      var init := targets[..|targets| - 1];
      var t := targets[|targets| - 1];
      GrantModelsClosed(ps, st, role, init, actions);
      assert forall x :: x in targets <==> x in init || x == t;
      var mid := GrantModels(ps, st, role, init, actions);
      if mid.ok {
        GrantActionsClosed(ps, mid, role, t.0, t.1, actions);
        GrantedTwice(st, role, ModelGrants(ps, init, actions), ModelWarnings(ps, init, actions),
                     ActionGrants(ps, t.0, t.1, actions), ActionWarnings(ps, t.0, t.1, actions));
      } else {
        GrantActionsSticks(ps, mid, role, t.0, t.1, actions);
      }
    }
  }

  lemma {:induction false} GrantActionsSticks(ps: seq<Permission>, st: RunState, role: string, app: string, model: string,
                                              actions: seq<string>)
    requires !st.ok
    ensures GrantActions(ps, st, role, app, model, actions) == st
  {
    if actions != [] {
      GrantActionsSticks(ps, st, role, app, model, actions[..|actions| - 1]);
    }
  }

  lemma {:induction false} GrantModelsSticks(ps: seq<Permission>, st: RunState, role: string, targets: seq<(string, string)>,
                                             actions: seq<string>)
    requires !st.ok
    ensures GrantModels(ps, st, role, targets, actions) == st
  {
    if targets != [] {
      var t := targets[|targets| - 1];
      GrantModelsSticks(ps, st, role, targets[..|targets| - 1], actions);
      GrantActionsSticks(ps, st, role, t.0, t.1, actions);
    }
  }

  lemma {:induction false} InitRolesSticks(ps: seq<Permission>, st: RunState, roles: seq<Role>)
    requires !st.ok
    ensures InitRolesFor(ps, st, roles) == st
  {
    if roles != [] {
      InitRolesSticks(ps, st, roles[..|roles| - 1]);
      InitRoleSticks(ps, st, roles[|roles| - 1]);
    }
  }

  /** One role: the group is fetched or created, gains the role's grants and is listed as initialised. */
  lemma InitRoleClosed(ps: seq<Permission>, st: RunState, role: Role)
    requires st.ok
    ensures InitRole(ps, st, role).ok <==> ModelsUnambiguous(ps, TargetModels, role.actions)
    ensures InitRole(ps, st, role).ok ==>
      InitRole(ps, st, role) == RunState(st.groups[role.name := GroupPerms(st.groups, role.name) + RoleGrants(ps, role)],
                                         st.out + ModelWarnings(ps, TargetModels, role.actions), st.created + [role.name], true)
  {
    var opening := OpenGroup(st, role.name);
    assert GroupPerms(opening.groups, role.name) == GroupPerms(st.groups, role.name);
    GrantModelsClosed(ps, opening, role.name, TargetModels, role.actions);
    var x := GroupPerms(st.groups, role.name) + RoleGrants(ps, role);
    assert opening.groups[role.name := x] == st.groups[role.name := x];
  }

  /** The loop over roles completes iff no lookup raises. */
  lemma {:induction false} InitRolesOk(ps: seq<Permission>, st: RunState, roles: seq<Role>)
    requires st.ok
    ensures InitRolesFor(ps, st, roles).ok <==> AllUnambiguous(ps, roles)
  {
    if roles != [] {
      var init := roles[..|roles| - 1];
      var role := roles[|roles| - 1];
      InitRolesOk(ps, st, init);
      AllUnambiguousSnoc(ps, roles);
      var mid := InitRolesFor(ps, st, init);
      if mid.ok {
        InitRoleClosed(ps, mid, role);
      } else {
        InitRoleSticks(ps, mid, role);
      }
    }
  }

  /** A completed loop over roles has granted every role its permissions and reported every missing one. */
  lemma {:induction false} InitRolesClosed(ps: seq<Permission>, st: RunState, roles: seq<Role>)
    requires st.ok && AllUnambiguous(ps, roles)
    ensures InitRolesFor(ps, st, roles) ==
      RunState(GrantRoles(st.groups, ps, roles), st.out + RolesWarnings(ps, roles), st.created + Names(roles), true)
  {
    if roles == [] {
      assert st.created + [] == st.created && st.out + [] == st.out;
    } else {
      var init := roles[..|roles| - 1];
      var role := roles[|roles| - 1];
      AllUnambiguousSnoc(ps, roles);
      InitRolesClosed(ps, st, init);
      var mid := RunState(GrantRoles(st.groups, ps, init), st.out + RolesWarnings(ps, init), st.created + Names(init), true);
      InitRoleClosed(ps, mid, role);
      AppendAssoc(st.out, RolesWarnings(ps, init), ModelWarnings(ps, TargetModels, role.actions));
      AppendAssoc(st.created, Names(init), [role.name]);
    }
  }

  lemma AppendAssoc<T>(a: seq<T>, b: seq<T>, c: seq<T>)
    ensures a + b + c == a + (b + c)
  {
  }

  lemma AllUnambiguousSnoc(ps: seq<Permission>, roles: seq<Role>)
    requires roles != []
    ensures AllUnambiguous(ps, roles) <==>
      AllUnambiguous(ps, roles[..|roles| - 1]) && ModelsUnambiguous(ps, TargetModels, roles[|roles| - 1].actions)
  {
    assert forall x :: x in roles <==> x in roles[..|roles| - 1] || x == roles[|roles| - 1];
  }

  lemma InitRoleSticks(ps: seq<Permission>, st: RunState, role: Role)
    requires !st.ok
    ensures InitRole(ps, st, role) == st
  {
    GrantModelsSticks(ps, st, role.name, TargetModels, role.actions);
  }

  lemma FirstRoleNames()
    ensures Names(RoleDefs[..2]) == ["READER", "EDITOR"]
  {
    assert RoleDefs[..1][..0] == [];
    assert Names(RoleDefs[..1]) == ["READER"];
    assert RoleDefs[..2][..1] == RoleDefs[..1];
  }

  /** The closing line lists the roles in the order of ROLE_DEFS. */
  lemma RoleDefsNames()
    ensures Names(RoleDefs) == ["READER", "EDITOR", "LOCAL_ADMIN"]
    ensures InitializedLine(Names(RoleDefs)) == "Groups initialized: READER, EDITOR, LOCAL_ADMIN"
  {
    AllRoleNames();
    JoinRoleNames();
  }

  lemma AllRoleNames()
    ensures Names(RoleDefs) == ["READER", "EDITOR", "LOCAL_ADMIN"]
  {
    FirstRoleNames();
    assert RoleDefs[..|RoleDefs| - 1] == RoleDefs[..2];
  }

  lemma JoinRoleNames()
    ensures Join(", ", ["READER", "EDITOR", "LOCAL_ADMIN"]) == "READER, EDITOR, LOCAL_ADMIN"
  {
    var names: seq<string> := ["READER", "EDITOR", "LOCAL_ADMIN"];
    assert names[1..][1..] == ["LOCAL_ADMIN"];
    assert Join(", ", names[1..]) == "EDITOR, LOCAL_ADMIN";
  }

  /**
   * `handle` completes iff no lookup matches several permissions.  Then each
   * role has gained its grants, every missing permission was reported, and the
   * closing lines follow.
   */
  lemma HandleClosed(ps: seq<Permission>, groups: map<string, set<PermId>>, out: seq<string>)
    ensures Handle(ps, groups, out).ok <==> AllUnambiguous(ps, RoleDefs)
    ensures Handle(ps, groups, out).ok ==>
      && Handle(ps, groups, out).groups == GrantRoles(groups, ps, RoleDefs)
      && Handle(ps, groups, out).created == Names(RoleDefs)
      && Handle(ps, groups, out).out == out + RolesWarnings(ps, RoleDefs) + [InitializedLine(Names(RoleDefs)), Reminder]
  {
    var start := RunState(groups, out, [], true);
    InitRolesOk(ps, start, RoleDefs);
    if AllUnambiguous(ps, RoleDefs) {
      InitRolesClosed(ps, start, RoleDefs);
      assert [] + Names(RoleDefs) == Names(RoleDefs);
    }
  }

  function RoleNames(roles: seq<Role>): set<string>
  {
    set r | r in roles :: r.name
  }

  predicate DistinctNames(roles: seq<Role>)
  {
    forall i, j :: 0 <= i < j < |roles| ==> roles[i].name != roles[j].name
  }

  /** Each role's group ends with what it had plus the role's grants; other groups are untouched. */
  lemma GrantRolesAt(groups: map<string, set<PermId>>, ps: seq<Permission>, roles: seq<Role>, name: string)
    requires DistinctNames(roles)
    ensures GrantRoles(groups, ps, roles).Keys == groups.Keys + RoleNames(roles)
    ensures forall r :: r in roles && r.name == name ==>
      GrantRoles(groups, ps, roles)[name] == GroupPerms(groups, name) + RoleGrants(ps, r)
    ensures name !in RoleNames(roles) && name in groups ==> GrantRoles(groups, ps, roles)[name] == groups[name]
  {
    GrantRolesKeys(groups, ps, roles);
    forall r | r in roles && r.name == name
      ensures GrantRoles(groups, ps, roles)[name] == GroupPerms(groups, name) + RoleGrants(ps, r)
    {
      GrantRolesOwn(groups, ps, roles, r);
    }
    if name !in RoleNames(roles) {
      GrantRolesOther(groups, ps, roles, name);
    }
  }

  lemma {:induction false} GrantRolesKeys(groups: map<string, set<PermId>>, ps: seq<Permission>, roles: seq<Role>)
    ensures GrantRoles(groups, ps, roles).Keys == groups.Keys + RoleNames(roles)
  {
    if roles != [] {
      var init := roles[..|roles| - 1];
      GrantRolesKeys(groups, ps, init);
      RoleNamesSnoc(roles);
    }
  }

  lemma RoleNamesSnoc(roles: seq<Role>)
    requires roles != []
    ensures RoleNames(roles) == RoleNames(roles[..|roles| - 1]) + {roles[|roles| - 1].name}
  {
    assert forall x :: x in roles <==> x in roles[..|roles| - 1] || x == roles[|roles| - 1];
  }

  lemma {:induction false} GrantRolesOther(groups: map<string, set<PermId>>, ps: seq<Permission>, roles: seq<Role>, name: string)
    requires name !in RoleNames(roles)
    ensures GroupPerms(GrantRoles(groups, ps, roles), name) == GroupPerms(groups, name)
    ensures name in GrantRoles(groups, ps, roles) <==> name in groups
  {
    if roles != [] {
      RoleNamesSnoc(roles);
      GrantRolesOther(groups, ps, roles[..|roles| - 1], name);
    }
  }

  lemma {:induction false} GrantRolesOwn(groups: map<string, set<PermId>>, ps: seq<Permission>, roles: seq<Role>, r: Role)
    requires DistinctNames(roles) && r in roles
    ensures r.name in GrantRoles(groups, ps, roles)
    ensures GrantRoles(groups, ps, roles)[r.name] == GroupPerms(groups, r.name) + RoleGrants(ps, r)
  {
    var init := roles[..|roles| - 1];
    var last := roles[|roles| - 1];
    if r != last {
      var i :| 0 <= i < |roles| && roles[i] == r;
      assert i < |init| && init[i] == r;
      assert DistinctNames(init);
      GrantRolesOwn(groups, ps, init, r);
    } else {
      forall x | x in init ensures x.name != last.name {
        var i :| 0 <= i < |init| && init[i] == x;
        assert roles[i] == x;
      }
      assert last.name !in RoleNames(init);
      GrantRolesOther(groups, ps, init, last.name);
    }
  }

  /** The lookup of `action` on `model` finds the permission `id`. */
  predicate Grants(ps: seq<Permission>, app: string, model: string, action: string, id: PermId)
  {
    var l := LookupPermission(ps, app, PermCodename(action, model));
    l.Found? && l.p.id == id
  }

  lemma {:induction false} ActionGrantsMembers(ps: seq<Permission>, app: string, model: string, actions: seq<string>, id: PermId)
    ensures id in ActionGrants(ps, app, model, actions) <==> exists a :: a in actions && Grants(ps, app, model, a, id)
  {
    if actions != [] {
      var init := actions[..|actions| - 1];
      var last := actions[|actions| - 1];
      ActionGrantsMembers(ps, app, model, init, id);
      assert ActionGrants(ps, app, model, actions) == ActionGrants(ps, app, model, init) + OneGrant(LookupPermission(ps, app, PermCodename(last, model)));
      if id in ActionGrants(ps, app, model, actions) {
        if id in ActionGrants(ps, app, model, init) {
          var a :| a in init && Grants(ps, app, model, a, id);
          assert a in actions;
        } else {
          assert Grants(ps, app, model, last, id) && last in actions;
        }
      }
      if exists a :: a in actions && Grants(ps, app, model, a, id) {
        var a :| a in actions && Grants(ps, app, model, a, id);
        var i :| 0 <= i < |actions| && actions[i] == a;
        if i < |init| {
          assert init[i] == a;
        }
      }
    }
  }

  lemma {:induction false} ModelGrantsMembers(ps: seq<Permission>, targets: seq<(string, string)>, actions: seq<string>, id: PermId)
    ensures id in ModelGrants(ps, targets, actions) <==>
      exists t, a :: t in targets && a in actions && Grants(ps, t.0, t.1, a, id)
  {
    if targets != [] {
      var init := targets[..|targets| - 1];
      var last := targets[|targets| - 1];
      ModelGrantsMembers(ps, init, actions, id);
      ActionGrantsMembers(ps, last.0, last.1, actions, id);
      ModelGrantsSnoc(ps, targets, actions);
      if id in ModelGrants(ps, targets, actions) {
        ModelGrantsForward(ps, targets, actions, id);
      }
      if exists t, a :: t in targets && a in actions && Grants(ps, t.0, t.1, a, id) {
        var t, a :| t in targets && a in actions && Grants(ps, t.0, t.1, a, id);
        var i :| 0 <= i < |targets| && targets[i] == t;
        if i < |init| {
          assert init[i] == t;
        }
      }
    }
  }

  lemma ModelGrantsSnoc(ps: seq<Permission>, targets: seq<(string, string)>, actions: seq<string>)
    requires targets != []
    ensures ModelGrants(ps, targets, actions) ==
      ModelGrants(ps, targets[..|targets| - 1], actions) + ActionGrants(ps, targets[|targets| - 1].0, targets[|targets| - 1].1, actions)
  {
  }

  lemma ModelGrantsForward(ps: seq<Permission>, targets: seq<(string, string)>, actions: seq<string>, id: PermId)
    requires targets != []
    requires id in ModelGrants(ps, targets[..|targets| - 1], actions) + ActionGrants(ps, targets[|targets| - 1].0, targets[|targets| - 1].1, actions)
    requires id in ModelGrants(ps, targets[..|targets| - 1], actions) ==>
      exists t, a :: t in targets[..|targets| - 1] && a in actions && Grants(ps, t.0, t.1, a, id)
    requires id in ActionGrants(ps, targets[|targets| - 1].0, targets[|targets| - 1].1, actions) ==>
      exists a :: a in actions && Grants(ps, targets[|targets| - 1].0, targets[|targets| - 1].1, a, id)
    ensures exists t, a :: t in targets && a in actions && Grants(ps, t.0, t.1, a, id)
  {
    var init := targets[..|targets| - 1];
    var last := targets[|targets| - 1];
    if id in ModelGrants(ps, init, actions) {
      var t, a :| t in init && a in actions && Grants(ps, t.0, t.1, a, id);
      assert t in targets;
    } else {
      var a :| a in actions && Grants(ps, last.0, last.1, a, id);
      assert last in targets;
    }
  }

  /**
   * After a completed run each role's group holds exactly what it had and the
   * existing permissions of the role's actions on the target models.
   */
  lemma HandleGrants(ps: seq<Permission>, groups: map<string, set<PermId>>, out: seq<string>, role: Role, id: PermId)
    requires Handle(ps, groups, out).ok
    requires role in RoleDefs
    ensures role.name in Handle(ps, groups, out).groups
    ensures id in Handle(ps, groups, out).groups[role.name] <==>
      || id in GroupPerms(groups, role.name)
      || exists t, a :: t in TargetModels && a in role.actions && Grants(ps, t.0, t.1, a, id)
  {
    HandleClosed(ps, groups, out);
    RoleDefsDistinct();
    GrantRolesOwn(groups, ps, RoleDefs, role);
    ModelGrantsMembers(ps, TargetModels, role.actions, id);
  }

  /** Granting the roles again changes no group. */
  lemma GrantRolesIdempotent(groups: map<string, set<PermId>>, ps: seq<Permission>, roles: seq<Role>)
    requires DistinctNames(roles)
    ensures GrantRoles(GrantRoles(groups, ps, roles), ps, roles) == GrantRoles(groups, ps, roles)
  {
    var once := GrantRoles(groups, ps, roles);
    var twice := GrantRoles(once, ps, roles);
    GrantRolesAt(groups, ps, roles, "");
    GrantRolesAt(once, ps, roles, "");
    forall name | name in once ensures twice[name] == once[name] {
      GrantRolesAt(groups, ps, roles, name);
      GrantRolesAt(once, ps, roles, name);
      if name in RoleNames(roles) {
        var r :| r in roles && r.name == name;
        assert once[name] + RoleGrants(ps, r) == once[name];
      }
    }
  }

  lemma RoleDefsDistinct()
    ensures DistinctNames(RoleDefs)
  {
  }

  /** Running the command a second time changes no group. */
  lemma HandleIdempotent(ps: seq<Permission>, groups: map<string, set<PermId>>, out: seq<string>, out2: seq<string>)
    requires Handle(ps, groups, out).ok
    ensures Handle(ps, Handle(ps, groups, out).groups, out2).ok
    ensures Handle(ps, Handle(ps, groups, out).groups, out2).groups == Handle(ps, groups, out).groups
  {
    HandleClosed(ps, groups, out);
    HandleClosed(ps, Handle(ps, groups, out).groups, out2);
    RoleDefsDistinct();
    GrantRolesIdempotent(groups, ps, RoleDefs);
  }

  /** Each role's actions include the previous role's; only LOCAL_ADMIN may delete. */
  lemma RoleHierarchy()
    ensures forall a :: a in RoleDefs[0].actions ==> a in RoleDefs[1].actions
    ensures forall a :: a in RoleDefs[1].actions ==> a in RoleDefs[2].actions
    ensures forall r :: r in RoleDefs && "delete" in r.actions ==> r.name == "LOCAL_ADMIN"
  {
  }

  /** So a reader's grants are an editor's, and an editor's a local admin's. */
  lemma {:induction false} ActionGrantsMonotone(ps: seq<Permission>, app: string, model: string, a1: seq<string>, a2: seq<string>)
    requires forall a :: a in a1 ==> a in a2
    ensures ActionGrants(ps, app, model, a1) <= ActionGrants(ps, app, model, a2)
  {
    forall id | id in ActionGrants(ps, app, model, a1) ensures id in ActionGrants(ps, app, model, a2) {
      ActionGrantsMembers(ps, app, model, a1, id);
      ActionGrantsMembers(ps, app, model, a2, id);
    }
  }

  /** A role whose actions include another's is granted at least the other's permissions. */
  lemma {:induction false} ModelGrantsMonotone(ps: seq<Permission>, targets: seq<(string, string)>, a1: seq<string>, a2: seq<string>)
    requires forall a :: a in a1 ==> a in a2
    ensures ModelGrants(ps, targets, a1) <= ModelGrants(ps, targets, a2)
  {
    if targets != [] {
      var t := targets[|targets| - 1];
      ModelGrantsMonotone(ps, targets[..|targets| - 1], a1, a2);
      ActionGrantsMonotone(ps, t.0, t.1, a1, a2);
    }
  }

  /** So a reader's grants are an editor's, and an editor's a local admin's. */
  lemma RoleGrantsNested(ps: seq<Permission>)
    ensures RoleGrants(ps, RoleDefs[0]) <= RoleGrants(ps, RoleDefs[1]) <= RoleGrants(ps, RoleDefs[2])
  {
    RoleHierarchy();
    ModelGrantsMonotone(ps, TargetModels, RoleDefs[0].actions, RoleDefs[1].actions);
    ModelGrantsMonotone(ps, TargetModels, RoleDefs[1].actions, RoleDefs[2].actions);
  }

  // ---- the command ------------------------------------------------------------------

  /** The Group and Permission tables and the command's output. */
  class AuthDb {
    var groups: map<string, set<PermId>>
    var permissions: seq<Permission>
    var stdout: seq<string>

    constructor (gs: map<string, set<PermId>>, ps: seq<Permission>)
      ensures groups == gs && permissions == ps && stdout == []
    {
      groups := gs;
      permissions := ps;
      stdout := [];
    }

    /** `for action in cfg["perms"]` for one model; `ok` is false when a lookup raised. */
    method GrantActionsOn(ghost created: seq<string>, role: string, app: string, model: string, actions: seq<string>)
      returns (ok: bool)
      requires role in groups
      modifies this
      ensures permissions == old(permissions) && role in groups
      ensures GrantActions(permissions, RunState(old(groups), old(stdout), created, true), role, app, model, actions)
           == RunState(groups, stdout, created, ok)
    {
      ghost var start := RunState(groups, stdout, created, true);
      var k := 0;
      while k < |actions|
        invariant 0 <= k <= |actions| && permissions == old(permissions) && role in groups
        invariant GrantActions(permissions, start, role, app, model, actions[..k]) == RunState(groups, stdout, created, true)
      {
        var code := PermCodename(actions[k], model);
        var found := LookupPermission(permissions, app, code);
        ActionStep(permissions, start, role, app, model, actions, k);
        if found.Multiple? {
          ActionsCrash(permissions, start, role, app, model, actions, k, RunState(groups, stdout, created, true));
          return false;
        }
        if found.Missing? {
          stdout := stdout + [NotFoundLine(app, code)];
        } else {
          groups := groups[role := groups[role] + {found.p.id}];
        }
        k := k + 1;
      }
      assert actions[..|actions|] == actions;
      return true;
    }

    /** `for app_label, model in TARGET_MODELS` for one role. */
    method GrantModelsOn(ghost created: seq<string>, role: string, actions: seq<string>) returns (ok: bool)
      requires role in groups
      modifies this
      ensures permissions == old(permissions)
      ensures GrantModels(permissions, RunState(old(groups), old(stdout), created, true), role, TargetModels, actions)
           == RunState(groups, stdout, created, ok)
    {
      ghost var start := RunState(groups, stdout, created, true);
      var j := 0;
      while j < |TargetModels|
        invariant 0 <= j <= |TargetModels| && permissions == old(permissions) && role in groups
        invariant GrantModels(permissions, start, role, TargetModels[..j], actions) == RunState(groups, stdout, created, true)
      {
        var app, model := TargetModels[j].0, TargetModels[j].1;
        ok := GrantActionsOn(created, role, app, model, actions);
        ModelStep(permissions, start, role, TargetModels, actions, j);
        if !ok {
          GrantModelsPrefix(permissions, start, role, TargetModels, actions, j + 1);
          return false;
        }
        j := j + 1;
      }
      assert TargetModels[..|TargetModels|] == TargetModels;
      return true;
    }

    /** One role of `handle`: `get_or_create`, the grants, then `created.append`. */
    method InitRoleOn(ghost created: seq<string>, role: Role) returns (ok: bool)
      modifies this
      ensures permissions == old(permissions)
      ensures InitRole(permissions, RunState(old(groups), old(stdout), created, true), role)
           == RunState(groups, stdout, if ok then created + [role.name] else created, ok)
    {
      if role.name !in groups {
        groups := groups[role.name := {}];
      }
      ok := GrantModelsOn(created, role.name, role.actions);
    }

    /** `handle`; `ok` is false when a lookup raised MultipleObjectsReturned. */
    method HandleCommand() returns (ok: bool)
      modifies this
      ensures var r := Handle(old(permissions), old(groups), old(stdout));
        groups == r.groups && stdout == r.out && ok == r.ok
      ensures permissions == old(permissions)
    {
      ghost var start := RunState(groups, stdout, [], true);
      var created: seq<string> := [];
      var i := 0;
      while i < |RoleDefs|
        invariant 0 <= i <= |RoleDefs| && permissions == old(permissions)
        invariant InitRolesFor(permissions, start, RoleDefs[..i]) == RunState(groups, stdout, created, true)
      {
        var role := RoleDefs[i];
        RoleStep(permissions, start, RoleDefs, i);
        ok := InitRoleOn(created, role);
        if !ok {
          InitRolesPrefix(permissions, start, RoleDefs, i + 1);
          return false;
        }
        created := created + [role.name];
        i := i + 1;
      }
      assert RoleDefs[..|RoleDefs|] == RoleDefs;
      stdout := stdout + [InitializedLine(created), Reminder];
      return true;
    }
  }

  lemma ActionStep(ps: seq<Permission>, st: RunState, role: string, app: string, model: string, actions: seq<string>, k: nat)
    requires k < |actions|
    ensures GrantActions(ps, st, role, app, model, actions[..k + 1])
         == GrantOne(ps, GrantActions(ps, st, role, app, model, actions[..k]), role, app, model, actions[k])
  {
    assert actions[..k + 1][..k] == actions[..k];
  }

  lemma ModelStep(ps: seq<Permission>, st: RunState, role: string, targets: seq<(string, string)>, actions: seq<string>, j: nat)
    requires j < |targets|
    ensures GrantModels(ps, st, role, targets[..j + 1], actions)
         == GrantActions(ps, GrantModels(ps, st, role, targets[..j], actions), role, targets[j].0, targets[j].1, actions)
  {
    assert targets[..j + 1][..j] == targets[..j];
  }

  lemma RoleStep(ps: seq<Permission>, st: RunState, roles: seq<Role>, i: nat)
    requires i < |roles|
    ensures InitRolesFor(ps, st, roles[..i + 1]) == InitRole(ps, InitRolesFor(ps, st, roles[..i]), roles[i])
  {
    assert roles[..i + 1][..i] == roles[..i];
  }

  lemma {:induction false} GrantActionsPrefix(ps: seq<Permission>, st: RunState, role: string, app: string, model: string,
                                              actions: seq<string>, k: nat)
    requires k <= |actions|
    requires !GrantActions(ps, st, role, app, model, actions[..k]).ok
    ensures GrantActions(ps, st, role, app, model, actions) == GrantActions(ps, st, role, app, model, actions[..k])
  {
    if k < |actions| {
      var init := actions[..|actions| - 1];
      assert init[..k] == actions[..k];
      GrantActionsPrefix(ps, st, role, app, model, init, k);
    } else {
      assert actions[..k] == actions;
    }
  }

  lemma {:induction false} GrantModelsPrefix(ps: seq<Permission>, st: RunState, role: string, targets: seq<(string, string)>,
                                             actions: seq<string>, j: nat)
    requires j <= |targets|
    requires !GrantModels(ps, st, role, targets[..j], actions).ok
    ensures GrantModels(ps, st, role, targets, actions) == GrantModels(ps, st, role, targets[..j], actions)
  {
    if j < |targets| {
      var init := targets[..|targets| - 1];
      var t := targets[|targets| - 1];
      assert init[..j] == targets[..j];
      GrantModelsPrefix(ps, st, role, init, actions, j);
      GrantActionsSticks(ps, GrantModels(ps, st, role, init, actions), role, t.0, t.1, actions);
    } else {
      assert targets[..j] == targets;
    }
  }

  lemma {:induction false} InitRolesPrefix(ps: seq<Permission>, st: RunState, roles: seq<Role>, i: nat)
    requires i <= |roles|
    requires !InitRolesFor(ps, st, roles[..i]).ok
    ensures InitRolesFor(ps, st, roles) == InitRolesFor(ps, st, roles[..i])
  {
    if i < |roles| {
      var init := roles[..|roles| - 1];
      var r := roles[|roles| - 1];
      assert init[..i] == roles[..i];
      InitRolesPrefix(ps, st, init, i);
      GrantModelsSticks(ps, InitRolesFor(ps, st, init), r.name, TargetModels, r.actions);
    } else {
      assert roles[..i] == roles;
    }
  }

  lemma ActionsCrash(ps: seq<Permission>, mid: RunState, role: string, app: string, model: string, actions: seq<string>,
                     k: nat, cur: RunState)
    requires k < |actions| && cur.ok && GrantActions(ps, mid, role, app, model, actions[..k]) == cur
    requires LookupPermission(ps, app, PermCodename(actions[k], model)).Multiple?
    ensures GrantActions(ps, mid, role, app, model, actions) == cur.(ok := false)
  {
    assert actions[..k + 1][..k] == actions[..k];
    GrantActionsPrefix(ps, mid, role, app, model, actions, k + 1);
  }
}
