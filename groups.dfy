/** Group-membership check shared by the lot and move hooks
    (`HealthAlertGroupControl.in_group`). */
module Groups {

  import opened Outcomes

  type UserId = nat
  type GroupId = nat

  /** The module this policy lives in; an id without a module part resolves here. */
  const DefaultModule: string := "stock_lot_health_alert"

  /** The group tiers of the policy. */
  const CheckHealthAlertTrue: seq<string> := ["group_stock_lot_td", "group_stock_lot_qd"]
  const ModifyHealthAlertLot: seq<string> := ["group_stock_lot_td"]
  const ModifyLot: seq<string> := ModifyHealthAlertLot + ["group_stock_lot_admin"]

  /** An XML id split into its module and its name inside the module. */
  datatype QualifiedId = QualifiedId(moduleName: string, name: string)

  /** What the transaction knows about the acting user:
      `registry` plays `ir.model.data` (XML id to group record id),
      `userGroups` the groups of each user, `user` the transaction user
      and `contextUser` the optional `user` key of the transaction context. */
  datatype Env = Env(
    registry: map<QualifiedId, GroupId>,
    userGroups: map<UserId, set<GroupId>>,
    user: UserId,
    contextUser: Option<UserId>)

  /** Position of the first '.' in `s`. */
  function FirstDot(s: string): Option<nat>
  {
    if s == [] then None
    else if s[0] == '.' then Some(0)
    else
      match FirstDot(s[1..])
      case None => None
      case Some(j) => Some(j + 1)
  }

  /** `FirstDot` finds the first '.', and finds none exactly when there is none. */
  lemma {:induction false} FirstDotFinds(s: string)
    ensures FirstDot(s).None? <==> '.' !in s
    ensures FirstDot(s).Some? ==>
      var k := FirstDot(s).value;
      k < |s| && s[k] == '.' && '.' !in s[..k]
  {
    if s != [] && s[0] != '.' {
      FirstDotFinds(s[1..]);
      assert s == [s[0]] + s[1..];
      if FirstDot(s[1..]).Some? {
        var j := FirstDot(s[1..]).value;
        assert s[..j + 1] == [s[0]] + s[1..][..j];
      }
    }
  }

  /** `fs_id.split('.', 1)`, falling back to the policy's own module when there is no '.'. */
  function Resolve(fsId: string): (q: QualifiedId)
    ensures FirstDot(fsId).None? ==> q.name == fsId
    ensures FirstDot(fsId).Some? ==> q.moduleName + "." + q.name == fsId
  {
    match FirstDot(fsId)
    case None => QualifiedId(DefaultModule, fsId)
    case Some(k) =>
      FirstDotFinds(fsId);
      assert fsId == fsId[..k] + "." + fsId[k + 1..];
      QualifiedId(fsId[..k], fsId[k + 1..])
  }

  /** An id without '.' resolves under the policy's module; any other id splits
      at its first '.' into a module without '.' and a name, which rejoin to the id. */
  lemma ResolveSplits(fsId: string)
    ensures '.' !in fsId ==> Resolve(fsId) == QualifiedId(DefaultModule, fsId)
    ensures '.' in fsId ==>
      var q := Resolve(fsId);
      '.' !in q.moduleName && q.moduleName + "." + q.name == fsId
  {
    FirstDotFinds(fsId);
    if FirstDot(fsId).Some? {
      var k := FirstDot(fsId).value;
      assert fsId == fsId[..k] + "." + fsId[k + 1..];
    }
  }

  /** The user whose groups are consulted: the transaction user, or the
      context's `user` when the transaction runs as the system user 0. */
  function ActingUser(env: Env): (u: UserId)
    ensures env.user != 0 ==> u == env.user
    ensures env.user == 0 && env.contextUser.Some? ==> u == env.contextUser.value
    ensures u == 0 <==> env.user == 0 && (env.contextUser.None? || env.contextUser.value == 0)
  {
    if env.user == 0 then
      match env.contextUser
      case Some(c) => c
      case None => 0
    else env.user
  }

  /** Every id of the list names an installed group, and a non-system acting user exists. */
  predicate Resolvable(env: Env, fsIds: seq<string>)
  {
    (forall i :: 0 <= i < |fsIds| ==> Resolve(fsIds[i]) in env.registry) &&
    (ActingUser(env) != 0 ==> ActingUser(env) in env.userGroups)
  }

  /** The group records the ids resolve to, in the order of the list. */
  function ResolvedGroups(env: Env, fsIds: seq<string>): (gs: seq<GroupId>)
    requires Resolvable(env, fsIds)
    ensures |gs| == |fsIds|
    ensures forall i :: 0 <= i < |fsIds| ==> gs[i] == env.registry[Resolve(fsIds[i])]
  {
    seq(|fsIds|, i requires 0 <= i < |fsIds| => env.registry[Resolve(fsIds[i])])
  }

  /** The verdict of `in_group`: the system user passes, anybody else must
      belong to one of the groups the ids resolve to. */
  function Authorized(env: Env, fsIds: seq<string>): (b: bool)
    requires Resolvable(env, fsIds)
    ensures ActingUser(env) == 0 ==> b
    ensures ActingUser(env) != 0 ==>
      (b <==> exists i :: 0 <= i < |fsIds| && env.registry[Resolve(fsIds[i])] in env.userGroups[ActingUser(env)])
  {
    var u := ActingUser(env);
    if u == 0 then true
    else
      var gs := ResolvedGroups(env, fsIds);
      IntersectsIff(gs, env.userGroups[u]);
      (set g | g in gs) * env.userGroups[u] != {}
  }

  lemma IntersectsIff(gs: seq<GroupId>, mine: set<GroupId>)
    ensures (set g | g in gs) * mine != {} <==> exists i :: 0 <= i < |gs| && gs[i] in mine
  {
    if (set g | g in gs) * mine != {} {
      var g :| g in (set g | g in gs) * mine;
      var i :| 0 <= i < |gs| && gs[i] == g;
    }
    if exists i :: 0 <= i < |gs| && gs[i] in mine {
      var i :| 0 <= i < |gs| && gs[i] in mine;
      assert gs[i] in (set g | g in gs) * mine;
    }
  }

  /** `in_group` as written: resolve the ids one by one, then pick the acting user and intersect. */
  method InGroup(env: Env, fsIds: seq<string>) returns (b: bool)
    requires Resolvable(env, fsIds)
    ensures b == Authorized(env, fsIds)
    ensures ActingUser(env) != 0 && fsIds == [] ==> !b
  {
    var groups: seq<GroupId> := [];
    for k := 0 to |fsIds|
      invariant |groups| == k
      invariant forall j :: 0 <= j < k ==> groups[j] == env.registry[Resolve(fsIds[j])]
    {
      var q := Resolve(fsIds[k]);
      groups := groups + [env.registry[q]];
    }
    var userId := env.user;
    if userId == 0 {
      userId := match env.contextUser case Some(c) => c case None => userId;
    }
    if userId == 0 {
      return true;
    }
    assert groups == ResolvedGroups(env, fsIds);
    b := (set g | g in groups) * env.userGroups[userId] != {};
  }

  /** A longer id list can only let more users through. */
  lemma {:induction false} AuthorizedMonotone(env: Env, fewer: seq<string>, more: seq<string>)
    requires Resolvable(env, fewer) && Resolvable(env, more)
    requires forall i :: 0 <= i < |fewer| ==> fewer[i] in more
    ensures Authorized(env, fewer) ==> Authorized(env, more)
  {
    if ActingUser(env) != 0 && Authorized(env, fewer) {
      var i :| 0 <= i < |fewer| && env.registry[Resolve(fewer[i])] in env.userGroups[ActingUser(env)];
      var j :| 0 <= j < |more| && more[j] == fewer[i];
      assert env.registry[Resolve(more[j])] in env.userGroups[ActingUser(env)];
    }
  }

  /** The groups of the policy's three tiers are installed and the acting user exists. */
  predicate Installed(env: Env)
  {
    Resolvable(env, CheckHealthAlertTrue) &&
    Resolvable(env, ModifyHealthAlertLot) &&
    Resolvable(env, ModifyLot)
  }

  /** The tiers nest: whoever may change the alert flag may also set it and modify lots. */
  lemma TiersNest(env: Env)
    requires Installed(env)
    ensures Authorized(env, ModifyHealthAlertLot) ==> Authorized(env, CheckHealthAlertTrue)
    ensures Authorized(env, ModifyHealthAlertLot) ==> Authorized(env, ModifyLot)
  {
    AuthorizedMonotone(env, ModifyHealthAlertLot, CheckHealthAlertTrue);
    AuthorizedMonotone(env, ModifyHealthAlertLot, ModifyLot);
  }
}
