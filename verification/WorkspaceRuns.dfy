/** What holds over whole runs of the workspace handlers: controllers/workspaces.go,
    controllers/account.go and controllers/authz.go. */
module WorkspaceRuns {
  import opened Text
  import opened Workspaces

  /** The database yields an invite when one matches, and generated ids are not empty. */
  predicate Possible(s: State, a: Action) {
    && (a.Accept? && a.token.Some? && OpenInvites(s, a.token.value, a.now) != {} ==>
          a.pick in OpenInvites(s, a.token.value, a.now))
    && (a.Create? && a.id.Some? ==> a.id.value != "")
  }

  /** The states of a run that starts with no tenants and takes the given steps. */
  ghost predicate Run(ss: seq<State>, steps: seq<Action>) {
    && |ss| == |steps| + 1 && ss[0] == EMPTY
    && forall k :: 0 <= k < |steps| ==> Possible(ss[k], steps[k]) && ss[k + 1] == Apply(ss[k], steps[k])
  }

  // ----- References and roles -----

  predicate MemberOk(s: State, row: (string, string))
    requires row in s.members
  {
    row.0 in s.tenants && row.0 != "" && row.1 != "" && ValidRole(s.members[row].role)
  }

  predicate InviteOk(s: State, i: string)
    requires i in s.invites
  {
    s.invites[i].tenant in s.tenants && s.invites[i].tenant != "" && ValidRole(s.invites[i].role)
  }

  ghost predicate Inv(s: State) {
    && (forall row :: row in s.members ==> MemberOk(s, row))
    && (forall i :: i in s.invites ==> InviteOk(s, i))
  }

  lemma OwnerIsMember(s: State, tenant: string, user: string)
    requires Inv(s) && UserIsOwner(s, tenant, user)
    ensures (tenant, user) in s.members && MemberOk(s, (tenant, user))
  {
  }

  /** Every step keeps the references and the roles. */
  lemma StepInv(s: State, a: Action)
    requires Inv(s) && Possible(s, a)
    ensures Inv(Apply(s, a))
  {
    hide MembershipUserID, ClosedTenants, Trim, Lower, Owners;
    match a
    case CreateInvite(u, tenant, body, id, token, now) =>
      if UserIsOwner(s, tenant, u.id) {
        OwnerIsMember(s, tenant, u.id);
      }
    case Accept(u, token, pick, now) =>
      if pick in s.invites {
        assert InviteOk(s, pick);
      }
    case _ =>
  }

  /** In every reachable state members and invites refer to tenants, and roles are valid. */
  lemma {:induction false} RunInv(ss: seq<State>, steps: seq<Action>, k: nat)
    requires Run(ss, steps) && k < |ss|
    ensures Inv(ss[k])
  {
    hide Inv, Possible, Apply;
    if k == 0 {
      assert Inv(EMPTY) by { NothingInv(); }
    } else {
      RunInv(ss, steps, k - 1);
      StepInv(ss[k - 1], steps[k - 1]);
    }
  }

  lemma NothingInv()
    ensures Inv(EMPTY)
  {
  }

  /** In every reachable state the handlers' guards and the authorizer agree, and the three
      levels are nested. */
  lemma GuardsAgree(ss: seq<State>, steps: seq<Action>, k: nat, tenant: string, user: string)
    requires Run(ss, steps) && k < |ss|
    ensures var s := ss[k];
      var role := UserRole(s, tenant, user);
      && (UserIsMember(s, tenant, user) <==> RoleMatchesPermission(role, "view"))
      && (UserCanWrite(s, tenant, user) <==> RoleMatchesPermission(role, "write"))
      && (UserIsOwner(s, tenant, user) <==> RoleMatchesPermission(role, "manage"))
      && (UserIsOwner(s, tenant, user) ==> UserCanWrite(s, tenant, user))
      && (UserCanWrite(s, tenant, user) ==> UserIsMember(s, tenant, user))
  {
    hide Run;
    RunInv(ss, steps, k);
    if (tenant, user) in ss[k].members {
      assert MemberOk(ss[k], (tenant, user));
    }
  }

  // ----- Owners -----

  ghost predicate Owned(s: State, tenant: string) { exists u :: UserIsOwner(s, tenant, u) }

  ghost predicate OwnerSafe(s: State) { forall t :: t in s.tenants ==> Owned(s, t) }

  ghost predicate SoleOwner(s: State, tenant: string, user: string) {
    UserIsOwner(s, tenant, user) && forall v :: UserIsOwner(s, tenant, v) ==> v == user
  }

  /** An acceptance that goes through, by the only owner, of an invite to a lesser role. */
  ghost predicate Strands(s: State, a: Action) {
    && a.Accept? && Handle(s, a).1 == Done && a.pick in s.invites
    && s.invites[a.pick].role != OWNER && SoleOwner(s, s.invites[a.pick].tenant, a.u.id)
  }

  lemma OwnersAre(s: State, tenant: string, user: string)
    ensures user in Owners(s, tenant) <==> UserIsOwner(s, tenant, user)
  {
    if UserIsOwner(s, tenant, user) {
      assert (tenant, user) in s.members;
    }
  }

  /** Where there are two owners, one of them is someone else. */
  lemma AnotherOwner(s: State, tenant: string, user: string) returns (other: string)
    requires |Owners(s, tenant)| > 1
    ensures other != user && UserIsOwner(s, tenant, other)
  {
    var others := Owners(s, tenant) - {user};
    assert |others| >= |Owners(s, tenant)| - |{user}|;
    other :| other in others;
    OwnersAre(s, tenant, other);
  }

  /** An owner of a tenant, if it has any, who is not `user` unless `user` is the only one. */
  lemma SomeOwner(s: State, tenant: string, user: string) returns (owner: string)
    requires Owned(s, tenant) && !SoleOwner(s, tenant, user)
    ensures UserIsOwner(s, tenant, owner) && owner != user
  {
    if UserIsOwner(s, tenant, user) {
      owner :| UserIsOwner(s, tenant, owner) && owner != user;
    } else {
      owner :| UserIsOwner(s, tenant, owner);
    }
  }

  /** A row that is kept keeps its tenant owned. */
  lemma StillOwned(s: State, tenant: string, owner: string)
    requires UserIsOwner(s, tenant, owner)
    ensures Owned(s, tenant)
  {
  }

  lemma UpdateKeepsOwners(s: State, u: User, tenant: string, membershipID: string, role: Option<string>, t: string)
    requires Owned(s, t)
    ensures Owned(UpdateRoleOf(s, u, tenant, membershipID, role).0, t)
  {
    hide MembershipUserID, Owners;
    var after := UpdateRoleOf(s, u, tenant, membershipID, role).0;
    if after != s {
      var target := MembershipUserID(membershipID, tenant);
      if t != tenant {
        var w :| UserIsOwner(s, t, w);
        StillOwned(after, t, w);
      } else if role.value == OWNER {
        StillOwned(after, t, target);
      } else if target != u.id {
        StillOwned(after, t, u.id);
      } else {
        var w := AnotherOwner(s, t, u.id);
        StillOwned(after, t, w);
      }
    }
  }

  lemma RemoveKeepsOwners(s: State, u: User, tenant: string, membershipID: string, t: string)
    requires Owned(s, t)
    ensures Owned(RemoveOf(s, u, tenant, membershipID).0, t)
  {
    hide MembershipUserID, Owners;
    var after := RemoveOf(s, u, tenant, membershipID).0;
    if after != s {
      var target := MembershipUserID(membershipID, tenant);
      if t != tenant || (target == u.id && !UserIsOwner(s, t, u.id)) {
        var w :| UserIsOwner(s, t, w);
        StillOwned(after, t, w);
      } else if target != u.id {
        StillOwned(after, t, u.id);
      } else {
        var w := AnotherOwner(s, t, u.id);
        StillOwned(after, t, w);
      }
    }
  }

  lemma AcceptOwnersIff(s: State, a: Action, t: string)
    requires a.Accept? && Owned(s, t)
    ensures Owned(Apply(s, a), t) <==> !(Strands(s, a) && s.invites[a.pick].tenant == t)
  {
    hide OpenInvites, Lower, Trim;
    var after := Apply(s, a);
    if Handle(s, a).1 == Done {
      assert a.pick in s.invites by { OpenIn(s, a.token.value, a.now, a.pick); }
      var invite := s.invites[a.pick];
      if t != invite.tenant {
        var w :| UserIsOwner(s, t, w);
        StillOwned(after, t, w);
      } else if invite.role == OWNER {
        StillOwned(after, t, a.u.id);
      } else if !SoleOwner(s, t, a.u.id) {
        var w := SomeOwner(s, t, a.u.id);
        StillOwned(after, t, w);
      } else {
        forall v
          ensures !UserIsOwner(after, t, v)
        {
          if v != a.u.id {
            assert !UserIsOwner(s, t, v);
          }
        }
      }
    }
  }

  lemma OpenIn(s: State, token: string, now: int, pick: string)
    requires pick in OpenInvites(s, token, now)
    ensures pick in s.invites && s.invites[pick].acceptedBy == None && s.invites[pick].expiresAt > now
  {
  }

  /** The rows the closure counts: the caller's own, so one for every tenant it belongs to. */
  lemma ClosedTenantsAre(s: State, user: string, t: string)
    ensures t in ClosedTenants(s, user) <==> t in s.tenants && (t, user) in s.members
  {
    var own := set row | row in s.members && row.1 == user && row.0 == t;
    if (t, user) in s.members {
      assert own == {(t, user)};
    } else {
      assert own == {};
    }
  }

  lemma CloseKeepsOwners(s: State, u: User, t: string)
    requires Inv(s) && Owned(s, t) && t in CloseAccountOf(s, u).0.tenants
    ensures Owned(CloseAccountOf(s, u).0, t)
  {
    hide ClosedTenants, Trim, Lower;
    var after := CloseAccountOf(s, u).0;
    var w :| UserIsOwner(s, t, w);
    if after != s {
      ClosedTenantsAre(s, u.id, t);
      assert w != u.id;
    }
    StillOwned(after, t, w);
  }

  lemma OthersKeepOwners(s: State, a: Action, t: string)
    requires Inv(s) && (a.Create? || a.Rename? || a.Delete? || a.CreateInvite?)
    requires t in Apply(s, a).tenants && (t in s.tenants ==> Owned(s, t))
    ensures Owned(Apply(s, a), t)
  {
    hide Trim, Lower;
    var after := Apply(s, a);
    if t !in s.tenants {
      StillOwned(after, t, a.u.id);
    } else {
      var w :| UserIsOwner(s, t, w);
      StillOwned(after, t, w);
    }
  }

  /** A step leaves a tenant without an owner exactly when it strands it. */
  lemma StepOwnersIff(s: State, a: Action)
    requires Inv(s) && OwnerSafe(s)
    ensures OwnerSafe(Apply(s, a)) <==> !Strands(s, a)
  {
    hide Owned, CreateOf, RenameOf, DeleteOf, CreateInviteOf, UpdateRoleOf, RemoveOf, CloseAccountOf, SoleOwner;
    var after := Apply(s, a);
    if a.Accept? {
      AcceptTenants(s, a);
      forall t | t in s.tenants
        ensures Owned(after, t) <==> !(Strands(s, a) && s.invites[a.pick].tenant == t)
      {
        AcceptOwnersIff(s, a, t);
      }
      if Strands(s, a) {
        assert InviteOk(s, a.pick);
        assert s.invites[a.pick].tenant in s.tenants;
      }
    } else {
      forall t | t in after.tenants
        ensures Owned(after, t)
      {
        match a
        case UpdateRole(u, tenant, membershipID, role) => SameTenants(s, a); UpdateKeepsOwners(s, u, tenant, membershipID, role, t);
        case Remove(u, tenant, membershipID) => SameTenants(s, a); RemoveKeepsOwners(s, u, tenant, membershipID, t);
        case CloseAccount(u) => SameTenants(s, a); CloseKeepsOwners(s, u, t);
        case _ => OthersKeepOwners(s, a, t);
      }
    }
  }

  lemma AcceptTenants(s: State, a: Action)
    requires a.Accept?
    ensures Apply(s, a).tenants == s.tenants
  {
  }

  lemma SameTenants(s: State, a: Action)
    requires a.UpdateRole? || a.Remove? || a.CloseAccount?
    ensures Apply(s, a).tenants.Keys <= s.tenants.Keys
  {
    hide MembershipUserID, Owners, ClosedTenants, Trim, Lower;
  }

  /** Over whole runs every tenant always has an owner exactly when no acceptance strands one. */
  lemma {:induction false} RunOwnersIff(ss: seq<State>, steps: seq<Action>, n: nat)
    requires Run(ss, steps) && n < |ss|
    ensures (forall k :: 0 <= k <= n ==> OwnerSafe(ss[k])) <==> (forall k :: 0 <= k < n ==> !Strands(ss[k], steps[k]))
  {
    hide OwnerSafe, Strands, Apply, Inv, Possible;
    if n == 0 {
      assert OwnerSafe(EMPTY) by { NothingOwned(); }
    } else {
      RunOwnersIff(ss, steps, n - 1);
      RunInv(ss, steps, n - 1);
      if OwnerSafe(ss[n - 1]) {
        StepOwnersIff(ss[n - 1], steps[n - 1]);
      }
      assert ss[n] == Apply(ss[n - 1], steps[n - 1]);
      assert (forall k :: 0 <= k <= n ==> OwnerSafe(ss[k])) <==>
             (forall k :: 0 <= k <= n - 1 ==> OwnerSafe(ss[k])) && OwnerSafe(ss[n]);
      assert (forall k :: 0 <= k < n ==> !Strands(ss[k], steps[k])) <==>
             (forall k :: 0 <= k < n - 1 ==> !Strands(ss[k], steps[k])) && !Strands(ss[n - 1], steps[n - 1]);
    }
  }

  lemma NothingOwned()
    ensures OwnerSafe(EMPTY)
  {
  }

  /** A closure deletes every tenant the caller belongs to, whoever else belongs to it. */
  lemma ClosureDeletes(s: State, u: User)
    requires Inv(s) && u.id != "" && u.id != "anonymous"
    ensures var after := Apply(s, CloseAccount(u));
      && (forall t :: t in after.tenants <==> t in s.tenants && (t, u.id) !in s.members)
      && (forall row :: row in after.members <==> row in s.members && (row.0, u.id) !in s.members)
      && (forall i :: i in after.invites <==>
            i in s.invites && (s.invites[i].tenant, u.id) !in s.members && s.invites[i].invitedBy != u.id &&
            (Lower(Trim(u.email)) == "" || s.invites[i].email != Lower(Trim(u.email))))
  {
    hide ClosedTenants, Trim, Lower;
    forall t
      ensures t in ClosedTenants(s, u.id) <==> t in s.tenants && (t, u.id) in s.members
    {
      ClosedTenantsAre(s, u.id, t);
    }
    var after := Apply(s, CloseAccount(u));
    forall row | row in s.members
      ensures row in after.members <==> (row.0, u.id) !in s.members
    {
      assert MemberOk(s, row);
      if row.1 == u.id {
        assert row == (row.0, u.id);
      }
    }
    forall i | i in s.invites
      ensures s.invites[i].tenant in s.tenants
    {
      assert InviteOk(s, i);
    }
  }

  predicate SoleMember(s: State, tenant: string, user: string) {
    (tenant, user) in s.members && forall row :: row in s.members && row.0 == tenant ==> row.1 == user
  }

  /** A closure deletes only tenants of which the caller is the sole member exactly when no
      tenant of the caller has another member. */
  lemma ClosureSoleIff(s: State, u: User)
    requires Inv(s) && u.id != "" && u.id != "anonymous"
    ensures (forall t :: t in s.tenants && t !in Apply(s, CloseAccount(u)).tenants ==> SoleMember(s, t, u.id)) <==>
            (forall row :: row in s.members && (row.0, u.id) in s.members ==> row.1 == u.id)
  {
    hide Apply;
    ClosureDeletes(s, u);
    if forall t :: t in s.tenants && t !in Apply(s, CloseAccount(u)).tenants ==> SoleMember(s, t, u.id) {
      forall row | row in s.members && (row.0, u.id) in s.members
        ensures row.1 == u.id
      {
        assert MemberOk(s, row);
        assert SoleMember(s, row.0, u.id);
      }
    }
  }

  // ----- Where roles come from -----

  /** The step writes `role` to a membership row and has the right to: the creator becomes
      owner, an owner sets it, or the row's user accepts an invite open to that address. */
  predicate Grants(s: State, a: Action, tenant: string, user: string, role: string) {
    && Handle(s, a).1 == Done
    && match a
       case Create(u, _, _, id) => id == Some(tenant) && u.id == user && role == OWNER
       case UpdateRole(u, t, membershipID, r) =>
         t == tenant && MembershipUserID(membershipID, t) == user && r == Some(role) && UserIsOwner(s, t, u.id)
       case Accept(u, token, pick, now) =>
         && u.id == user && pick in s.invites && s.invites[pick].tenant == tenant && s.invites[pick].role == role
         && s.invites[pick].acceptedBy == None && s.invites[pick].expiresAt > now
         && Lower(s.invites[pick].email) == Lower(u.email)
       case _ => false
  }

  predicate HasRole(s: State, tenant: string, user: string, role: string) {
    (tenant, user) in s.members && s.members[(tenant, user)].role == role
  }

  lemma StepRole(s: State, a: Action, tenant: string, user: string, role: string)
    requires HasRole(Apply(s, a), tenant, user, role)
    ensures HasRole(s, tenant, user, role) || Grants(s, a, tenant, user, role)
  {
    hide MembershipUserID, Owners, ClosedTenants, Trim, Lower;
  }

  /** In every reachable state each role was granted by some step, and has stood since. */
  lemma {:induction false} RoleProvenance(ss: seq<State>, steps: seq<Action>, n: nat, tenant: string, user: string, role: string)
    requires Run(ss, steps) && n < |ss| && HasRole(ss[n], tenant, user, role)
    ensures exists k :: 0 <= k < n && Grants(ss[k], steps[k], tenant, user, role) &&
              forall j :: k < j <= n ==> HasRole(ss[j], tenant, user, role)
  {
    hide Grants, Apply, Possible;
    if n == 0 {
      assert false;
    } else {
      StepRole(ss[n - 1], steps[n - 1], tenant, user, role);
      if HasRole(ss[n - 1], tenant, user, role) {
        RoleProvenance(ss, steps, n - 1, tenant, user, role);
        var k :| 0 <= k < n - 1 && Grants(ss[k], steps[k], tenant, user, role) &&
          forall j :: k < j <= n - 1 ==> HasRole(ss[j], tenant, user, role);
        assert forall j :: k < j <= n ==> HasRole(ss[j], tenant, user, role);
      } else {
        assert Grants(ss[n - 1], steps[n - 1], tenant, user, role);
      }
    }
  }

  /** The step, by someone who is an owner at that moment, creates the invite as it stands. */
  predicate Invites(s: State, a: Action, i: string, invite: Invite) {
    && a.CreateInvite? && Handle(s, a).1 == Done && a.id == Some(i)
    && invite.tenant == a.tenant && invite.invitedBy == a.u.id && UserIsOwner(s, a.tenant, a.u.id)
    && invite.email == Lower(Trim(a.body.value.0)) && invite.role == a.body.value.1 && invite.token == a.token.value
    && invite.expiresAt == a.now + INVITE_LIFETIME
  }

  predicate HasInvite(s: State, i: string, invite: Invite) {
    i in s.invites && s.invites[i].(acceptedBy := None) == invite.(acceptedBy := None)
  }

  lemma StepInvite(s: State, a: Action, i: string, invite: Invite)
    requires HasInvite(Apply(s, a), i, invite)
    ensures HasInvite(s, i, invite) || Invites(s, a, i, invite)
  {
    hide MembershipUserID, Owners, ClosedTenants, Trim, Lower;
  }

  /** Every invite was created by someone who was an owner then, and only its acceptance mark
      has changed since. */
  lemma {:induction false} InviteProvenance(ss: seq<State>, steps: seq<Action>, n: nat, i: string, invite: Invite)
    requires Run(ss, steps) && n < |ss| && HasInvite(ss[n], i, invite)
    ensures exists k :: 0 <= k < n && Invites(ss[k], steps[k], i, invite) && forall j :: k < j <= n ==> HasInvite(ss[j], i, invite)
  {
    hide Invites, Apply, Possible;
    if n == 0 {
      assert false;
    } else {
      StepInvite(ss[n - 1], steps[n - 1], i, invite);
      if HasInvite(ss[n - 1], i, invite) {
        InviteProvenance(ss, steps, n - 1, i, invite);
        var k :| 0 <= k < n - 1 && Invites(ss[k], steps[k], i, invite) &&
          forall j :: k < j <= n - 1 ==> HasInvite(ss[j], i, invite);
        assert forall j :: k < j <= n ==> HasInvite(ss[j], i, invite);
      } else {
        assert Invites(ss[n - 1], steps[n - 1], i, invite);
      }
    }
  }

  /** A role that comes from an acceptance was offered, within the lifetime of the invite, by
      someone who was an owner when offering it. */
  lemma AcceptedFromOwner(ss: seq<State>, steps: seq<Action>, k: nat, tenant: string, user: string, role: string)
    requires Run(ss, steps) && k < |steps| && steps[k].Accept? && Grants(ss[k], steps[k], tenant, user, role)
    ensures exists j :: 0 <= j < k && Invites(ss[j], steps[j], steps[k].pick, ss[k].invites[steps[k].pick]) &&
              steps[j].tenant == tenant && steps[j].body.value.1 == role &&
              Lower(Lower(Trim(steps[j].body.value.0))) == Lower(steps[k].u.email) &&
              steps[k].now < steps[j].now + INVITE_LIFETIME
  {
    hide Apply, Possible, Handle, Trim, Lower;
    var i := steps[k].pick;
    var invite := ss[k].invites[i];
    InviteProvenance(ss, steps, k, i, invite);
    var j :| 0 <= j < k && Invites(ss[j], steps[j], i, invite);
  }

  // ----- Invites are accepted once -----

  predicate Accepts(s: State, a: Action, i: string) { a.Accept? && a.pick == i && Handle(s, a).1 == Done }

  predicate Makes(a: Action, i: string) { a.CreateInvite? && a.id == Some(i) }

  predicate Spent(s: State, i: string) { i in s.invites ==> s.invites[i].acceptedBy.Some? }

  lemma StepSpent(s: State, a: Action, i: string)
    requires Spent(s, i) || Accepts(s, a, i)
    requires !Makes(a, i)
    ensures Spent(Apply(s, a), i)
  {
    hide MembershipUserID, Owners, ClosedTenants, Trim, Lower;
  }

  lemma {:induction false} RunSpent(ss: seq<State>, steps: seq<Action>, j: nat, k: nat, i: string)
    requires Run(ss, steps) && j < k < |ss| && Accepts(ss[j], steps[j], i)
    requires forall m :: j < m < k ==> !Makes(steps[m], i)
    ensures Spent(ss[k], i)
    decreases k
  {
    hide Apply, Possible, Handle, Spent;
    if k > j + 1 {
      RunSpent(ss, steps, j, k - 1, i);
    }
    StepSpent(ss[k - 1], steps[k - 1], i);
  }

  /** Between two acceptances under one id, an invite with that id was created anew: each
      invite is accepted at most once. */
  lemma AcceptedOnce(ss: seq<State>, steps: seq<Action>, j: nat, k: nat, i: string)
    requires Run(ss, steps) && j < k < |steps| && Accepts(ss[j], steps[j], i) && Accepts(ss[k], steps[k], i)
    ensures exists m :: j < m < k && Makes(steps[m], i)
  {
    hide Apply, Possible, Trim, Lower;
    if forall m :: j < m < k ==> !Makes(steps[m], i) {
      RunSpent(ss, steps, j, k, i);
      assert false;
    }
  }

  /** If no two invites are created under one id, no invite is accepted twice. */
  lemma FreshIdsAcceptedOnce(ss: seq<State>, steps: seq<Action>, j: nat, k: nat, i: string)
    requires Run(ss, steps) && j < k < |steps|
    requires forall a, b :: 0 <= a < b < |steps| ==> !(Makes(steps[a], i) && Makes(steps[b], i))
    ensures !(Accepts(ss[j], steps[j], i) && Accepts(ss[k], steps[k], i))
  {
    hide Apply, Possible, Accepts, Makes;
    if Accepts(ss[j], steps[j], i) && Accepts(ss[k], steps[k], i) {
      AcceptedOnce(ss, steps, j, k, i);
      CreatedBefore(ss, steps, j, i);
      assert false;
    }
  }

  lemma CreatedBefore(ss: seq<State>, steps: seq<Action>, j: nat, i: string)
    requires Run(ss, steps) && j < |steps| && Accepts(ss[j], steps[j], i)
    ensures exists first :: 0 <= first < j && Makes(steps[first], i)
  {
    hide Apply, Possible, Accepts, Makes;
    var invite := AcceptedInvite(ss[j], steps[j], i);
    InviteProvenance(ss, steps, j, i, invite);
    var first :| 0 <= first < j && Invites(ss[first], steps[first], i, invite);
    InvitesMakes(ss[first], steps[first], i, invite);
  }

  lemma AcceptedInvite(s: State, a: Action, i: string) returns (invite: Invite)
    requires Accepts(s, a, i)
    ensures HasInvite(s, i, invite)
  {
    hide Trim, Lower;
    invite := s.invites[i];
  }

  lemma InvitesMakes(s: State, a: Action, i: string, invite: Invite)
    requires Invites(s, a, i, invite)
    ensures Makes(a, i)
  {
  }

  // ----- Membership ids -----

  lemma {:induction false} SplitOnceAt(a: string, b: string)
    requires ':' !in a
    ensures SplitOnce(a + [':'] + b) == [a, b]
  {
    var s := a + [':'] + b;
    if a == "" {
      assert s[1..] == b;
    } else {
      assert s[1..] == a[1..] + [':'] + b;
      SplitOnceAt(a[1..], b);
      assert a == [a[0]] + a[1..];
    }
  }

  lemma {:induction false} SplitOnceHead(s: string)
    ensures SplitOnce(s) != [] && ':' !in SplitOnce(s)[0]
  {
    if s != "" && s[0] != ':' {
      SplitOnceHead(s[1..]);
    }
  }

  /** The id shown for a membership leads back to its user exactly when the tenant id has no
      colon. */
  lemma MembershipIDRoundTrip(tenant: string, user: string)
    requires user != ""
    ensures MembershipUserID(tenant + ":" + user, tenant) == user <==> ':' !in tenant
  {
    hide SplitOnce;
    if ':' !in tenant {
      SplitOnceAt(tenant, user);
    } else {
      SplitOnceHead(tenant + ":" + user);
    }
  }

  // ----- What goes wrong -----

  const ADA := User("ada", "ada@x")

  const ADAS_TENANT := map["t" := Tenant("t", "t", "ada")]
  const OFFER := Invite("t", "ada@x", VIEWER, "k", "ada", INVITE_LIFETIME, None)
  const OWNED := State(ADAS_TENANT, map[("t", "ada") := Membership("ada@x", OWNER)], map[])
  const OFFERED := State(ADAS_TENANT, map[("t", "ada") := Membership("ada@x", OWNER)], map["i" := OFFER])
  const LOST := State(ADAS_TENANT, map[("t", "ada") := Membership("ada@x", VIEWER)],
                      map["i" := OFFER.(acceptedBy := Some("ada"))])

  lemma LosingSteps()
    ensures Apply(EMPTY, Create(ADA, Some("t"), "t", Some("t"))) == OWNED
    ensures Apply(OWNED, CreateInvite(ADA, "t", Some(("ada@x", VIEWER)), Some("i"), Some("k"), 0)) == OFFERED
  {
    LostTrims();
  }

  lemma LosingAcceptance()
    ensures OpenInvites(OFFERED, "k", 1) == {"i"}
    ensures Apply(OFFERED, Accept(ADA, Some("k"), "i", 1)) == LOST
  {
    LostTrims();
    assert OFFERED.invites["i"] == OFFER;
  }

  /** A tenant with one owner, who then accepts an invite to be a viewer. */
  lemma OwnerCanBeLost()
    ensures exists ss, steps :: Run(ss, steps) && !OwnerSafe(ss[|steps|])
  {
    hide Apply, OpenInvites;
    var a1 := Create(ADA, Some("t"), "t", Some("t"));
    var a2 := CreateInvite(ADA, "t", Some(("ada@x", VIEWER)), Some("i"), Some("k"), 0);
    var a3 := Accept(ADA, Some("k"), "i", 1);
    LosingSteps();
    LosingAcceptance();
    var ss, steps := [EMPTY, OWNED, OFFERED, LOST], [a1, a2, a3];
    assert Run(ss, steps);
    assert "t" in LOST.tenants && !Owned(LOST, "t");
  }

  lemma LostTrims()
    ensures Trim("t") == "t" && Trim("k") == "k" && Trim("ada@x") == "ada@x" && Lower("ada@x") == "ada@x"
  {
  }

  const BOB := User("bob", "bob@x")
  const BOBS_OFFER := Invite("t", "bob@x", MEMBER, "k", "ada", INVITE_LIFETIME, None)
  const BOTH := State(ADAS_TENANT,
                      map[("t", "ada") := Membership("ada@x", OWNER), ("t", "bob") := Membership("bob@x", MEMBER)],
                      map["i" := BOBS_OFFER.(acceptedBy := Some("bob"))])

  lemma SharingSteps()
    ensures var offered := OWNED.(invites := map["i" := BOBS_OFFER]);
      && Apply(OWNED, CreateInvite(ADA, "t", Some(("bob@x", MEMBER)), Some("i"), Some("k"), 0)) == offered
      && OpenInvites(offered, "k", 1) == {"i"}
      && Apply(offered, Accept(BOB, Some("k"), "i", 1)) == BOTH
  {
    LostTrims();
    BobTrims();
    var offered := OWNED.(invites := map["i" := BOBS_OFFER]);
    assert offered.invites["i"] == BOBS_OFFER;
    assert OpenInvites(offered, "k", 1) == {"i"};
  }

  lemma BobTrims()
    ensures Trim("bob@x") == "bob@x" && Lower("bob@x") == "bob@x"
  {
  }

  /** A run after which closing the caller's account deletes a tenant that has another member. */
  lemma ClosureDeletesShared()
    ensures exists ss: seq<State>, steps: seq<Action> :: Run(ss, steps) && |ss| == 4 &&
              var s := ss[3];
                && "t" in s.tenants && ("t", "bob") in s.members && !SoleMember(s, "t", "ada")
                && "t" !in Apply(s, CloseAccount(ADA)).tenants
  {
    hide Apply, OpenInvites;
    var a1 := Create(ADA, Some("t"), "t", Some("t"));
    var a2 := CreateInvite(ADA, "t", Some(("bob@x", MEMBER)), Some("i"), Some("k"), 0);
    var a3 := Accept(BOB, Some("k"), "i", 1);
    LosingSteps();
    SharingSteps();
    var ss, steps := [EMPTY, OWNED, OWNED.(invites := map["i" := BOBS_OFFER]), BOTH], [a1, a2, a3];
    assert Run(ss, steps);
    RunInv(ss, steps, 3);
    ClosureDeletes(BOTH, ADA);
    assert ("t", "ada") in BOTH.members && ("t", "bob") in BOTH.members;
  }
}
