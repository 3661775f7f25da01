/** What each step of a workspace run does to the rows and who may make it happen, said on the
    rows themselves: controllers/workspaces.go and controllers/account.go. */
module WorkspaceEffects {
  import opened Text
  import opened Workspaces
  import opened WorkspaceRuns

  // ----- Rights, on the rows -----

  /** The membership id names the row of `user` in `tenant`. */
  predicate Designates(membershipID: string, tenant: string, user: string) {
    ':' !in tenant && membershipID == tenant + ":" + user
  }

  predicate OwnerRow(s: State, row: (string, string)) { row in s.members && s.members[row].role == OWNER }

  /** The row is an owner's, and the only such row of its tenant. */
  ghost predicate LastOwner(s: State, row: (string, string)) {
    OwnerRow(s, row) && forall other :: OwnerRow(s, other) && other.0 == row.0 ==> other == row
  }

  /** A new tenant under this id, with its creator's membership. */
  predicate Founds(a: Action, tenant: string) {
    a.Create? && a.u.id != "" && !Blank(a.name) && a.id == Some(tenant)
  }

  predicate Renames(s: State, a: Action, tenant: string) {
    && a.Rename? && a.tenant == tenant && !Blank(a.name)
    && (HasRole(s, tenant, a.u.id, OWNER) || HasRole(s, tenant, a.u.id, MEMBER))
  }

  /** An owner deletes the tenant, or one who belongs to it closes the account. */
  predicate Deletes(s: State, a: Action, tenant: string) {
    || (a.Delete? && a.tenant == tenant && OwnerRow(s, (tenant, a.u.id)))
    || (a.CloseAccount? && a.u.id != "anonymous" && (tenant, a.u.id) in s.members)
  }

  /** The row's own user leaves, unless as the last owner, or an owner removes another's row. */
  ghost predicate Removes(s: State, a: Action, row: (string, string)) {
    && a.Remove? && a.tenant == row.0 && Designates(a.membershipID, row.0, row.1)
    && if a.u.id == row.1 then !LastOwner(s, row) else OwnerRow(s, (row.0, a.u.id))
  }

  /** An owner gives the row another role, but the last owner keeps the own one. */
  ghost predicate SetsRole(s: State, a: Action, row: (string, string)) {
    && a.UpdateRole? && a.tenant == row.0 && Designates(a.membershipID, row.0, row.1)
    && a.role.Some? && ValidRole(a.role.value) && OwnerRow(s, (row.0, a.u.id))
    && (a.u.id == row.1 && a.role.value != OWNER ==> !LastOwner(s, row))
  }

  /** The caller accepts the invite: it is open, has that token and is for that address. */
  predicate Takes(s: State, a: Action, i: string) {
    && a.Accept? && a.u.id != "" && !Blank(a.token) && a.pick == i && i in s.invites
    && s.invites[i].token == a.token.value && s.invites[i].acceptedBy == None && a.now < s.invites[i].expiresAt
    && Lower(a.u.email) == Lower(s.invites[i].email)
  }

  predicate Joins(s: State, a: Action, row: (string, string)) {
    a.Accept? && Takes(s, a, a.pick) && row == (s.invites[a.pick].tenant, a.u.id)
  }

  /** An owner issues the invite under this id. */
  predicate Issues(s: State, a: Action, i: string) {
    && a.CreateInvite? && OwnerRow(s, (a.tenant, a.u.id)) && a.id == Some(i) && a.token.Some?
    && a.body.Some? && Trim(a.body.value.0) != "" && ValidRole(a.body.value.1)
  }

  /** The closure takes the invites that the caller sent, and those for the caller's address. */
  predicate Withdraws(s: State, a: Action, i: string)
    requires i in s.invites
  {
    && a.CloseAccount? && a.u.id != "" && a.u.id != "anonymous"
    && (s.invites[i].invitedBy == a.u.id ||
        (Lower(Trim(a.u.email)) != "" && s.invites[i].email == Lower(Trim(a.u.email))))
  }

  // ----- Membership ids and last owners -----

  lemma {:induction false} SplitOnceJoins(s: string)
    ensures var parts := SplitOnce(s);
      (|parts| == 1 && parts[0] == s && ':' !in s) || (|parts| == 2 && ':' !in parts[0] && s == parts[0] + ":" + parts[1])
  {
    if s != "" && s[0] != ':' {
      SplitOnceJoins(s[1..]);
      var rest := SplitOnce(s[1..]);
      assert s == [s[0]] + s[1..];
      if |rest| == 2 {
        assert s == ([s[0]] + rest[0]) + ":" + rest[1];
      }
    } else if s != "" {
      assert s == "" + ":" + s[1..];
    }
  }

  /** The user read from a membership id under a tenant is the one the id designates there. */
  lemma MembershipUserIs(membershipID: string, tenant: string, user: string)
    requires user != ""
    ensures MembershipUserID(membershipID, tenant) == user <==> Designates(membershipID, tenant, user)
  {
    hide SplitOnce;
    SplitOnceJoins(membershipID);
    if Designates(membershipID, tenant, user) {
      MembershipIDRoundTrip(tenant, user);
    }
  }

  /** The count that guards the last owner. */
  lemma LastOwnerCounted(s: State, tenant: string, user: string)
    ensures UserIsOwner(s, tenant, user) && |Owners(s, tenant)| <= 1 <==> LastOwner(s, (tenant, user))
  {
    hide Owners;
    if UserIsOwner(s, tenant, user) {
      if |Owners(s, tenant)| > 1 {
        var other := AnotherOwner(s, tenant, user);
        assert OwnerRow(s, (tenant, other));
      } else {
        OwnersAre(s, tenant, user);
        forall other | OwnerRow(s, other) && other.0 == tenant
          ensures other == (tenant, user)
        {
          OwnersAre(s, tenant, other.1);
          if other.1 != user {
            assert {user, other.1} <= Owners(s, tenant);
            Two(Owners(s, tenant), user, other.1);
          }
        }
      }
    }
  }

  lemma Two(group: set<string>, a: string, b: string)
    requires a in group && b in group && a != b
    ensures |group| >= 2
  {
    assert |group - {a}| == |group| - 1 && b in group - {a};
  }

  // ----- One step -----

  lemma StepTenants(s: State, a: Action, t: string)
    requires Inv(s) && Possible(s, a)
    ensures t in Apply(s, a).tenants <==> (t in s.tenants && !Deletes(s, a, t)) || (t !in s.tenants && Founds(a, t))
    ensures t in s.tenants && t in Apply(s, a).tenants ==>
              Apply(s, a).tenants[t] == if Renames(s, a, t) then s.tenants[t].(name := a.name.value) else s.tenants[t]
    ensures t !in s.tenants && Founds(a, t) ==> Apply(s, a).tenants[t] == Tenant(a.slug, a.name.value, a.u.id)
  {
    hide MembershipUserID, Owners, ClosedTenants, Trim, Lower, OpenInvites;
    match a
    case Create(u, _, _, id) => if id.Some? { NoRow(s, (id.value, u.id)); }
    case Rename(u, tenant, _) => NoRow(s, (tenant, u.id));
    case Delete(u, tenant) => NoRow(s, (tenant, u.id));
    case CloseAccount(u) => ClosedTenantsAre(s, u.id, t); NoRow(s, (t, u.id));
    case _ =>
  }

  lemma NoRow(s: State, row: (string, string))
    requires Inv(s)
    ensures row in s.members ==> row.0 in s.tenants && row.1 != "" && row.0 != ""
  {
    if row in s.members {
      assert MemberOk(s, row);
    }
  }

  lemma StepMembers(s: State, a: Action, row: (string, string))
    requires Inv(s) && Possible(s, a)
    ensures row in Apply(s, a).members <==>
              (row in s.members && !Deletes(s, a, row.0) && !Removes(s, a, row)) || Joins(s, a, row) ||
              (row.0 !in s.tenants && Founds(a, row.0) && row.1 == a.u.id)
    ensures row in s.members && row in Apply(s, a).members ==>
              Apply(s, a).members[row] ==
              if SetsRole(s, a, row) then s.members[row].(role := a.role.value)
              else if Joins(s, a, row) then s.members[row].(role := s.invites[a.pick].role)
              else s.members[row]
    ensures row !in s.members && row in Apply(s, a).members ==>
              Apply(s, a).members[row] == Membership(Lower(a.u.email), if a.Create? then OWNER else s.invites[a.pick].role)
  {
    hide MembershipUserID, Owners, ClosedTenants, Trim, Lower, LastOwner, Designates;
    NoRow(s, row);
    match a
    case Create(u, _, _, id) => if id.Some? { NoRow(s, (id.value, u.id)); }
    case UpdateRole(u, tenant, membershipID, role) =>
      NoRow(s, (tenant, u.id));
      LastOwnerCounted(s, tenant, u.id);
      if row.1 != "" {
        MembershipUserIs(membershipID, tenant, row.1);
      }
    case Remove(u, tenant, membershipID) =>
      NoRow(s, (tenant, u.id));
      LastOwnerCounted(s, tenant, u.id);
      if row.1 != "" {
        MembershipUserIs(membershipID, tenant, row.1);
      }
    case CloseAccount(u) => ClosedTenantsAre(s, u.id, row.0);
    case Delete(u, tenant) => NoRow(s, (tenant, u.id));
    case _ =>
  }

  lemma StepInvites(s: State, a: Action, i: string)
    requires Inv(s) && Possible(s, a)
    ensures i in Apply(s, a).invites <==>
              (i in s.invites && !Deletes(s, a, s.invites[i].tenant) && !Withdraws(s, a, i)) ||
              (i !in s.invites && Issues(s, a, i))
    ensures i in s.invites && i in Apply(s, a).invites ==>
              Apply(s, a).invites[i] == if Takes(s, a, i) then s.invites[i].(acceptedBy := Some(a.u.id)) else s.invites[i]
    ensures i !in s.invites && Issues(s, a, i) ==>
              Apply(s, a).invites[i] == Invite(a.tenant, Lower(Trim(a.body.value.0)), a.body.value.1, a.token.value,
                                               a.u.id, a.now + 604800, None)
  {
    hide MembershipUserID, Owners, ClosedTenants, Trim, Lower;
    if i in s.invites {
      assert InviteOk(s, i);
    }
    match a
    case CreateInvite(u, tenant, _, _, _, _) => NoRow(s, (tenant, u.id));
    case CloseAccount(u) =>
      if i in s.invites {
        ClosedTenantsAre(s, u.id, s.invites[i].tenant);
        NoRow(s, (s.invites[i].tenant, u.id));
      }
    case Delete(u, tenant) => NoRow(s, (tenant, u.id));
    case _ =>
  }

  // ----- Replies -----

  /** What a step must be to succeed. */
  ghost predicate Succeeds(s: State, a: Action) {
    match a
    case Create(_, _, _, id) => id.Some? && Founds(a, id.value) && id.value !in s.tenants
    case Rename(_, tenant, _) => Renames(s, a, tenant)
    case Delete(_, tenant) => Deletes(s, a, tenant)
    case UpdateRole(_, tenant, membershipID, _) =>
      exists user :: user != "" && (tenant, user) in s.members && SetsRole(s, a, (tenant, user))
    case Remove(_, tenant, membershipID) => exists user :: user != "" && Removes(s, a, (tenant, user))
    case CreateInvite(_, _, _, id, _, _) => id.Some? && Issues(s, a, id.value) && id.value !in s.invites
    case Accept(_, _, pick, _) => Takes(s, a, pick)
    case CloseAccount(u) => u.id != "" && u.id != "anonymous"
  }

  /** A request is answered with success exactly when its step has the right to happen, and
      otherwise with an error and without any change. */
  lemma SucceedsIff(ss: seq<State>, steps: seq<Action>, k: nat)
    requires Run(ss, steps) && k < |steps|
    ensures Handle(ss[k], steps[k]).1 == Done <==> Succeeds(ss[k], steps[k])
    ensures !Succeeds(ss[k], steps[k]) ==> ss[k + 1] == ss[k]
  {
    hide MembershipUserID, Owners, ClosedTenants, Trim, Lower, LastOwner, Designates, OpenInvites, Inv, Possible;
    var s, a := ss[k], steps[k];
    RunInv(ss, steps, k);
    match a
    case Create(u, _, _, id) => if id.Some? { NoRow(s, (id.value, u.id)); }
    case UpdateRole(u, tenant, membershipID, role) =>
      NoRow(s, (tenant, u.id));
      LastOwnerCounted(s, tenant, u.id);
      TargetIs(membershipID, tenant);
    case Remove(u, tenant, membershipID) =>
      NoRow(s, (tenant, u.id));
      LastOwnerCounted(s, tenant, u.id);
      TargetIs(membershipID, tenant);
    case Accept(u, token, pick, now) => if token.Some? { OpenAre(s, token.value, now, pick); }
    case Rename(u, tenant, _) => NoRow(s, (tenant, u.id));
    case Delete(u, tenant) => NoRow(s, (tenant, u.id));
    case CreateInvite(u, tenant, _, _, _, _) => NoRow(s, (tenant, u.id));
    case CloseAccount(_) =>
  }

  /** A well-formed request by someone known, whose rows or address do not allow it. */
  ghost predicate Forbidden(s: State, a: Action) {
    a.u.id != "" && match a
      case Rename(u, tenant, name) => !Blank(name) && !HasRole(s, tenant, u.id, OWNER) && !HasRole(s, tenant, u.id, MEMBER)
      case Delete(u, tenant) => !OwnerRow(s, (tenant, u.id))
      case UpdateRole(u, tenant, membershipID, role) =>
        && (exists user :: user != "" && Designates(membershipID, tenant, user))
        && role.Some? && ValidRole(role.value) && !OwnerRow(s, (tenant, u.id))
      case Remove(u, tenant, membershipID) =>
        (exists user :: user != "" && user != u.id && Designates(membershipID, tenant, user)) && !OwnerRow(s, (tenant, u.id))
      case CreateInvite(u, tenant, body, _, _, _) =>
        body.Some? && Trim(body.value.0) != "" && ValidRole(body.value.1) && !OwnerRow(s, (tenant, u.id))
      case Accept(u, token, pick, now) =>
        && !Blank(token) && pick in s.invites && s.invites[pick].token == token.value && s.invites[pick].acceptedBy == None
        && now < s.invites[pick].expiresAt && Lower(u.email) != Lower(s.invites[pick].email)
      case _ => false
  }

  /** Requests without an identity are answered with 401, and exactly the forbidden ones with 403. */
  lemma ForbiddenIff(s: State, a: Action)
    ensures Handle(s, a).1 == Refused(401) <==> a.u.id == "" || (a.CloseAccount? && a.u.id == "anonymous")
    ensures Handle(s, a).1 == Refused(403) <==> Forbidden(s, a)
  {
    hide MembershipUserID, Owners, ClosedTenants, Trim, Lower, Designates, OpenInvites;
    match a
    case UpdateRole(u, tenant, membershipID, role) => TargetIs(membershipID, tenant);
    case Remove(u, tenant, membershipID) => TargetIs(membershipID, tenant);
    case Accept(u, token, pick, now) => if token.Some? { OpenAre(s, token.value, now, pick); }
    case _ =>
  }

  lemma OpenAre(s: State, token: string, now: int, pick: string)
    ensures pick in OpenInvites(s, token, now) <==>
            pick in s.invites && s.invites[pick].token == token && s.invites[pick].acceptedBy == None && now < s.invites[pick].expiresAt
  {
  }

  lemma TargetIs(membershipID: string, tenant: string)
    ensures forall user :: user != "" ==> (MembershipUserID(membershipID, tenant) == user <==> Designates(membershipID, tenant, user))
    ensures var user := MembershipUserID(membershipID, tenant); user != "" ==> Designates(membershipID, tenant, user)
  {
    hide MembershipUserID, Designates;
    forall user | user != ""
      ensures MembershipUserID(membershipID, tenant) == user <==> Designates(membershipID, tenant, user)
    {
      MembershipUserIs(membershipID, tenant, user);
    }
  }

  // ----- Deletion -----

  /** `after` is `s` without the tenant, its members and its invites. */
  ghost predicate Without(s: State, after: State, tenant: string) {
    && after.tenants == (map t | t in s.tenants && t != tenant :: s.tenants[t])
    && after.members == (map row | row in s.members && row.0 != tenant :: s.members[row])
    && after.invites == (map i | i in s.invites && s.invites[i].tenant != tenant :: s.invites[i])
  }

  /** An owner's deletion succeeds and removes exactly the tenant, its members and its invites;
      anyone else's is refused and changes nothing. */
  lemma DeletionExact(ss: seq<State>, steps: seq<Action>, k: nat, u: User, tenant: string)
    requires Run(ss, steps) && k < |steps| && steps[k] == Delete(u, tenant)
    ensures if OwnerRow(ss[k], (tenant, u.id)) then
              Handle(ss[k], steps[k]).1 == Done && tenant in ss[k].tenants && Without(ss[k], ss[k + 1], tenant)
            else
              Handle(ss[k], steps[k]).1 == Refused(if u.id == "" then 401 else 403) && ss[k + 1] == ss[k]
  {
    hide Possible, Inv;
    RunInv(ss, steps, k);
    NoRow(ss[k], (tenant, u.id));
  }

  /** A tenant that a step takes away was deleted by an owner of it, or went with the account of
      someone who belonged to it. */
  lemma TenantGone(ss: seq<State>, steps: seq<Action>, k: nat, t: string)
    requires Run(ss, steps) && k < |steps| && t in ss[k].tenants
    ensures t !in ss[k + 1].tenants <==> Deletes(ss[k], steps[k], t)
  {
    hide Apply, Possible, Inv, Deletes, Renames, Founds;
    RunInv(ss, steps, k);
    StepTenants(ss[k], steps[k], t);
  }

  /** A membership that a step takes away was given up by its own user, was removed by an owner,
      or went with its tenant. */
  lemma MembershipGone(ss: seq<State>, steps: seq<Action>, k: nat, row: (string, string))
    requires Run(ss, steps) && k < |steps| && row in ss[k].members
    ensures row !in ss[k + 1].members <==> Removes(ss[k], steps[k], row) || Deletes(ss[k], steps[k], row.0)
  {
    hide Apply, Possible, Inv, Deletes, SetsRole, LastOwner, Designates;
    RunInv(ss, steps, k);
    NoRow(ss[k], row);
    StepMembers(ss[k], steps[k], row);
    if Joins(ss[k], steps[k], row) {
      assert !Removes(ss[k], steps[k], row) && !Deletes(ss[k], steps[k], row.0) by { JoinsTakesNothing(ss[k], steps[k], row); }
    }
  }

  lemma JoinsTakesNothing(s: State, a: Action, row: (string, string))
    requires a.Accept?
    ensures !Removes(s, a, row) && !Deletes(s, a, row.0)
  {
  }

  // ----- Where a tenant and its name come from -----

  /** The step gives the tenant its name: its founder, or an owner or member who renames it. */
  predicate Names(s: State, a: Action, t: string, name: string) {
    (t !in s.tenants && Founds(a, t) && a.name == Some(name)) || (t in s.tenants && Renames(s, a, t) && a.name == Some(name))
  }

  predicate HasName(s: State, t: string, name: string) { t in s.tenants && s.tenants[t].name == name }

  lemma StepName(s: State, a: Action, t: string, name: string)
    requires Inv(s) && Possible(s, a) && HasName(Apply(s, a), t, name)
    ensures HasName(s, t, name) || Names(s, a, t, name)
  {
    hide Apply, Possible, Inv, HasRole, Trim;
    StepTenants(s, a, t);
  }

  /** In every reachable state each tenant has the name it was given by its founder, or by
      someone who was an owner or member of it then, and has had it since. */
  lemma {:induction false} NameProvenance(ss: seq<State>, steps: seq<Action>, n: nat, t: string, name: string)
    requires Run(ss, steps) && n < |ss| && HasName(ss[n], t, name)
    ensures exists k :: 0 <= k < n && Names(ss[k], steps[k], t, name) && forall j :: k < j <= n ==> HasName(ss[j], t, name)
  {
    hide Names, Apply, Possible, Inv;
    if n == 0 {
      assert false;
    } else {
      RunInv(ss, steps, n - 1);
      StepName(ss[n - 1], steps[n - 1], t, name);
      if HasName(ss[n - 1], t, name) {
        NameProvenance(ss, steps, n - 1, t, name);
        var k :| 0 <= k < n - 1 && Names(ss[k], steps[k], t, name) && forall j :: k < j <= n - 1 ==> HasName(ss[j], t, name);
        assert forall j :: k < j <= n ==> HasName(ss[j], t, name);
      } else {
        assert Names(ss[n - 1], steps[n - 1], t, name);
      }
    }
  }

  /** The step by which `founder` creates the tenant and becomes its owner. */
  predicate Begins(s: State, a: Action, t: string, slug: string, founder: string) {
    t !in s.tenants && Founds(a, t) && a.slug == slug && a.u.id == founder && HasRole(Apply(s, a), t, founder, OWNER)
  }

  predicate Stands(s: State, t: string, slug: string, founder: string) {
    t in s.tenants && s.tenants[t].slug == slug && s.tenants[t].createdBy == founder
  }

  lemma StepStands(s: State, a: Action, t: string, slug: string, founder: string)
    requires Inv(s) && Possible(s, a) && Stands(Apply(s, a), t, slug, founder)
    ensures Stands(s, t, slug, founder) || Begins(s, a, t, slug, founder)
  {
    hide Apply, Possible, Inv, Renames, Deletes, Blank, Removes, SetsRole, Takes;
    StepTenants(s, a, t);
    NoRow(s, (t, founder));
    StepMembers(s, a, (t, founder));
  }

  /** In every reachable state each tenant goes back to the step in which its founder created it,
      who became its owner in that step, and its slug and founder have not changed since. */
  lemma {:induction false} TenantProvenance(ss: seq<State>, steps: seq<Action>, n: nat, t: string, slug: string, founder: string)
    requires Run(ss, steps) && n < |ss| && Stands(ss[n], t, slug, founder)
    ensures exists k :: 0 <= k < n && Begins(ss[k], steps[k], t, slug, founder) &&
              forall j :: k < j <= n ==> Stands(ss[j], t, slug, founder)
  {
    hide Begins, Apply, Possible, Inv, HasRole;
    if n == 0 {
      assert false;
    } else {
      RunInv(ss, steps, n - 1);
      StepStands(ss[n - 1], steps[n - 1], t, slug, founder);
      if Stands(ss[n - 1], t, slug, founder) {
        TenantProvenance(ss, steps, n - 1, t, slug, founder);
        var k :| 0 <= k < n - 1 && Begins(ss[k], steps[k], t, slug, founder) &&
          forall j :: k < j <= n - 1 ==> Stands(ss[j], t, slug, founder);
        assert forall j :: k < j <= n ==> Stands(ss[j], t, slug, founder);
      } else {
        assert Begins(ss[n - 1], steps[n - 1], t, slug, founder);
      }
    }
  }
}
