/** Tenants, memberships and invites: controllers/workspaces.go, the workspace part of
    controllers/account.go and `roleMatchesPermission` of controllers/authz.go. Each handler is
    one atomic step. The three tables have the primary keys that the statements rely on, and
    deleting a tenant cascades to its members and invites. */
module Workspaces {
  import opened Text

  const OWNER := "owner"
  const MEMBER := "member"
  const VIEWER := "viewer"

  predicate ValidRole(role: string) { role == OWNER || role == MEMBER || role == VIEWER }

  /** The identity the edge puts in the request headers. */
  datatype User = User(id: string, email: string)

  datatype Tenant = Tenant(slug: string, name: string, createdBy: string)
  datatype Membership = Membership(email: string, role: string)
  datatype Invite = Invite(tenant: string, email: string, role: string, token: string, invitedBy: string,
                           expiresAt: int, acceptedBy: Option<string>)

  datatype State = State(tenants: map<string, Tenant>,
                         members: map<(string, string), Membership>,
                         invites: map<string, Invite>)

  const EMPTY := State(map[], map[], map[])

  /** The response: success, or an HTTP error status. */
  datatype Reply = Done | Refused(status: nat)

  /** Seven days, in seconds. */
  const INVITE_LIFETIME: int := 7 * 24 * 3600

  // ----- Queries -----

  function UserRole(s: State, tenant: string, user: string): string {
    if (tenant, user) in s.members then s.members[(tenant, user)].role else ""
  }

  predicate UserIsMember(s: State, tenant: string, user: string) {
    tenant != "" && user != "" && (tenant, user) in s.members
  }

  predicate UserIsOwner(s: State, tenant: string, user: string) { UserRole(s, tenant, user) == OWNER }

  predicate UserCanWrite(s: State, tenant: string, user: string) {
    UserRole(s, tenant, user) == OWNER || UserRole(s, tenant, user) == MEMBER
  }

  function Owners(s: State, tenant: string): set<string> {
    set row | row in s.members && row.0 == tenant && s.members[row].role == OWNER :: row.1
  }

  /** The open invites that a token finds. */
  function OpenInvites(s: State, token: string, now: int): set<string> {
    set i | i in s.invites && s.invites[i].token == token && s.invites[i].acceptedBy == None && s.invites[i].expiresAt > now
  }

  /** strings.SplitN(s, ":", 2) */
  function SplitOnce(s: string): seq<string> {
    if s == "" then [""]
    else if s[0] == ':' then ["", s[1..]]
    else var rest := SplitOnce(s[1..]); if rest == [] then [s] else [[s[0]] + rest[0]] + rest[1..]
  }

  function MembershipUserID(membershipID: string, tenant: string): string {
    var parts := SplitOnce(membershipID);
    if |parts| != 2 || parts[0] != tenant then "" else parts[1]
  }

  predicate RoleMatchesPermission(role: string, perm: string) {
    if perm == "manage" then role == OWNER
    else if perm == "write" then role == OWNER || role == MEMBER
    else role == OWNER || role == MEMBER || role == VIEWER
  }

  /** Deleting tenants, with the cascade. */
  function DropTenants(s: State, gone: set<string>): State {
    State(map t | t in s.tenants && t !in gone :: s.tenants[t],
          map row | row in s.members && row.0 !in gone :: s.members[row],
          map i | i in s.invites && s.invites[i].tenant !in gone :: s.invites[i])
  }

  // ----- The handlers as functions of the state -----

  /** Request bodies that do not decode are `None`, and so are ids and tokens that could not be
      generated. `pick` is the invite the lookup by token yields, `now` the time of the request. */
  datatype Action =
    | Create(u: User, name: Option<string>, slug: string, id: Option<string>)
    | Rename(u: User, tenant: string, name: Option<string>)
    | Delete(u: User, tenant: string)
    | UpdateRole(u: User, tenant: string, membershipID: string, role: Option<string>)
    | Remove(u: User, tenant: string, membershipID: string)
    | CreateInvite(u: User, tenant: string, body: Option<(string, string)>, id: Option<string>, token: Option<string>, now: int)
    | Accept(u: User, token: Option<string>, pick: string, now: int)
    | CloseAccount(u: User)

  predicate Blank(text: Option<string>) { text.None? || Trim(text.value) == "" }

  function CreateOf(s: State, u: User, name: Option<string>, slug: string, id: Option<string>): (State, Reply) {
    if u.id == "" then (s, Refused(401))
    else if Blank(name) then (s, Refused(400))
    else if id.None? then (s, Refused(500))
    else if id.value in s.tenants || (id.value, u.id) in s.members then (s, Refused(502))
    else (s.(tenants := s.tenants[id.value := Tenant(slug, name.value, u.id)],
             members := s.members[(id.value, u.id) := Membership(Lower(u.email), OWNER)]), Done)
  }

  function RenameOf(s: State, u: User, tenant: string, name: Option<string>): (State, Reply) {
    if u.id == "" then (s, Refused(401))
    else if Blank(name) then (s, Refused(400))
    else if !UserCanWrite(s, tenant, u.id) then (s, Refused(403))
    else if tenant !in s.tenants then (s, Refused(404))
    else (s.(tenants := s.tenants[tenant := s.tenants[tenant].(name := name.value)]), Done)
  }

  function DeleteOf(s: State, u: User, tenant: string): (State, Reply) {
    if u.id == "" then (s, Refused(401))
    else if !UserIsOwner(s, tenant, u.id) then (s, Refused(403))
    else (DropTenants(s, {tenant}), Done)
  }

  function UpdateRoleOf(s: State, u: User, tenant: string, membershipID: string, role: Option<string>): (State, Reply) {
    var target := MembershipUserID(membershipID, tenant);
    if u.id == "" then (s, Refused(401))
    else if target == "" then (s, Refused(400))
    else if role.None? || !ValidRole(role.value) then (s, Refused(400))
    else if !UserIsOwner(s, tenant, u.id) then (s, Refused(403))
    else if target == u.id && role.value != OWNER && |Owners(s, tenant)| <= 1 then (s, Refused(400))
    else if (tenant, target) !in s.members then (s, Refused(404))
    else (s.(members := s.members[(tenant, target) := s.members[(tenant, target)].(role := role.value)]), Done)
  }

  function RemoveOf(s: State, u: User, tenant: string, membershipID: string): (State, Reply) {
    var target := MembershipUserID(membershipID, tenant);
    if u.id == "" then (s, Refused(401))
    else if target == "" then (s, Refused(400))
    else if target != u.id && !UserIsOwner(s, tenant, u.id) then (s, Refused(403))
    else if target == u.id && UserIsOwner(s, tenant, u.id) && |Owners(s, tenant)| <= 1 then (s, Refused(400))
    else (s.(members := s.members - {(tenant, target)}), Done)
  }

  function CreateInviteOf(s: State, u: User, tenant: string, body: Option<(string, string)>, id: Option<string>,
                          token: Option<string>, now: int): (State, Reply)
  {
    if u.id == "" then (s, Refused(401))
    else if body.None? || Trim(body.value.0) == "" || !ValidRole(body.value.1) then (s, Refused(400))
    else if !UserIsOwner(s, tenant, u.id) then (s, Refused(403))
    else if id.None? || token.None? then (s, Refused(500))
    else if id.value in s.invites then (s, Refused(502))
    else
      var invite := Invite(tenant, Lower(Trim(body.value.0)), body.value.1, token.value, u.id, now + INVITE_LIFETIME, None);
      (s.(invites := s.invites[id.value := invite]), Done)
  }

  function AcceptOf(s: State, u: User, token: Option<string>, pick: string, now: int): (State, Reply) {
    if u.id == "" then (s, Refused(401))
    else if Blank(token) then (s, Refused(400))
    else if pick !in OpenInvites(s, token.value, now) then (s, Refused(404))
    else
      var invite := s.invites[pick];
      if Lower(u.email) != Lower(invite.email) then (s, Refused(403))
      else
        var row := (invite.tenant, u.id);
        var email := if row in s.members then s.members[row].email else Lower(u.email);
        (s.(members := s.members[row := Membership(email, invite.role)],
            invites := s.invites[pick := invite.(acceptedBy := Some(u.id))]), Done)
  }

  /** The tenants that the first statement of the closure selects: those in which the caller's
      own rows, grouped by tenant, number one. */
  function ClosedTenants(s: State, user: string): set<string> {
    set t | t in s.tenants && |set row | row in s.members && row.1 == user && row.0 == t| == 1
  }

  function CloseAccountOf(s: State, u: User): (State, Reply) {
    if u.id == "" || u.id == "anonymous" then (s, Refused(401))
    else
      var email := Lower(Trim(u.email));
      var left := DropTenants(s, ClosedTenants(s, u.id));
      (left.(invites := map i | i in left.invites && left.invites[i].invitedBy != u.id &&
                                !(email != "" && left.invites[i].email == email) :: left.invites[i],
             members := map row | row in left.members && row.1 != u.id :: left.members[row]), Done)
  }

  function Handle(s: State, a: Action): (State, Reply) {
    match a
    case Create(u, name, slug, id) => CreateOf(s, u, name, slug, id)
    case Rename(u, tenant, name) => RenameOf(s, u, tenant, name)
    case Delete(u, tenant) => DeleteOf(s, u, tenant)
    case UpdateRole(u, tenant, membershipID, role) => UpdateRoleOf(s, u, tenant, membershipID, role)
    case Remove(u, tenant, membershipID) => RemoveOf(s, u, tenant, membershipID)
    case CreateInvite(u, tenant, body, id, token, now) => CreateInviteOf(s, u, tenant, body, id, token, now)
    case Accept(u, token, pick, now) => AcceptOf(s, u, token, pick, now)
    case CloseAccount(u) => CloseAccountOf(s, u)
  }

  function Apply(s: State, a: Action): State { Handle(s, a).0 }

  // ----- The handlers -----

  class Database {
    var tenants: map<string, Tenant>
    var members: map<(string, string), Membership>
    var invites: map<string, Invite>

    function Now(): State
      reads this
    {
      State(tenants, members, invites)
    }

    constructor ()
      ensures Now() == EMPTY
    {
      tenants, members, invites := map[], map[], map[];
    }

    method TenantsCreateHandler(u: User, name: Option<string>, slug: string, id: Option<string>) returns (reply: Reply)
      modifies this
      ensures (Now(), reply) == CreateOf(old(Now()), u, name, slug, id)
    {
      if u.id == "" {
        return Refused(401);
      }
      if Blank(name) {
        return Refused(400);
      }
      if id == None {
        return Refused(500);
      }
      // One transaction: either both rows are inserted or none.
      if id.value in tenants || (id.value, u.id) in members {
        return Refused(502);
      }
      tenants := tenants[id.value := Tenant(slug, name.value, u.id)];
      members := members[(id.value, u.id) := Membership(Lower(u.email), OWNER)];
      return Done;
    }

    method TenantRenameHandler(u: User, tenant: string, name: Option<string>) returns (reply: Reply)
      modifies this`tenants
      ensures (Now(), reply) == RenameOf(old(Now()), u, tenant, name)
    {
      if u.id == "" {
        return Refused(401);
      }
      if Blank(name) {
        return Refused(400);
      }
      if !UserCanWrite(Now(), tenant, u.id) {
        return Refused(403);
      }
      if tenant !in tenants {
        return Refused(404);
      }
      tenants := tenants[tenant := tenants[tenant].(name := name.value)];
      return Done;
    }

    method DeleteTenants(gone: set<string>)
      modifies this
      ensures Now() == DropTenants(old(Now()), gone)
    {
      members := map row | row in members && row.0 !in gone :: members[row];
      invites := map i | i in invites && invites[i].tenant !in gone :: invites[i];
      tenants := map t | t in tenants && t !in gone :: tenants[t];
    }

    method TenantDeleteHandler(u: User, tenant: string) returns (reply: Reply)
      modifies this
      ensures (Now(), reply) == DeleteOf(old(Now()), u, tenant)
    {
      if u.id == "" {
        return Refused(401);
      }
      if !UserIsOwner(Now(), tenant, u.id) {
        return Refused(403);
      }
      DeleteTenants({tenant});
      return Done;
    }

    method MemberUpdateRoleHandler(u: User, tenant: string, membershipID: string, role: Option<string>) returns (reply: Reply)
      modifies this`members
      ensures (Now(), reply) == UpdateRoleOf(old(Now()), u, tenant, membershipID, role)
    {
      if u.id == "" {
        return Refused(401);
      }
      var target := MembershipUserID(membershipID, tenant);
      if target == "" {
        return Refused(400);
      }
      if role == None || !ValidRole(role.value) {
        return Refused(400);
      }
      if !UserIsOwner(Now(), tenant, u.id) {
        return Refused(403);
      }
      if target == u.id && role.value != OWNER {
        var ownerCount := |Owners(Now(), tenant)|;
        if ownerCount <= 1 {
          return Refused(400);
        }
      }
      if (tenant, target) !in members {
        return Refused(404);
      }
      members := members[(tenant, target) := members[(tenant, target)].(role := role.value)];
      return Done;
    }

    method MemberRemoveHandler(u: User, tenant: string, membershipID: string) returns (reply: Reply)
      modifies this`members
      ensures (Now(), reply) == RemoveOf(old(Now()), u, tenant, membershipID)
    {
      if u.id == "" {
        return Refused(401);
      }
      var target := MembershipUserID(membershipID, tenant);
      if target == "" {
        return Refused(400);
      }
      var isOwner := UserIsOwner(Now(), tenant, u.id);
      if target != u.id && !isOwner {
        return Refused(403);
      }
      if target == u.id {
        var role := UserRole(Now(), tenant, u.id);
        if role == OWNER {
          var ownerCount := |Owners(Now(), tenant)|;
          if ownerCount <= 1 {
            return Refused(400);
          }
        }
      }
      members := members - {(tenant, target)};
      return Done;
    }

    method TenantInviteCreateHandler(u: User, tenant: string, body: Option<(string, string)>, id: Option<string>,
                                     token: Option<string>, now: int) returns (reply: Reply)
      modifies this`invites
      ensures (Now(), reply) == CreateInviteOf(old(Now()), u, tenant, body, id, token, now)
    {
      if u.id == "" {
        return Refused(401);
      }
      if body == None || Trim(body.value.0) == "" || !ValidRole(body.value.1) {
        return Refused(400);
      }
      var email := Lower(Trim(body.value.0));
      if !UserIsOwner(Now(), tenant, u.id) {
        return Refused(403);
      }
      if id == None {
        return Refused(500);
      }
      if token == None {
        return Refused(500);
      }
      if id.value in invites {
        return Refused(502);
      }
      invites := invites[id.value := Invite(tenant, email, body.value.1, token.value, u.id, now + INVITE_LIFETIME, None)];
      return Done;
    }

    method TenantInviteAcceptHandler(u: User, token: Option<string>, pick: string, now: int) returns (reply: Reply)
      modifies this`members, this`invites
      ensures (Now(), reply) == AcceptOf(old(Now()), u, token, pick, now)
    {
      if u.id == "" {
        return Refused(401);
      }
      if Blank(token) {
        return Refused(400);
      }
      if pick !in OpenInvites(Now(), token.value, now) {
        return Refused(404);
      }
      var inv := invites[pick];
      if Lower(u.email) != Lower(inv.email) {
        return Refused(403);
      }
      var row := (inv.tenant, u.id);
      if row in members {
        members := members[row := members[row].(role := inv.role)];
      } else {
        members := members[row := Membership(Lower(u.email), inv.role)];
      }
      invites := invites[pick := inv.(acceptedBy := Some(u.id))];
      return Done;
    }

    method AccountDeleteHandler(u: User) returns (reply: Reply)
      modifies this
      ensures (Now(), reply) == CloseAccountOf(old(Now()), u)
    {
      if u.id == "" || u.id == "anonymous" {
        return Refused(401);
      }
      var userEmail := Lower(Trim(u.email));
      DeleteTenants(ClosedTenants(Now(), u.id));
      if userEmail != "" {
        invites := map i | i in invites && !(invites[i].invitedBy == u.id || invites[i].email == userEmail) :: invites[i];
      } else {
        invites := map i | i in invites && invites[i].invitedBy != u.id :: invites[i];
      }
      members := map row | row in members && row.1 != u.id :: members[row];
      ghost var after := CloseAccountOf(old(Now()), u).0;
      assert tenants == after.tenants && members == after.members && invites == after.invites;
      return Done;
    }
  }
}
