/** The user administration endpoints of controller/UserController.java:
    `signup`'s duplicate-email guard, `updateUserRole` and `getAllUsers`. */
module UserController {

  import opened Wrappers
  import opened Http
  import opened Text
  import opened Users
  import AuditService

  /** The fields `getAllUsers` and `updateUserRole` report for a user. */
  datatype UserView = UserView(id: int, email: string, fullName: string, role: string)

  function ViewOf(u: User): UserView {
    UserView(u.id, u.email, u.fullName, u.role)
  }

  /** The role name looked up for the requested role. */
  function RoleName(requested: string): (r: string)
    ensures |r| == 5 + |requested|
    ensures StartsWith(r, "ROLE_")
    ensures forall i :: 0 <= i < |requested| ==> r[5 + i] == UpperChar(requested[i])
  {
    "ROLE_" + ToUpper(requested)
  }

  /** The requested role is matched without regard to (ASCII) case. */
  lemma RoleNameIgnoresCase(requested: string)
    ensures RoleName(ToUpper(requested)) == RoleName(requested)
  {
    ToUpperIdempotent(requested);
  }

  /** The details text of the audit entry for a role change. */
  function RoleChangeDetails(email: string, from: string, to: string): (r: string)
    ensures StartsWith(r, "Changed role of user " + email + " from ")
    ensures var n := |"Changed role of user " + email + " from "|;
            |r| >= n + |from| && r[n..n + |from|] == from
    ensures |r| >= |to| && r[|r| - |to|..] == to
  {
    "Changed role of user " + email + " from " + from + " to " + to
  }

  datatype RoleChanged = RoleChanged(message: string, user: UserView)

  /** `updateUserRole`: validate the request, look up the role and then the
      user, log the change, and only then set the role. Every failure is
      answered with 400 and leaves both tables as they were. A "role" key
      mapped to null fails at the upper-casing; the catch block answers with
      the exception's message, which the runtime supplies as `nullMessage`. */
  method UpdateUserRole(repo: UserRepository, audit: AuditService.Service, principal: string,
                        userId: int, request: map<string, Option<string>>, nullMessage: string)
    returns (r: Response<RoleChanged>)
    requires repo.Valid()
    modifies repo, audit
    ensures repo.Valid()
    ensures repo.roles == old(repo.roles) && repo.nextId == old(repo.nextId)
    ensures "role" !in request ==>
              r == Fail(BadRequest, "Role is required")
              && repo.users == old(repo.users) && audit.log == old(audit.log)
    ensures "role" in request && request["role"].None? ==>
              r == Fail(BadRequest, "Error updating user role: " + nullMessage)
              && repo.users == old(repo.users) && audit.log == old(audit.log)
    ensures "role" in request && request["role"].Some? && RoleName(request["role"].value) !in old(repo.roles) ==>
              r == Fail(BadRequest, "Error updating user role: Role not found")
              && repo.users == old(repo.users) && audit.log == old(audit.log)
    ensures "role" in request && request["role"].Some? && RoleName(request["role"].value) in old(repo.roles)
            && IndexOfId(old(repo.users), userId).None? ==>
              r == Fail(BadRequest, "Error updating user role: User not found")
              && repo.users == old(repo.users) && audit.log == old(audit.log)
    ensures "role" in request && request["role"].Some? && RoleName(request["role"].value) in old(repo.roles)
            && IndexOfId(old(repo.users), userId).Some? ==>
              var role := RoleName(request["role"].value);
              var i := IndexOfId(old(repo.users), userId).value;
              var before := old(repo.users)[i];
              && audit.log == old(audit.log) + [AuditService.AuditEntry(principal, "UPDATE_USER_ROLE",
                                                  RoleChangeDetails(before.email, before.role, role), "SUCCESS")]
              && repo.users == old(repo.users)[i := before.(role := role)]
              && r == Ok(RoleChanged("User role updated successfully", ViewOf(before.(role := role))))
  {
    if "role" !in request {
      return Fail(BadRequest, "Role is required");
    }
    if request["role"].None? {
      return Fail(BadRequest, "Error updating user role: " + nullMessage);
    }
    var roleName := RoleName(request["role"].value);
    if roleName !in repo.roles {
      return Fail(BadRequest, "Error updating user role: Role not found");
    }
    var found := IndexOfId(repo.users, userId);
    if found.None? {
      return Fail(BadRequest, "Error updating user role: User not found");
    }
    var i := found.value;
    var user := repo.users[i];
    var _ := audit.LogEvent(principal, "UPDATE_USER_ROLE", RoleChangeDetails(user.email, user.role, roleName), "SUCCESS");
    repo.SetRole(i, roleName);
    r := Ok(RoleChanged("User role updated successfully", ViewOf(repo.users[i])));
  }

  /** `getAllUsers`: one view per stored user, in repository order. */
  method GetAllUsers(repo: UserRepository) returns (r: seq<UserView>)
    ensures |r| == |repo.users|
    ensures forall i :: 0 <= i < |r| ==> r[i] == ViewOf(repo.users[i])
  {
    r := [];
    var i := 0;
    while i < |repo.users|
      invariant 0 <= i <= |repo.users|
      invariant |r| == i
      invariant forall j :: 0 <= j < i ==> r[j] == ViewOf(repo.users[j])
    {
      r := r + [ViewOf(repo.users[i])];
      i := i + 1;
    }
  }

  /** `signup`: an already registered email is refused with 400 and nothing
      is saved; otherwise the user is stored under the next id. Either way
      the email is registered afterwards, so repeating a signup is refused. */
  method Signup(repo: UserRepository, email: string, fullName: string, role: string) returns (r: Response<string>)
    requires repo.Valid()
    modifies repo
    ensures repo.Valid()
    ensures IndexOfEmail(old(repo.users), email).Some? ==>
              r == Fail(BadRequest, "Email already registered.") && repo.users == old(repo.users)
              && repo.nextId == old(repo.nextId)
    ensures IndexOfEmail(old(repo.users), email).None? ==>
              r == Ok("User registered successfully")
              && repo.users == old(repo.users) + [User(old(repo.nextId), email, fullName, role)]
              && repo.nextId == old(repo.nextId) + 1
    ensures IndexOfEmail(repo.users, email).Some?
  {
    if IndexOfEmail(repo.users, email).Some? {
      return Fail(BadRequest, "Email already registered.");
    }
    var _ := repo.Insert(email, fullName, role);
    r := Ok("User registered successfully");
  }
}
