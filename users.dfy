/** The user table (model/User.java through its repository): users with a
    unique email, each holding one role, plus the table of role names. The
    password, timestamps and profile image are not part of this model. */
module Users {

  import opened Wrappers
  import opened Sequences

  datatype User = User(id: int, email: string, fullName: string, role: string)

  function HasId(id: int): User -> bool {
    (u: User) => u.id == id
  }

  function HasEmail(email: string): User -> bool {
    (u: User) => u.email == email
  }

  /** `findById`: the position of the user with this id. */
  function IndexOfId(users: seq<User>, id: int): Option<nat> {
    FirstWhere(users, HasId(id))
  }

  /** `findByEmail`: the position of the user with this email. */
  function IndexOfEmail(users: seq<User>, email: string): Option<nat> {
    FirstWhere(users, HasEmail(email))
  }

  ghost predicate UniqueKeys(users: seq<User>) {
    forall i, j :: 0 <= i < j < |users| ==> users[i].id != users[j].id && users[i].email != users[j].email
  }

  /** The user and role tables; new users get increasing ids. */
  class UserRepository {
    var users: seq<User>
    var roles: set<string>
    var nextId: int

    ghost predicate Valid()
      reads this
    {
      && UniqueKeys(users)
      && 1 <= nextId
      && forall i :: 0 <= i < |users| ==> 1 <= users[i].id < nextId
    }

    constructor (roleNames: set<string>)
      ensures Valid() && users == [] && roles == roleNames
    {
      users := [];
      roles := roleNames;
      nextId := 1;
    }

    /** `save` of a new user: it is appended under the next id. */
    method Insert(email: string, fullName: string, role: string) returns (u: User)
      requires Valid()
      requires IndexOfEmail(users, email).None?
      modifies this
      ensures Valid()
      ensures u == User(old(nextId), email, fullName, role)
      ensures users == old(users) + [u] && roles == old(roles) && nextId == old(nextId) + 1
      ensures IndexOfEmail(users, email) == Some(|old(users)|)
    {
      u := User(nextId, email, fullName, role);
      users := users + [u];
      nextId := nextId + 1;
      FirstWhereAppend(old(users), u, HasEmail(email));
    }

    /** `setRole` followed by `save` of the user at position `i`. */
    method SetRole(i: nat, role: string)
      requires Valid() && i < |users|
      modifies this
      ensures Valid()
      ensures users == old(users)[i := old(users)[i].(role := role)]
      ensures roles == old(roles) && nextId == old(nextId)
    {
      users := users[i := users[i].(role := role)];
    }
  }
}
