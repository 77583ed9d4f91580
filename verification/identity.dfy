/** The two user stores the authentication flow consults, as values:
    - the external payroll table (Protheus), keyed by username;
    - the local identity store: the account table, in row order, and the role
      list of each account.
    Lookups return the first matching row, as the underlying queries do.
 */
module Identity {
  import opened Wrappers

  /** A payroll row: `UserProtheus`. */
  datatype UserProtheus = UserProtheus(username: string, protheusId: string, email: string)

  /** A local account: `UserApp`, with the identity fields the code reads or writes.
      The password hash lives inside the identity library and is not a field here. */
  datatype UserApp = UserApp(
    id: int,
    userName: string,
    raNome: string,
    userProtheusId: string,
    email: string,
    securityStamp: string,
    discriminator: Option<string>,
    foto: Option<seq<bv8>>)

  datatype Stores = Stores(
    payroll: map<string, UserProtheus>,
    users: seq<UserApp>,
    roles: map<int, seq<string>>)

  /** What the identity library reports from a create, a role grant or a password reset. */
  datatype IdentityResult = IdentitySucceeded | IdentityFailed(errors: seq<string>)

  /** What `AddToRoleAsync` reports, with the role list it leaves the account with
      (unchanged when it refuses, e.g. for a role already held). */
  datatype RoleUpdate = RoleUpdate(result: IdentityResult, roles: seq<string>)

  /** The payroll query by username (deleted rows are not in the map). */
  function FindProtheus(payroll: map<string, UserProtheus>, username: string): (r: Option<UserProtheus>)
    ensures r.Some? <==> username in payroll
    ensures r.Some? ==> r.value == payroll[username]
  {
    if username in payroll then Some(payroll[username]) else None
  }

  predicate HasName(users: seq<UserApp>, name: string) {
    exists i :: 0 <= i < |users| && users[i].userName == name
  }

  /** `FindByNameAsync`: the first account whose user name is `name`. */
  function FindByName(users: seq<UserApp>, name: string): (r: Option<UserApp>)
    ensures r.None? <==> !HasName(users, name)
    ensures r.Some? ==> r.value in users && r.value.userName == name
    decreases |users|
  {
    if |users| == 0 then None
    else if users[0].userName == name then Some(users[0])
    else
      var r := FindByName(users[1..], name);
      assert HasName(users, name) ==> HasName(users[1..], name) by {
        if HasName(users, name) {
          var i :| 0 <= i < |users| && users[i].userName == name;
          assert i > 0 && users[1..][i - 1].userName == name;
        }
      }
      r
  }

  /** The position of the first account with id `id`. */
  function FindIndexById(users: seq<UserApp>, id: int): (r: Option<nat>)
    ensures r.None? <==> forall i :: 0 <= i < |users| ==> users[i].id != id
    ensures r.Some? ==> r.value < |users| && users[r.value].id == id
    ensures r.Some? ==> forall i :: 0 <= i < r.value ==> users[i].id != id
    decreases |users|
  {
    if |users| == 0 then None
    else if users[0].id == id then Some(0)
    else match FindIndexById(users[1..], id)
      case None => None
      case Some(k) => Some(k + 1)
  }

  /** `GetByIdAsync` / `FindByIdAsync`: the account with id `id`. */
  function FindById(users: seq<UserApp>, id: int): (r: Option<UserApp>)
    ensures r.None? <==> forall i :: 0 <= i < |users| ==> users[i].id != id
    ensures r.Some? ==> r.value in users && r.value.id == id
  {
    match FindIndexById(users, id)
    case None => None
    case Some(k) => Some(users[k])
  }

  /** `GetRolesAsync`: the account's roles in stored order (none if it has no entry). */
  function RolesOf(roles: map<int, seq<string>>, id: int): seq<string> {
    if id in roles then roles[id] else []
  }

  /** No two accounts share a user name. */
  predicate UniqueNames(users: seq<UserApp>) {
    forall i, j :: 0 <= i < j < |users| ==> users[i].userName != users[j].userName
  }

  /** No two accounts share an id. */
  predicate UniqueIds(users: seq<UserApp>) {
    forall i, j :: 0 <= i < j < |users| ==> users[i].id != users[j].id
  }

  /** With unique names, the account found by name is the only one with that name. */
  lemma FindByNameUnique(users: seq<UserApp>, u: UserApp)
    requires UniqueNames(users)
    requires u in users
    ensures FindByName(users, u.userName) == Some(u)
  {
    var k :| 0 <= k < |users| && users[k] == u;
    var r := FindByName(users, u.userName);
    var j :| 0 <= j < |users| && users[j] == r.value;
    assert j == k;
  }

  /** Appending an account under a new name makes it the one found by that name,
      and leaves every other name's lookup as it was. */
  lemma {:induction false} FindByNameAppend(users: seq<UserApp>, u: UserApp, name: string)
    requires !HasName(users, u.userName)
    ensures FindByName(users + [u], name) ==
              if name == u.userName then Some(u) else FindByName(users, name)
    decreases |users|
  {
    if |users| > 0 {
      assert (users + [u])[1..] == users[1..] + [u];
      FindByNameAppend(users[1..], u, name);
    } else {
      assert users + [u] == [u];
    }
  }
}
