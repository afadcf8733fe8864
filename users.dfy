/**
 * The user list of the GUI (`self.users`): id allocation, lookup by user
 * name or id, and the checks of the add-user dialog (inventory_ui.py:118-133,
 * 762-773).
 */
module Users {
  import opened Common

  datatype User = User(id: int, username: string, password: string, role: string)

  /** The largest id in a non-empty user list. */
  function MaxId(users: seq<User>): (m: int)
    requires |users| > 0
    ensures exists i :: 0 <= i < |users| && users[i].id == m
    ensures forall i :: 0 <= i < |users| ==> users[i].id <= m
    decreases |users|
  {
    if |users| == 1 then users[0].id
    else
      var rest := MaxId(users[1..]);
      assert forall i :: 1 <= i < |users| ==> users[i] == users[1..][i - 1];
      if users[0].id >= rest then users[0].id else rest
  }

  /** The id the next user gets: 1 for an empty list, otherwise one more than the largest id. */
  function NextUserId(users: seq<User>): (r: int)
    ensures users == [] ==> r == 1
    ensures forall i :: 0 <= i < |users| ==> users[i].id < r
    ensures users != [] ==> exists i :: 0 <= i < |users| && users[i].id == r - 1
  {
    if users == [] then 1 else MaxId(users) + 1
  }

  /** The first user with this user name, if any. */
  function FindUserByUsername(users: seq<User>, username: string): (r: Option<User>)
    ensures r.None? <==> forall i :: 0 <= i < |users| ==> users[i].username != username
    ensures r.Some? ==> exists i :: 0 <= i < |users| && users[i] == r.value && r.value.username == username
                          && forall j :: 0 <= j < i ==> users[j].username != username
    decreases |users|
  {
    if |users| == 0 then None
    else if users[0].username == username then Some(users[0])
    else
      var r := FindUserByUsername(users[1..], username);
      assert forall i :: 1 <= i < |users| ==> users[i] == users[1..][i - 1];
      r
  }

  /** The first user with this id, if any. */
  function FindUserById(users: seq<User>, id: int): (r: Option<User>)
    ensures r.None? <==> forall i :: 0 <= i < |users| ==> users[i].id != id
    ensures r.Some? ==> exists i :: 0 <= i < |users| && users[i] == r.value && r.value.id == id
                          && forall j :: 0 <= j < i ==> users[j].id != id
    decreases |users|
  {
    if |users| == 0 then None
    else if users[0].id == id then Some(users[0])
    else
      var r := FindUserById(users[1..], id);
      assert forall i :: 1 <= i < |users| ==> users[i] == users[1..][i - 1];
      r
  }

  /** No two users share a user name. */
  predicate UniqueUsernames(users: seq<User>) {
    forall i, j :: 0 <= i < j < |users| ==> users[i].username != users[j].username
  }

  /** No two users share an id. */
  predicate UniqueIds(users: seq<User>) {
    forall i, j :: 0 <= i < j < |users| ==> users[i].id != users[j].id
  }

  datatype AddUserOutcome = MissingCredentials | UsernameTaken | Added(id: int)

  /**
   * The add-user dialog's submit (inventory_ui.py:766-773): user name and
   * password must be non-empty, the user name must be free, and the new user
   * is appended with the next id.
   */
  function AddUserStep(users: seq<User>, username: string, password: string, role: string)
    : (r: (AddUserOutcome, seq<User>))
    ensures r.0 == MissingCredentials <==> username == "" || password == ""
    ensures r.0 == UsernameTaken <==>
              username != "" && password != "" && exists i :: 0 <= i < |users| && users[i].username == username
    ensures !r.0.Added? ==> r.1 == users
    ensures r.0.Added? ==> r.1 == users + [User(r.0.id, username, password, role)]
                           && forall i :: 0 <= i < |users| ==> users[i].id < r.0.id
    ensures r.0.Added? ==> r.0.id == NextUserId(users)
  {
    if username == "" || password == "" then (MissingCredentials, users)
    else if FindUserByUsername(users, username).Some? then (UsernameTaken, users)
    else
      var id := NextUserId(users);
      (Added(id), users + [User(id, username, password, role)])
  }

  /** Adding a user keeps user names and ids unique. */
  lemma AddUserKeepsIdentifiersUnique(users: seq<User>, username: string, password: string, role: string)
    requires UniqueUsernames(users) && UniqueIds(users)
    ensures UniqueUsernames(AddUserStep(users, username, password, role).1)
    ensures UniqueIds(AddUserStep(users, username, password, role).1)
  {
    var r := AddUserStep(users, username, password, role);
    if r.0.Added? {
      var u := r.1;
      assert forall i :: 0 <= i < |users| ==> u[i] == users[i];
      assert u[|users|].username == username && u[|users|].id == r.0.id;
    }
  }
}
