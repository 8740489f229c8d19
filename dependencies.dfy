/** The role guard every role-scoped handler runs before it acts. */
module Dependencies {
  import opened Outcomes
  import opened Tables
  import opened Models

  /** Some user has this id and this role. */
  ghost predicate HasRole(users: seq<User>, userId: int, role: UserRole) {
    exists u :: u in users && u.id == userId && u.role == role
  }

  /** Looks the user up by id: no such user is `NotFound`, a user with another
      role is `InvalidRole`, otherwise the user is returned. It only reads. */
  function EnsureRole(users: seq<User>, userId: int, role: UserRole): (r: Result<User>)
    ensures r == Err(NotFound) <==> forall u :: u in users ==> u.id != userId
    ensures r == Err(InvalidRole) ==> exists u :: u in users && u.id == userId && u.role != role
    ensures r.Err? ==> r.error == NotFound || r.error == InvalidRole
    ensures r.Ok? ==> r.value in users && r.value.id == userId && r.value.role == role
    ensures Increasing(users, UserKey) ==> (r.Ok? <==> HasRole(users, userId, role))
  {
    match Find(users, UserKey, userId)
    case None => Err(NotFound)
    case Some(i) => if users[i].role != role then Err(InvalidRole) else Ok(users[i])
  }

  /** Adding a user takes no role away from anyone. */
  lemma HasRoleAppend(users: seq<User>, u: User)
    ensures forall id, role :: HasRole(users, id, role) ==> HasRole(users + [u], id, role)
  {
    forall id, role | HasRole(users, id, role) ensures HasRole(users + [u], id, role) {
      var w :| w in users && w.id == id && w.role == role;
      assert w in users + [u];
    }
  }

  /** Rewriting a user without touching its id or role keeps every role. */
  lemma HasRoleUpdate(users: seq<User>, i: nat, u: User)
    requires i < |users| && u.id == users[i].id && u.role == users[i].role
    ensures forall id, role :: HasRole(users, id, role) ==> HasRole(users[i := u], id, role)
  {
    forall id, role | HasRole(users, id, role) ensures HasRole(users[i := u], id, role) {
      var w :| w in users && w.id == id && w.role == role;
      var j :| 0 <= j < |users| && users[j] == w;
      if j == i { assert users[i := u][i] == u; } else { assert users[i := u][j] == w; }
    }
  }
}
