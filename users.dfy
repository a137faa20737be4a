/**
 * The user table behind `UserRepository`, keyed by email. The `User` class
 * itself is not part of this model; a user is its id, email and stored
 * (encoded) password.
 */
module Users {
  import opened Wrappers

  datatype User = User(id: int, email: string, password: string)

  class UserRepository {
    var users: map<string, User>
    var nextId: int

    /** Each entry sits under its own email, has a generated id, and no two share an id. */
    predicate Valid()
      reads this
    {
      && (forall e :: e in users ==> users[e].email == e && users[e].id < nextId)
      && (forall e1, e2 :: e1 in users && e2 in users && users[e1].id == users[e2].id ==> e1 == e2)
    }

    constructor ()
      ensures users == map[] && nextId == 1 && Valid()
    {
      users := map[];
      nextId := 1;
    }

    /** `findByEmail` */
    function FindByEmail(email: string): (r: Option<User>)
      reads this
      ensures r.Some? <==> email in users
      ensures r.Some? ==> r.value == users[email]
      ensures r.Some? && Valid() ==> r.value.email == email
    {
      if email in users then Some(users[email]) else None
    }

    /** `save` of a new user: stored under a freshly generated id. */
    method Save(email: string, password: string) returns (user: User)
      requires Valid() && email !in users
      modifies this
      ensures Valid()
      ensures user == User(old(nextId), email, password)
      ensures users == old(users)[email := user] && nextId == old(nextId) + 1
    {
      user := User(nextId, email, password);
      users := users[email := user];
      nextId := nextId + 1;
    }
  }
}
