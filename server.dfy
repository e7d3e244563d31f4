/**
 * The account routes of the backend: `/register` adds a user with a hashed
 * password unless the username is taken, and `/login` answers 404, 401 or a
 * signed token. The user collection is a sequence of records in insertion
 * order and `findOne` returns the first record with the name. Password
 * hashing, hash comparison and token signing are library calls whose
 * behaviour is not modelled: they are function parameters, and record ids
 * come from a counter.
 */
module UserRegistry {
  import opened Wrappers

  datatype User = User(id: nat, username: string, password: string)

  /** A route's answer: the status code, the message and, for a login, the token. */
  datatype Response = Response(status: int, message: string, token: Option<string>)

  /** The index `findOne({ username })` stops at. */
  function Find(users: seq<User>, username: string): (r: Option<nat>)
    ensures r.Some? ==> r.value < |users| && users[r.value].username == username
    ensures r.Some? ==> forall k :: 0 <= k < r.value ==> users[k].username != username
    ensures r.None? <==> forall k :: 0 <= k < |users| ==> users[k].username != username
  {
    if users == [] then None
    else if users[0].username == username then Some(0)
    else
      match Find(users[1..], username)
      case None => None
      case Some(i) => Some(i + 1)
  }

  /** No two records share a username (the schema's unique index). */
  predicate UniqueNames(users: seq<User>) {
    forall i, j :: 0 <= i < j < |users| ==> users[i].username != users[j].username
  }

  /** Every record has a non-empty username (the schema's `required`, which refuses ""). */
  predicate NamesPresent(users: seq<User>) {
    forall i :: 0 <= i < |users| ==> users[i].username != ""
  }

  /** No two records share an id, and every id is below the next one to hand out. */
  predicate IdsBelow(users: seq<User>, nextId: nat) {
    (forall i :: 0 <= i < |users| ==> users[i].id < nextId)
    && forall i, j :: 0 <= i < j < |users| ==> users[i].id != users[j].id
  }

  /** With unique names, the record found is the only one with that name. */
  lemma FindUnique(users: seq<User>, username: string, k: nat)
    requires UniqueNames(users)
    requires k < |users| && users[k].username == username
    ensures Find(users, username) == Some(k)
  {
    var r := Find(users, username);
    assert r.Some?;
    if r.value != k {
      assert false;
    }
  }

  class UserTable {
    var users: seq<User>
    var nextId: nat

    predicate Valid()
      reads this
    {
      UniqueNames(users) && NamesPresent(users) && IdsBelow(users, nextId)
    }

    constructor ()
      ensures users == [] && Valid()
    {
      users, nextId := [], 0;
    }

    /**
     * `/register`: a taken username gives 400 and changes nothing; a new one
     * is stored with the hash of the password, never the password itself,
     * and gives 201. The empty username fails the schema's validation on
     * save; the handler does not catch that, so no answer is sent (`None`)
     * and nothing is stored.
     */
    method Register(username: string, password: string, hash: string -> string) returns (r: Option<Response>)
      requires Valid()
      modifies this
      ensures Valid()
      ensures Find(old(users), username).Some? ==>
        r == Some(Response(400, "User already exists", None)) && users == old(users) && nextId == old(nextId)
      ensures Find(old(users), username).None? && username == "" ==>
        r.None? && users == old(users) && nextId == old(nextId)
      ensures Find(old(users), username).None? && username != "" ==>
        && r == Some(Response(201, "User registered successfully", None))
        && users == old(users) + [User(old(nextId), username, hash(password))]
        && nextId == old(nextId) + 1
    {
      var existing := Find(users, username);
      if existing.Some? {
        return Some(Response(400, "User already exists", None));
      }
      if username == "" {
        return None;
      }
      users := users + [User(nextId, username, hash(password))];
      nextId := nextId + 1;
      r := Some(Response(201, "User registered successfully", None));
    }

    /**
     * `/login`: an unknown username gives 404, a password the comparison
     * rejects 401, and otherwise a token signed over the record's id. The
     * table is only read.
     */
    method Login(username: string, password: string, compare: (string, string) -> bool, sign: nat -> string)
      returns (r: Response)
      ensures Find(users, username).None? ==> r == Response(404, "User not found", None)
      ensures Find(users, username).Some? && !compare(password, users[Find(users, username).value].password) ==>
        r == Response(401, "Invalid credentials", None)
      ensures Find(users, username).Some? && compare(password, users[Find(users, username).value].password) ==>
        r == Response(200, "Login successful", Some(sign(users[Find(users, username).value].id)))
    {
      var found := Find(users, username);
      if found.None? {
        return Response(404, "User not found", None);
      }
      var user := users[found.value];
      if !compare(password, user.password) {
        return Response(401, "Invalid credentials", None);
      }
      r := Response(200, "Login successful", Some(sign(user.id)));
    }
  }

  /** Register then log in with the same password: when the comparison accepts a password against its own hash, the login succeeds. */
  method RegisterThenLogin(t: UserTable, username: string, password: string,
                           hash: string -> string, compare: (string, string) -> bool, sign: nat -> string)
    returns (registered: Option<Response>, login: Response)
    requires t.Valid() && username != "" && Find(t.users, username).None?
    requires compare(password, hash(password))
    modifies t
    ensures registered.Some? && registered.value.status == 201 && login.status == 200 && login.token.Some?
  {
    registered := t.Register(username, password, hash);
    FindUnique(t.users, username, |t.users| - 1);
    login := t.Login(username, password, compare, sign);
  }
}
