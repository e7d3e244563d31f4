/**
 * The session store: the signed-in state lives both in the component's state
 * and under the `auth` key of the browser's key-value storage, and the two
 * operations that change it write both. The storage is a map from keys to the
 * stored session values.
 */
module AuthContext {
  const AuthKey := "auth"

  /** A session value: the flag every page reads plus whatever else the login stored. */
  datatype AuthData = AuthData(isAuthenticated: bool, details: map<string, string>)

  /** `{ isAuthenticated: false }`. */
  const SignedOut := AuthData(false, map[])

  /** The state a page load starts from: the stored session, or signed out without one. */
  function InitialAuth(storage: map<string, AuthData>): AuthData {
    if AuthKey in storage then storage[AuthKey] else SignedOut
  }

  /** A reload right after `setAuth(d)` restores `d`. */
  lemma ReloadAfterSetAuth(storage: map<string, AuthData>, d: AuthData)
    ensures InitialAuth(storage[AuthKey := d]) == d
  {
  }

  /** A reload right after `logout` is signed out, whatever was stored. */
  lemma ReloadAfterLogout(storage: map<string, AuthData>)
    ensures InitialAuth(storage - {AuthKey}) == SignedOut
    ensures !InitialAuth(storage - {AuthKey}).isAuthenticated
  {
  }

  /** Two entries agree on every key but the session's. */
  predicate OthersUnchanged(before: map<string, AuthData>, after: map<string, AuthData>) {
    after - {AuthKey} == before - {AuthKey}
  }

  class AuthProvider {
    var auth: AuthData
    var storage: map<string, AuthData>

    /** The state and the stored session agree: a reload would give the current state. */
    predicate InStep()
      reads this
    {
      auth == InitialAuth(storage)
    }

    /** The provider mounts and reads its initial state from storage. */
    constructor (stored: map<string, AuthData>)
      ensures storage == stored && auth == InitialAuth(stored)
      ensures InStep()
    {
      storage := stored;
      auth := InitialAuth(stored);
    }

    /** `setAuth`: the state and the stored session both become `d`. */
    method SetAuth(d: AuthData)
      modifies this
      ensures auth == d && storage == old(storage)[AuthKey := d]
      ensures OthersUnchanged(old(storage), storage)
      ensures InStep()
    {
      auth := d;
      storage := storage[AuthKey := d];
    }

    /** `logout`: signed out, and the stored session removed. */
    method Logout()
      modifies this
      ensures auth == SignedOut && storage == old(storage) - {AuthKey}
      ensures OthersUnchanged(old(storage), storage)
      ensures InStep()
    {
      auth := SignedOut;
      storage := storage - {AuthKey};
    }
  }

  /** A second logout changes nothing. */
  method LogoutTwice(p: AuthProvider)
    modifies p
    ensures p.auth == SignedOut && AuthKey !in p.storage
    ensures OthersUnchanged(old(p.storage), p.storage)
  {
    p.Logout();
    var afterFirst := p.storage;
    p.Logout();
    assert p.storage == afterFirst;
  }

  /** A page reload after any sequence of operations starts from the state the provider had. */
  method Reload(p: AuthProvider) returns (q: AuthProvider)
    requires p.InStep()
    ensures fresh(q) && q.auth == p.auth && q.storage == p.storage
  {
    q := new AuthProvider(p.storage);
  }
}
