/** The `seed_user` script: make sure a user exists, optionally resetting
    the password of an existing one. `hash_password` is a parameter. */
module SeedUser {
  import opened Common
  import opened Store

  /** Which of the three branches ran; each prints its own message. */
  datatype Outcome = AlreadyExists | PasswordUpdated | Created

  method SeedUser(
    s: State, username: string, password: string, hashPassword: string -> string, newId: string, now: string,
    fullName: Option<string> := None, updateIfExists: bool := false)
    returns (s': State, outcome: Outcome)
    requires newId !in s.users
    ensures HasUsername(s, username) && !updateIfExists ==> outcome == AlreadyExists && s' == s
    ensures HasUsername(s, username) && updateIfExists ==>
      && outcome == PasswordUpdated
      && s' == s.(users := s'.users)
      && s'.users.Keys == s.users.Keys
      && (Valid(s) ==> forall k :: k in s.users && s.users[k].username == username ==>
            s'.users[k] == s.users[k].(passwordHash := hashPassword(password)))
    ensures !HasUsername(s, username) ==>
      && outcome == Created
      && s' == s.(users := s'.users)
      && s'.users.Keys == s.users.Keys + {newId}
      && s'.users[newId] == User(newId, username, hashPassword(password), fullName, now)
    ensures HasUsername(s', username)
    ensures Valid(s) ==> forall k :: k in s.users && s.users[k].username != username ==>
      k in s'.users && s'.users[k] == s.users[k]
    ensures Valid(s) ==> Valid(s')
  {
    var existing := GetUserByUsername(s, username);
    if existing.Some? && !updateIfExists {
      return s, AlreadyExists;
    }
    if existing.Some? && updateIfExists {
      var ok;
      s', ok := UpdateUserPassword(s, username, hashPassword(password));
      return s', PasswordUpdated;
    }
    var u;
    s', u := CreateUser(s, username, hashPassword(password), fullName, newId, now);
    outcome := Created;
  }
}
