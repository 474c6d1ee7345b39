/** `migrate_users`: user records keyed by `username`. */
module Users {
  import opened Wrappers
  import opened Migration

  /** A user's learning progress: the questions answered, and a tally per category. */
  datatype Progress = Progress(completedQuestions: seq<string>, byCategory: map<string, int>)

  /** The progress a user row gets when the record carries none. */
  const NoProgress := Progress([], map[])

  /** One object of `users.json`; `None` is a field the object does not carry. */
  datatype UserRecord = UserRecord(
    username: Option<string>,
    email: Option<string>,
    password: Option<string>,
    active: Option<bool>,
    role: Option<string>,
    progress: Option<Progress>,
    avatarUrl: Option<string>)

  /** A row of the user table. The password is stored as given. */
  datatype User = User(
    username: string,
    email: string,
    password: string,
    active: bool,
    role: string,
    progress: Progress,
    avatarUrl: Option<string>)

  /** A record with only a user name. */
  function Bare(username: string): UserRecord {
    UserRecord(Some(username), None, None, None, None, None, None)
  }

  /** The record's user name, unless it is absent or empty. */
  function Key(rec: UserRecord): Option<string> {
    PresentKey(rec.username)
  }

  /** The row for a new user, every absent field given its default. */
  function Build(username: string, rec: UserRecord): User {
    User(
      username,
      rec.email.GetOr(""),
      rec.password.GetOr(""),
      rec.active.GetOr(false),
      rec.role.GetOr("user"),
      rec.progress.GetOr(NoProgress),
      rec.avatarUrl)
  }

  /** The user pass: new users are staged, existing ones left alone. */
  function Migrate(store: map<string, User>, recs: seq<UserRecord>): (r: Outcome<string, User>)
    ensures IsSubMap(store, r.store)
    ensures r.store.Keys == store.Keys + KeysOf(recs, Key)
    ensures r.inserted == |r.store| - |store|
  {
    RunKeys(store, recs, Key, Build);
    Run(store, recs, Key, Build)
  }

  /** A user absent before the run is present after it exactly when some
      record carries that non-empty name. */
  lemma InsertsNamedUsers(store: map<string, User>, recs: seq<UserRecord>, name: string)
    requires name !in store
    ensures name in Migrate(store, recs).store
        <==> name != "" && exists i :: 0 <= i < |recs| && recs[i].username == Some(name)
  {
    RunInsertsIfAbsent(store, recs, Key, Build, name);
    if exists i :: 0 <= i < |recs| && recs[i].username == Some(name) {
      var i :| 0 <= i < |recs| && recs[i].username == Some(name);
      if name != "" {
        assert Key(recs[i]) == Some(name);
      }
    }
  }

  /** A new user name gets the row built from the first record with that
      name, filed under that name. */
  lemma NewRowFromFirstRecord(store: map<string, User>, recs: seq<UserRecord>, name: string)
    requires name !in store
    requires name in KeysOf(recs, Key)
    ensures name in Migrate(store, recs).store
    ensures Migrate(store, recs).store[name] == Build(name, recs[FirstIndex(recs, Key, name)])
    ensures Migrate(store, recs).store[name].username == name
  {
    RunRowFromFirstRecord(store, recs, Key, Build, name);
  }

  /** A record without a user name, or with an empty one, changes nothing. */
  lemma SkipsNamelessRecord(store: map<string, User>, rec: UserRecord)
    requires rec.username.None? || rec.username == Some("")
    ensures Migrate(store, [rec]) == Outcome(store, 0)
  {
    RunOne(store, rec, Key, Build);
  }

  /** A record for a user already in the table changes nothing. */
  lemma SkipsExistingUser(store: map<string, User>, rec: UserRecord)
    requires rec.username.Some? && rec.username.value in store
    ensures Migrate(store, [rec]) == Outcome(store, 0)
  {
    RunOne(store, rec, Key, Build);
  }

  /** A new user whose record carries only a name gets an empty e-mail and
      password, is inactive, has role "user", no progress and no avatar. */
  lemma InsertsWithDefaults(store: map<string, User>, name: string)
    requires name != "" && name !in store
    ensures Migrate(store, [Bare(name)])
         == Outcome(store[name := User(name, "", "", false, "user", NoProgress, None)], 1)
  {
    RunOne(store, Bare(name), Key, Build);
  }
}
