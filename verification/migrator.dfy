/** `main`: the four passes in their fixed order, then one commit and the
    per-entity counts. The database is a value; the commit is returning it. */
module Migrator {
  import opened Wrappers
  import opened Migration
  import Users
  import Questions
  import Stats
  import Tickets

  /** The four tables, each keyed by its natural or primary key. */
  datatype Db = Db(
    users: map<string, Users.User>,
    questions: map<string, Questions.Question>,
    stats: map<string, Stats.Stat>,
    tickets: map<string, Tickets.Ticket>)

  /** The parsed data files; `None` is a file that does not exist. */
  datatype DataFiles = DataFiles(
    users: Option<seq<Users.UserRecord>>,
    questions: Option<seq<Questions.QuestionRecord>>,
    stats: Option<seq<Stats.StatEntry>>,
    tickets: Option<seq<Tickets.TicketRecord>>)

  /** The counts the run reports, one per entity. */
  datatype Report = Report(users: nat, questions: nat, stats: nat, tickets: nat)

  const NothingInserted := Report(0, 0, 0, 0)

  const NoFiles: DataFiles := DataFiles(None, None, None, None)

  /** A missing file reads as the given empty default. */
  function ReadJson<T>(file: Option<T>, default: T): T {
    file.GetOr(default)
  }

  /** Users, then questions, then stats, then tickets; then the commit. */
  function Migrate(db: Db, files: DataFiles): (r: (Db, Report))
    ensures IsSubMap(db.users, r.0.users)
    ensures IsSubMap(db.questions, r.0.questions)
    ensures IsSubMap(db.stats, r.0.stats)
    ensures IsSubMap(db.tickets, r.0.tickets)
    ensures r.1.users == |r.0.users| - |db.users|
    ensures r.1.questions == |r.0.questions| - |db.questions|
    ensures r.1.stats == |r.0.stats| - |db.stats|
    ensures r.1.tickets == |r.0.tickets| - |db.tickets|
    ensures r.0.users.Keys == db.users.Keys + KeysOf(ReadJson(files.users, []), Users.Key)
    ensures r.0.questions.Keys == db.questions.Keys + KeysOf(ReadJson(files.questions, []), Questions.Key)
    ensures r.0.stats.Keys == db.stats.Keys + KeysOf(ReadJson(files.stats, []), Stats.Key)
    ensures r.0.tickets.Keys == db.tickets.Keys + KeysOf(ReadJson(files.tickets, []), Tickets.Key)
  {
    var u := Users.Migrate(db.users, ReadJson(files.users, []));
    var q := Questions.Migrate(db.questions, ReadJson(files.questions, []));
    var s := Stats.Migrate(db.stats, ReadJson(files.stats, []));
    var t := Tickets.Migrate(db.tickets, ReadJson(files.tickets, []));
    (Db(u.store, q.store, s.store, t.store), Report(u.inserted, q.inserted, s.inserted, t.inserted))
  }

  /** Running the migration again with the same files inserts nothing and
      leaves the database as the first run left it. */
  lemma {:induction false} MigrateIdempotent(db: Db, files: DataFiles)
    ensures var (db1, _) := Migrate(db, files);
      Migrate(db1, files) == (db1, NothingInserted)
  {
    RunIdempotent(db.users, ReadJson(files.users, []), Users.Key, Users.Build);
    RunIdempotent(db.questions, ReadJson(files.questions, []), Questions.Key, Questions.Build);
    RunIdempotent(db.stats, ReadJson(files.stats, []), Stats.Key, Stats.Build);
    RunIdempotent(db.tickets, ReadJson(files.tickets, []), Tickets.Key, Tickets.Build);
  }

  /** With every data file missing nothing is inserted. */
  lemma MissingFilesChangeNothing(db: Db)
    ensures Migrate(db, NoFiles) == (db, NothingInserted)
  {
  }

  /** A missing data file leaves its own table unchanged and reports zero for
      it, whatever the other files hold. */
  lemma MissingFileChangesItsTable(db: Db, files: DataFiles)
    ensures var (db1, report) := Migrate(db, files);
      && (files.users.None? ==> db1.users == db.users && report.users == 0)
      && (files.questions.None? ==> db1.questions == db.questions && report.questions == 0)
      && (files.stats.None? ==> db1.stats == db.stats && report.stats == 0)
      && (files.tickets.None? ==> db1.tickets == db.tickets && report.tickets == 0)
  {
  }

  /** Into an empty database, one user record for "alice" inserts exactly one
      user and nothing else; a second run inserts nothing. */
  lemma AliceExample()
    ensures var files := DataFiles(Some([Users.UserRecord(Some("alice"), Some("a@x.com"), None, None, None, None, None)]), None, None, None);
      var (db1, report1) := Migrate(Db(map[], map[], map[], map[]), files);
      && report1 == Report(1, 0, 0, 0)
      && db1.users.Keys == {"alice"}
      && db1.users["alice"] == Users.User("alice", "a@x.com", "", false, "user", Users.NoProgress, None)
      && Migrate(db1, files).1 == NothingInserted
  {
    var files := DataFiles(Some([Users.UserRecord(Some("alice"), Some("a@x.com"), None, None, None, None, None)]), None, None, None);
    var rec := Users.UserRecord(Some("alice"), Some("a@x.com"), None, None, None, None, None);
    RunOne(map[], rec, Users.Key, Users.Build);
    MigrateIdempotent(Db(map[], map[], map[], map[]), files);
  }
}
