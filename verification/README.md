# JSON-to-database migrator, modelled in Dafny

The script `migrate_json_to_db.py` copies users, questions, answer statistics
and payment tickets from four JSON files into four database tables. Each of
its four `migrate_*` routines walks the records of one file in order and, for
each record:

- in the user, question and ticket routines, drops it when its identifying
  key is absent or empty (`if not username`); the stats routine has no such
  filter and keeps every member name, the empty one included;
- skips it when the table already holds a row with that key;
- otherwise builds a row, filling absent fields with fixed defaults (and
  lower-casing the ticket e-mail), stages it and counts it.

`main` runs the four routines in the order users, questions, stats, tickets,
commits once and prints the four counts, claiming the run is idempotent.

The model states this in Dafny:

- `wrappers.dfy` — `Option`, the absent-or-present JSON field, with `GetOr`
  for Python's `dict.get(key, default)`.
- `text.dfy` — lower-casing of ASCII letters, standing in for the `str.lower` applied to the ticket e-mail.
- `migration.dfy` — the loop the four routines share, written once over an
  arbitrary record type, key extractor and row builder. A table is a
  `map<Key, Row>`; `Stage` is one pass of the loop body, `Run` the whole loop
  as a fold returning an `Outcome(store, inserted)`, and `MigrateLoop` the
  same loop written as a `for` with two `continue`s. The properties are
  proved here once: existing rows are never touched, the final keys are the
  initial keys plus the records' usable keys, the count is the number of new
  keys, every new row comes from the first record carrying its key, and a
  second run over the same records inserts nothing.
- `users.dfy`, `questions.dfy`, `stats.dfy`, `tickets.dfy` — one module per
  routine: the record and row datatypes, the key, the row with its defaults,
  and the routine's own statements of the properties above.
- `migrator.dfy` — `main`: the database as four tables, missing files read
  as empty inputs, the four passes and the report of counts.

The existence check (`User.query.filter_by(...).first()`,
`Question.query.get(qid)`, ...) is modelled as membership in the table that
already includes the rows staged earlier in the same run, so a key repeated
within one file is inserted once, from its first record. This relies on the
ORM flushing pending rows before each query (autoflush), which the script
itself does not show; it is a modelling assumption.

The user, question and ticket routines treat an empty string key like an
absent one (Python truthiness of `if not username`). The stats routine has no
key filter at all, so even an empty member name of `stats.json` gets a row.

## Model

| member | source | states |
|---|---|---|
| Migration.Stage | migrate_json_to_db.py:21-38 | One loop pass never changes an existing row; the keys after it are the keys before plus the record's key, if it has one; a record without a key, or whose key is present, leaves table and count unchanged; the count grows by exactly the number of keys added; a new row is the one built from this record. |
| Migration.Run | migrate_json_to_db.py:18-39 | The whole loop keeps every initial row unchanged (the initial table is a sub-map of the final one) and returns as count the number of rows the table gained. |
| Migration.RunKeys | migrate_json_to_db.py:21-38 | After the loop the table's keys are exactly its initial keys plus the usable keys of the records: every keyed record ends with a row and no other key appears. |
| Migration.RunCountsNewKeys | migrate_json_to_db.py:37-39 | The returned count equals the number of keys in the final table that were absent from the initial one. |
| Migration.RunInsertsIfAbsent | migrate_json_to_db.py:25-38 | A key absent before the run is present after it if and only if some record carries it. |
| Migration.FirstIndex | migrate_json_to_db.py:21 | For a key some record carries, the position of the first record carrying it: that record has the key and no earlier one does. |
| Migration.RunRowFromFirstRecord | migrate_json_to_db.py:25-38 | A usable key absent before the run ends with the row built from the first record carrying it; later records with the same key are skipped. |
| Migration.RunOnCoveredStore | migrate_json_to_db.py:25-27 | When every usable key of the records is already in the table, the loop changes nothing and counts zero. |
| Migration.RunIdempotent | migrate_json_to_db.py:121 | Running the loop again with the same records on the table it produced returns that table unchanged and count zero. |
| Migration.MigrateLoop | migrate_json_to_db.py:18-39 | The `for` loop with its two `continue`s and staged insert computes the same table and count as the fold. |
| Migration.KeysOfMembership | migrate_json_to_db.py:21-24 | A key is among the records' usable keys exactly when some record carries it. |
| Text.Lower | migrate_json_to_db.py:93 | Lower-casing keeps the length, turns each upper-case ASCII letter into its lower-case form, keeps every other character, and leaves no upper-case ASCII letter. |
| Text.LowerKeepsLower | migrate_json_to_db.py:93 | A string with no upper-case ASCII letter is its own lower-case form. |
| Text.LowerIdempotent | migrate_json_to_db.py:93 | Lower-casing twice is lower-casing once. |
| Text.LowerIgnoresCase | migrate_json_to_db.py:93 | Strings that differ only in letter case lower to the same string, so such e-mails are stored identically. |
| Users.Migrate | migrate_json_to_db.py:18-39 | The user pass keeps every existing user row unchanged, ends with the existing names plus the records' usable names, and returns as count the number of rows the table gained. |
| Users.InsertsNamedUsers | migrate_json_to_db.py:22-27 | A user absent before the pass is present after it if and only if some record carries that name and the name is not empty (the filter `Users.Key`, through `Migration.PresentKey`, of lines 22-24). |
| Users.NewRowFromFirstRecord | migrate_json_to_db.py:28-38 | A new user name ends with the row `Users.Build` makes from the first record with that name (each present field stored as given, `active` as given, absent ones defaulted as in lines 30-35), and the row carries that name. |
| Users.SkipsNamelessRecord | migrate_json_to_db.py:22-24 | A record with no or an empty user name leaves the table unchanged and counts zero. |
| Users.SkipsExistingUser | migrate_json_to_db.py:25-27 | A record for an existing user leaves that row, and the whole table, unchanged and counts zero. |
| Users.InsertsWithDefaults | migrate_json_to_db.py:28-38 | A new user given only a name gets e-mail "", password "", inactive, role "user", progress with no completed questions and no categories, no avatar; the count is 1. |
| Questions.Migrate | migrate_json_to_db.py:42-61 | The question pass keeps every existing question row unchanged, ends with the existing ids plus the records' usable ids, and returns as count the number of rows the table gained. |
| Questions.InsertsKeyedQuestions | migrate_json_to_db.py:46-51 | A question absent before the pass is present after it if and only if some record carries that id and the id is not empty (the filter `Questions.Key`, through `Migration.PresentKey`, of lines 46-48). |
| Questions.NewRowFromFirstRecord | migrate_json_to_db.py:52-60 | A new question id ends with the row `Questions.Build` makes from the first record with that id (each present field stored as given, absent ones defaulted as in lines 54-57), and the row carries that id. |
| Questions.SkipsKeylessRecord | migrate_json_to_db.py:46-48 | A record with no or an empty id leaves the table unchanged and counts zero. |
| Questions.SkipsExistingQuestion | migrate_json_to_db.py:49-51 | A record for an existing question leaves the table unchanged and counts zero. |
| Questions.InsertsWithDefaults | migrate_json_to_db.py:52-60 | A new question given only an id gets category "", text "", no options and answer ""; the count is 1. |
| Stats.Migrate | migrate_json_to_db.py:64-78 | The stats pass keeps every existing tally unchanged, ends with the existing ids plus every member name of the object, and returns as count the number of rows the table gained. |
| Stats.EveryEntryHasRow | migrate_json_to_db.py:67-77 | With no key filter (`Stats.Key` keeps every member name), every member name of the object has a row after the pass. |
| Stats.NewRowFromFirstEntry | migrate_json_to_db.py:71-77 | A new question id ends with the tally `Stats.Build` makes from a member with that name (the first, should names repeat; counts as given, 0 where absent as in lines 73-74), and the tally carries that id. |
| Stats.NewRowFromEntry | migrate_json_to_db.py:67-77 | On an object with distinct member names, a member for a question without a tally gets a tally with its own correct and wrong counts, 0 where absent. |
| Stats.SkipsExistingStat | migrate_json_to_db.py:68-70 | A member for a question that already has a tally leaves the table unchanged and counts zero. |
| Stats.InsertsWithDefaults | migrate_json_to_db.py:71-77 | A new member without counts, even with an empty name, gets correct 0 and wrong 0; the count is 1. |
| Tickets.Migrate | migrate_json_to_db.py:81-103 | The ticket pass keeps every existing ticket row unchanged, ends with the existing ids plus the records' usable ids, and returns as count the number of rows the table gained. |
| Tickets.InsertsKeyedTickets | migrate_json_to_db.py:85-90 | A ticket absent before the pass is present after it if and only if some record carries that id and the id is not empty (the filter `Tickets.Key`, through `Migration.PresentKey`, of lines 85-87). |
| Tickets.NewRowFromFirstRecord | migrate_json_to_db.py:91-102 | A new ticket id ends with the row `Tickets.Build` makes from the first record with that id (e-mail lower-cased, other present fields stored as given, absent ones defaulted as in lines 93-99), and the row carries that id. |
| Tickets.NewEmailLowerCase | migrate_json_to_db.py:93 | A new ticket's e-mail is the first record's e-mail (or "") lower-cased, and contains no upper-case ASCII letter. |
| Tickets.SkipsKeylessRecord | migrate_json_to_db.py:85-87 | A record with no or an empty id leaves the table unchanged and counts zero. |
| Tickets.SkipsExistingTicket | migrate_json_to_db.py:88-90 | A record for an existing ticket leaves the table unchanged, whatever its e-mail, and counts zero. |
| Tickets.InsertsWithDefaults | migrate_json_to_db.py:91-102 | A new ticket given only an id gets e-mail "", plan "pro", amount 0, payment method "manual", status "pending", creation time "" and no payment time; the count is 1. |
| Migrator.Migrate | migrate_json_to_db.py:106-120 | A full run leaves every existing row of the four tables unchanged, gives each table exactly the usable keys of its own data file (none when the file is missing), and reports, per table, the number of rows that table gained. |
| Migrator.MigrateIdempotent | migrate_json_to_db.py:110-121 | A second run with the same files inserts nothing in any table and reports four zero counts. |
| Migrator.MissingFileChangesItsTable | migrate_json_to_db.py:10-13 | A missing data file, which `Migrator.ReadJson` reads as the empty default, leaves its own table unchanged and reports zero for it, whatever the other files hold. |
| Migrator.MissingFilesChangeNothing | migrate_json_to_db.py:10-13 | When every data file is missing the database is unchanged and all counts are zero. |
| Migrator.AliceExample | migrate_json_to_db.py:110-117 | One user record for "alice" run into an empty database inserts exactly that user with its defaults and reports 1, 0, 0, 0; a second run reports four zeros. |

## Left out

- File reading and JSON parsing: `read_json` is modelled only as "a missing file reads as the empty default"; the parsed content arrives as datatypes. Malformed JSON and I/O errors, which abort the script, are not modelled.
- A field present with the JSON value `null` is not distinguished from an absent field; in the script `dict.get` would return `None` there (and `.lower()` on it would raise).
- Python's `int()` and `bool()` coercion of arbitrary JSON values: `amount`, `correct` and `wrong` are modelled as already-integer optional fields and `active` as an optional boolean.
- Record keys are strings; an integer `id` (where `0` is also falsy) is not modelled.
- Text.Lower: lower-cases ASCII letters only, because Python's `str.lower` applies full Unicode case mapping.
- The progress per-category aggregate, whose shape the script does not fix, is modelled as an integer per category.
- The user table's own primary key is not modelled; users are keyed by user name, the field the script looks them up by.
- The application context, `db.create_all`, the ORM query internals and `db.session.commit`: the database is a value and the commit is returning it. Autoflush is assumed (see above).
- The printed report lines and completion message: `Report` carries the four counts; the text is not modelled.
- Failure part-way through a run, partial commits and concurrent runs: these belong to the storage layer.
- The order users, questions, stats, tickets is kept in `Migrator.Migrate`, but since each pass touches only its own table the order does not affect the result.
- A `stats.json` object with a repeated member name: `json.load` keeps the last value for it at the first position; the model receives the members as already collapsed (`Stats.DistinctNames`), and on an uncollapsed list it would keep the first member's counts.
