/** `migrate_questions`: question records keyed by their externally supplied `id`. */
module Questions {
  import opened Wrappers
  import opened Migration

  /** One object of `questions.json`; `None` is a field the object does not carry. */
  datatype QuestionRecord = QuestionRecord(
    id: Option<string>,
    category: Option<string>,
    question: Option<string>,
    options: Option<seq<string>>,
    answer: Option<string>)

  /** A row of the question table; `options` keeps the order of the choices. */
  datatype Question = Question(
    id: string,
    category: string,
    question: string,
    options: seq<string>,
    answer: string)

  /** A record with only an id. */
  function Bare(id: string): QuestionRecord {
    QuestionRecord(Some(id), None, None, None, None)
  }

  /** The record's id, unless it is absent or empty. */
  function Key(rec: QuestionRecord): Option<string> {
    PresentKey(rec.id)
  }

  /** The row for a new question, every absent field given its default. */
  function Build(id: string, rec: QuestionRecord): Question {
    Question(
      id,
      rec.category.GetOr(""),
      rec.question.GetOr(""),
      rec.options.GetOr([]),
      rec.answer.GetOr(""))
  }

  /** The question pass: new questions are staged, existing ones left alone. */
  function Migrate(store: map<string, Question>, recs: seq<QuestionRecord>): (r: Outcome<string, Question>)
    ensures IsSubMap(store, r.store)
    ensures r.store.Keys == store.Keys + KeysOf(recs, Key)
    ensures r.inserted == |r.store| - |store|
  {
    RunKeys(store, recs, Key, Build);
    Run(store, recs, Key, Build)
  }

  /** A question absent before the run is present after it exactly when some
      record carries that non-empty id. */
  lemma InsertsKeyedQuestions(store: map<string, Question>, recs: seq<QuestionRecord>, id: string)
    requires id !in store
    ensures id in Migrate(store, recs).store
        <==> id != "" && exists i :: 0 <= i < |recs| && recs[i].id == Some(id)
  {
    RunInsertsIfAbsent(store, recs, Key, Build, id);
    if exists i :: 0 <= i < |recs| && recs[i].id == Some(id) {
      var i :| 0 <= i < |recs| && recs[i].id == Some(id);
      if id != "" {
        assert Key(recs[i]) == Some(id);
      }
    }
  }

  /** A new question id gets the row built from the first record with that
      id, filed under that id. */
  lemma NewRowFromFirstRecord(store: map<string, Question>, recs: seq<QuestionRecord>, id: string)
    requires id !in store
    requires id in KeysOf(recs, Key)
    ensures id in Migrate(store, recs).store
    ensures Migrate(store, recs).store[id] == Build(id, recs[FirstIndex(recs, Key, id)])
    ensures Migrate(store, recs).store[id].id == id
  {
    RunRowFromFirstRecord(store, recs, Key, Build, id);
  }

  /** A record without an id, or with an empty one, changes nothing. */
  lemma SkipsKeylessRecord(store: map<string, Question>, rec: QuestionRecord)
    requires rec.id.None? || rec.id == Some("")
    ensures Migrate(store, [rec]) == Outcome(store, 0)
  {
    RunOne(store, rec, Key, Build);
  }

  /** A record for a question already in the table changes nothing. */
  lemma SkipsExistingQuestion(store: map<string, Question>, rec: QuestionRecord)
    requires rec.id.Some? && rec.id.value in store
    ensures Migrate(store, [rec]) == Outcome(store, 0)
  {
    RunOne(store, rec, Key, Build);
  }

  /** A new question whose record carries only an id gets an empty category,
      text and answer and no options. */
  lemma InsertsWithDefaults(store: map<string, Question>, id: string)
    requires id != "" && id !in store
    ensures Migrate(store, [Bare(id)]) == Outcome(store[id := Question(id, "", "", [], "")], 1)
  {
    RunOne(store, Bare(id), Key, Build);
  }
}
