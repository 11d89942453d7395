/** The request handlers of the trivia service over an in-memory store:
    one method per endpoint, each returning the status it answers with. */
module Flaskr {
  import opened Queries
  import opened Pagination

  // ---------------------------------------------------------------------------
  // get_category_list

  /** The id -> type mapping built from the category rows in order; a later row
      with an id already seen overwrites the earlier entry, as a dict does. */
  function CategoryMap(rows: seq<Category>): map<int, string> {
    if rows == [] then map[]
    else CategoryMap(rows[..|rows| - 1])[rows[|rows| - 1].id := rows[|rows| - 1].kind]
  }

  /** The mapping has one key per category id, and no other key. */
  lemma {:induction false} CategoryMapKeys(rows: seq<Category>)
    ensures CategoryMap(rows).Keys == set c | c in rows :: c.id
  {
    if rows != [] {
      var init, last := rows[..|rows| - 1], rows[|rows| - 1];
      CategoryMapKeys(init);
      assert rows == init + [last];
      assert (set c | c in rows :: c.id) == (set c | c in init :: c.id) + {last.id};
    }
  }

  /** A row that no later row shares an id with gives its type to that id. */
  lemma {:induction false} CategoryMapLastWins(rows: seq<Category>, i: int)
    requires 0 <= i < |rows|
    requires forall j :: i < j < |rows| ==> rows[j].id != rows[i].id
    ensures rows[i].id in CategoryMap(rows)
    ensures CategoryMap(rows)[rows[i].id] == rows[i].kind
  {
    if i < |rows| - 1 {
      CategoryMapLastWins(rows[..|rows| - 1], i);
    }
  }

  predicate DistinctCategoryIds(rows: seq<Category>) {
    forall i, j :: 0 <= i < j < |rows| ==> rows[i].id != rows[j].id
  }

  /** With unique category ids (the table's primary key) every category is
      listed under its own id with its own type. */
  lemma CategoryMapOfTable(rows: seq<Category>)
    requires DistinctCategoryIds(rows)
    ensures forall i :: 0 <= i < |rows| ==> rows[i].id in CategoryMap(rows) && CategoryMap(rows)[rows[i].id] == rows[i].kind
  {
    forall i | 0 <= i < |rows|
      ensures rows[i].id in CategoryMap(rows) && CategoryMap(rows)[rows[i].id] == rows[i].kind
    {
      CategoryMapLastWins(rows, i);
    }
  }

  /** `get_category_list`: fills the mapping one row at a time. */
  method CategoryList(rows: seq<Category>) returns (m: map<int, string>)
    ensures m == CategoryMap(rows)
    ensures m.Keys == set c | c in rows :: c.id
  {
    m := map[];
    for i := 0 to |rows|
      invariant m == CategoryMap(rows[..i])
    {
      assert rows[..i + 1][..i] == rows[..i];
      m := m[rows[i].id := rows[i].kind];
    }
    assert rows[..|rows|] == rows;
    CategoryMapKeys(rows);
  }

  // ---------------------------------------------------------------------------
  // Responses

  /** 200 with a payload, 404, or 422. */
  datatype Outcome<T> = Ok(payload: T) | NotFound | Unprocessable

  /** GET /questions */
  datatype QuestionList = QuestionList(
    questions: seq<QuestionJson>,
    totalQuestions: nat,
    categories: map<int, string>)

  /** DELETE /questions/<id> */
  datatype Deletion = Deletion(deleted: int, questions: seq<QuestionJson>, totalQuestions: nat)

  /** POST /questions */
  datatype Creation = Creation(created: int, questions: seq<QuestionJson>, totalQuestions: nat)

  /** POST /questions/query and GET /categories/<id>/questions */
  datatype Matches = Matches(questions: seq<QuestionJson>, totalQuestions: nat)

  /** The JSON body of POST /questions; a missing key reads as `None`. */
  datatype NewQuestion = NewQuestion(
    question: Option<string>,
    answer: Option<string>,
    category: Option<int>,
    difficulty: Option<int>)

  /** The store accepts a new row only with a question text and an answer. */
  predicate Insertable(body: NewQuestion) {
    && body.question.Some? && body.question.value != ""
    && body.answer.Some? && body.answer.value != ""
  }

  // ---------------------------------------------------------------------------
  // The store and the endpoints

  class Database {
    /** `Question.query.all()`, in the store's order. */
    var questions: seq<Question>
    /** `Category.query.all()` */
    var categories: seq<Category>
    /** The id the store's sequence hands out to the next inserted question. */
    var nextId: int

    ghost predicate Valid()
      reads this
    {
      && DistinctIds(questions)
      && (forall q :: q in questions ==> q.id < nextId)
    }

    constructor (categories: seq<Category>)
      ensures Valid()
      ensures this.questions == [] && this.categories == categories && nextId == 1
    {
      this.questions := [];
      this.categories := categories;
      this.nextId := 1;
    }

    /** GET /categories */
    method GetCategories() returns (r: Outcome<map<int, string>>)
      ensures r.Ok?
      ensures r.payload == CategoryMap(categories)
      ensures r.payload.Keys == set c | c in categories :: c.id
    {
      var m := CategoryList(categories);
      r := Ok(m);
    }

    /** GET /questions?page=N: 404 when the requested page holds no question
        (past the last page, or an empty store). */
    method GetQuestions(page: int) returns (r: Outcome<QuestionList>)
      requires page >= 1
      ensures !r.Unprocessable?
      ensures r.NotFound? <==> page > PageCount(|questions|)
      ensures r.Ok? ==>
                && r.payload.questions == PaginateQuestions(questions, page)
                && 0 < |r.payload.questions| <= QUESTIONS_PER_PAGE
                && r.payload.totalQuestions == |questions|
                && r.payload.categories == CategoryMap(categories)
    {
      var paginated := PaginateQuestions(questions, page);
      PageEmptyIffPastEnd(FormatAll(questions), page);
      if |paginated| == 0 {
        return NotFound;
      }
      var cats := CategoryList(categories);
      r := Ok(QuestionList(paginated, |questions|, cats));
    }

    /** DELETE /questions/<id>. The `abort(404)` for a missing id is raised
        inside the `try`, whose bare `except` answers 422 instead: a missing
        id is Unprocessable, never NotFound. */
    method DeleteQuestion(id: int, page: int) returns (r: Outcome<Deletion>)
      requires Valid()
      requires page >= 1
      modifies this
      ensures Valid()
      ensures categories == old(categories) && nextId == old(nextId)
      ensures !r.NotFound?
      ensures r.Unprocessable? <==> !HasId(old(questions), id)
      ensures r.Unprocessable? ==> questions == old(questions)
      ensures r.Ok? ==>
                && (exists i :: 0 <= i < |old(questions)| && old(questions)[i].id == id &&
                                questions == old(questions)[..i] + old(questions)[i + 1..])
                && !HasId(questions, id)
                && r.payload == Deletion(id, PaginateQuestions(questions, page), |old(questions)| - 1)
    {
      if HasId(questions, id) {
        var i :| 0 <= i < |questions| && questions[i].id == id;
        FilterByPresentId(questions, i);
        RemovePresentId(questions, i);
      } else {
        FilterByAbsentId(questions, id);
      }
      // `one_or_none()`: no row aborts, and so would several rows
      var found := Filter(questions, IdIs(id));
      if |found| != 1 {
        return Unprocessable;
      }
      FilterKeepsDistinctIds(questions, IdIsNot(id));
      questions := Filter(questions, IdIsNot(id));
      r := Ok(Deletion(id, PaginateQuestions(questions, page), |questions|));
    }

    /** POST /questions. A row the store rejects answers 422 and inserts nothing;
        otherwise the new question goes to the end of the store under a fresh id. */
    method CreateQuestion(body: NewQuestion, page: int) returns (r: Outcome<Creation>)
      requires Valid()
      requires page >= 1
      modifies this
      ensures Valid()
      ensures categories == old(categories)
      ensures !r.NotFound?
      ensures r.Unprocessable? <==> !Insertable(body)
      ensures r.Unprocessable? ==> questions == old(questions) && nextId == old(nextId)
      ensures r.Ok? ==>
                && r.payload.created == old(nextId) && nextId == old(nextId) + 1
                && (forall q :: q in old(questions) ==> q.id != r.payload.created)
                && questions == old(questions) + [Question(r.payload.created, body.question.value,
                                                           body.answer.value, body.category, body.difficulty)]
                && r.payload.totalQuestions == |old(questions)| + 1
                && r.payload.questions == PaginateQuestions(questions, page)
    {
      if !Insertable(body) {
        return Unprocessable;
      }
      var id := nextId;
      var q := Question(id, body.question.value, body.answer.value, body.category, body.difficulty);
      questions := questions + [q];
      nextId := nextId + 1;
      forall i | 0 <= i < |questions| - 1
        ensures questions[i].id != id
      {
        assert questions[i] in old(questions);
      }
      r := Ok(Creation(id, PaginateQuestions(questions, page), |questions|));
    }

    /** POST /questions/query. `total_questions` is the size of the whole store,
        not the number of matches. */
    method SearchQuestions(term: string, page: int) returns (r: Outcome<Matches>)
      requires page >= 1
      ensures r.Ok?
      ensures r.payload.questions == PaginateQuestions(Filter(questions, QuestionILike(term)), page)
      ensures r.payload.totalQuestions == |questions|
      ensures forall x :: x in r.payload.questions ==>
                exists q :: q in questions && ILike(q.question, term) && x == Format(q)
    {
      var matches := Filter(questions, QuestionILike(term));
      r := Ok(Matches(PaginateQuestions(matches, page), |questions|));
      ListedAreFormatted(matches, page);
    }

    /** GET /categories/<id>/questions. An unknown category is not an error: it
        lists no question. `total_questions` is the size of the whole store. */
    method GetQuestionsByCategory(category: int, page: int) returns (r: Outcome<Matches>)
      requires page >= 1
      ensures r.Ok?
      ensures r.payload.questions == PaginateQuestions(Filter(questions, CategoryIs(category)), page)
      ensures r.payload.totalQuestions == |questions|
      ensures forall x :: x in r.payload.questions ==>
                exists q :: q in questions && q.category == Some(category) && x == Format(q)
      ensures (forall q :: q in questions ==> q.category != Some(category)) ==> r.payload.questions == []
    {
      var matches := Filter(questions, CategoryIs(category));
      if forall q :: q in questions ==> q.category != Some(category) {
        UnknownCategorySelectsNothing(questions, category);
      }
      r := Ok(Matches(PaginateQuestions(matches, page), |questions|));
      ListedAreFormatted(matches, page);
    }
  }

  /** Every question on a page is the formatted form of a question of the list. */
  lemma ListedAreFormatted(qs: seq<Question>, page: int)
    requires page >= 1
    ensures forall x :: x in PaginateQuestions(qs, page) ==> exists q :: q in qs && x == Format(q)
  {
    var p := PaginateQuestions(qs, page);
    forall x | x in p
      ensures exists q :: q in qs && x == Format(q)
    {
      var i :| 0 <= i < |p| && p[i] == x;
      var k := (page - 1) * QUESTIONS_PER_PAGE + i;
      assert x == Format(qs[k]);
    }
  }

  /** The requests of the backend's test suite (backend/test_flaskr.py),
      replayed on a store of five questions. */
  method SuiteScenarios() {
    var db := new Database([Category(1, "Science"), Category(2, "Art")]);
    var body := NewQuestion(Some("Whose title is this?"), Some("scratched"), Some(2), Some(1));
    var c1 := db.CreateQuestion(body, 1);
    var c2 := db.CreateQuestion(body, 1);
    var c3 := db.CreateQuestion(body, 1);
    var c4 := db.CreateQuestion(body, 1);
    var c5 := db.CreateQuestion(body, 1);
    assert |db.questions| == 5 && db.nextId == 6;
    assert forall q :: q in db.questions ==> q.category == Some(2);

    // GET /questions?page=1000 answers 404
    var listing := db.GetQuestions(1000);
    assert listing.NotFound?;

    // DELETE /questions/999 answers 422, not 404, and deletes nothing
    var deletion := db.DeleteQuestion(999, 1);
    assert deletion.Unprocessable? && |db.questions| == 5;

    // POST /questions with empty texts answers 422 and inserts nothing
    var empty := db.CreateQuestion(NewQuestion(Some(""), Some(""), None, None), 1);
    assert empty.Unprocessable? && |db.questions| == 5;

    // a search matching nothing still reports the whole store's size
    var search := db.SearchQuestions("thiswillnotbefound", 1);
    assert search.payload.totalQuestions == 5;

    // an unknown category lists nothing and succeeds
    var byCategory := db.GetQuestionsByCategory(11111, 1);
    assert byCategory.Ok? && byCategory.payload.questions == [];
  }
}
