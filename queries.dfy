/** Rows of the trivia store and the row filters that the endpoints run over them
    (`Question.query.filter(...)`). */
module Queries {

  datatype Option<T> = None | Some(value: T)

  /** A row of the `questions` table; `category` and `difficulty` are nullable columns. */
  datatype Question = Question(
    id: int,
    question: string,
    answer: string,
    category: Option<int>,
    difficulty: Option<int>)

  /** A row of the `categories` table; the store's column `type` is called `kind` here. */
  datatype Category = Category(id: int, kind: string)

  /** The serialised question that `Question.format()` produces. */
  datatype QuestionJson = QuestionJson(
    id: int,
    question: string,
    answer: string,
    category: Option<int>,
    difficulty: Option<int>)

  function Format(q: Question): QuestionJson {
    QuestionJson(q.id, q.question, q.answer, q.category, q.difficulty)
  }

  /** `[question.format() for question in questions_list]` */
  function FormatAll(qs: seq<Question>): seq<QuestionJson> {
    seq(|qs|, i requires 0 <= i < |qs| => Format(qs[i]))
  }

  /** Question ids are the primary key of the store. */
  predicate DistinctIds(qs: seq<Question>) {
    forall i, j :: 0 <= i < j < |qs| ==> qs[i].id != qs[j].id
  }

  predicate HasId(qs: seq<Question>, id: int) {
    exists q :: q in qs && q.id == id
  }

  // ---------------------------------------------------------------------------
  // Case-insensitive substring match, as `ilike('%term%')` performs it

  function LowerChar(c: char): char {
    if 'A' <= c <= 'Z' then (c as int + 32) as char else c
  }

  function Lower(s: string): string {
    seq(|s|, i requires 0 <= i < |s| => LowerChar(s[i]))
  }

  /** `p` occurs in `s` starting at index `i`. */
  predicate OccursAt(p: string, s: string, i: int) {
    0 <= i && i + |p| <= |s| && s[i..i + |p|] == p
  }

  predicate Contains(s: string, p: string) {
    exists i | 0 <= i <= |s| - |p| :: OccursAt(p, s, i)
  }

  /** `text ILIKE '%term%'`: the term, with letters folded to lower case,
      occurs somewhere in the text, with letters folded the same way. */
  predicate ILike(text: string, term: string) {
    Contains(Lower(text), Lower(term))
  }

  // ---------------------------------------------------------------------------
  // Filters

  /** The WHERE clauses the endpoints build. */
  datatype Criterion =
    | IdIs(id: int)               // Question.id == question_id
    | IdIsNot(id: int)            // the rows that remain after deleting question_id
    | CategoryIs(category: int)   // Question.category == category_id
    | QuestionILike(term: string) // Question.question.ilike('%term%')

  predicate Holds(c: Criterion, q: Question) {
    match c
    case IdIs(id) => q.id == id
    case IdIsNot(id) => q.id != id
    case CategoryIs(cat) => q.category == Some(cat)
    case QuestionILike(term) => ILike(q.question, term)
  }

  /** The rows of `qs` that satisfy `c`, in the store's order. */
  function Filter(qs: seq<Question>, c: Criterion): (r: seq<Question>)
    ensures |r| <= |qs|
    ensures forall q :: q in r <==> q in qs && Holds(c, q)
  {
    if qs == [] then []
    else if Holds(c, qs[0]) then [qs[0]] + Filter(qs[1..], c)
    else Filter(qs[1..], c)
  }

  /** Filtering commutes with concatenation: it keeps the relative order of rows. */
  lemma {:induction false} FilterAppend(a: seq<Question>, b: seq<Question>, c: Criterion)
    ensures Filter(a + b, c) == Filter(a, c) + Filter(b, c)
  {
    if a == [] {
      assert a + b == b;
    } else {
      assert (a + b)[0] == a[0];
      assert (a + b)[1..] == a[1..] + b;
      FilterAppend(a[1..], b, c);
    }
  }

  lemma {:induction false} FilterAllHold(qs: seq<Question>, c: Criterion)
    requires forall q :: q in qs ==> Holds(c, q)
    ensures Filter(qs, c) == qs
  {
    if qs != [] {
      assert qs[0] in qs;
      FilterAllHold(qs[1..], c);
    }
  }

  lemma {:induction false} FilterNoneHold(qs: seq<Question>, c: Criterion)
    requires forall q :: q in qs ==> !Holds(c, q)
    ensures Filter(qs, c) == []
  {
    if qs != [] {
      assert qs[0] in qs;
      FilterNoneHold(qs[1..], c);
    }
  }

  /** Filtering the result of a filter again with the same criterion changes nothing. */
  lemma {:induction false} FilterIdempotent(qs: seq<Question>, c: Criterion)
    ensures Filter(Filter(qs, c), c) == Filter(qs, c)
  {
    FilterAllHold(Filter(qs, c), c);
  }

  /** A filter of a store with unique ids still has unique ids. */
  lemma {:induction false} FilterKeepsDistinctIds(qs: seq<Question>, c: Criterion)
    requires DistinctIds(qs)
    ensures DistinctIds(Filter(qs, c))
  {
    if qs != [] {
      var rest := qs[1..];
      FilterKeepsDistinctIds(rest, c);
      if Holds(c, qs[0]) {
        var r := Filter(qs, c);
        var tail := Filter(rest, c);
        assert r == [qs[0]] + tail;
        forall j | 0 <= j < |tail|
          ensures qs[0].id != tail[j].id
        {
          assert tail[j] in rest;
          var k :| 0 <= k < |rest| && rest[k] == tail[j];
          assert qs[k + 1] == tail[j];
        }
      }
    }
  }

  /** In a store with unique ids, the rows before and after the row at `i` carry other ids. */
  lemma OtherRowsHaveOtherIds(qs: seq<Question>, i: int)
    requires DistinctIds(qs)
    requires 0 <= i < |qs|
    ensures qs == qs[..i] + [qs[i]] + qs[i + 1..]
    ensures forall q :: q in qs[..i] ==> q.id != qs[i].id
    ensures forall q :: q in qs[i + 1..] ==> q.id != qs[i].id
  {
    forall q | q in qs[..i] ensures q.id != qs[i].id {
      var k :| 0 <= k < i && qs[..i][k] == q;
    }
    forall q | q in qs[i + 1..] ensures q.id != qs[i].id {
      var k :| 0 <= k < |qs| - i - 1 && qs[i + 1..][k] == q;
      assert q == qs[i + 1 + k];
    }
  }

  /** Looking a question up by id (`filter(Question.id == id)`) in a store with
      unique ids finds exactly the one row that carries it. */
  lemma FilterByPresentId(qs: seq<Question>, i: int)
    requires DistinctIds(qs)
    requires 0 <= i < |qs|
    ensures Filter(qs, IdIs(qs[i].id)) == [qs[i]]
  {
    var c := IdIs(qs[i].id);
    var before, after := qs[..i], qs[i + 1..];
    OtherRowsHaveOtherIds(qs, i);
    FilterAppend(before + [qs[i]], after, c);
    FilterAppend(before, [qs[i]], c);
    FilterNoneHold(before, c);
    FilterNoneHold(after, c);
  }

  /** Deleting the row with a present id leaves every other row, in its order. */
  lemma RemovePresentId(qs: seq<Question>, i: int)
    requires DistinctIds(qs)
    requires 0 <= i < |qs|
    ensures Filter(qs, IdIsNot(qs[i].id)) == qs[..i] + qs[i + 1..]
  {
    var c := IdIsNot(qs[i].id);
    var before, after := qs[..i], qs[i + 1..];
    OtherRowsHaveOtherIds(qs, i);
    FilterAppend(before + [qs[i]], after, c);
    FilterAppend(before, [qs[i]], c);
    FilterAllHold(before, c);
    FilterAllHold(after, c);
    assert Filter([qs[i]], c) == [] by {
      assert [qs[i]][1..] == [];
    }
    assert Filter(before + [qs[i]], c) == before;
  }

  /** Looking up an id the store does not hold finds nothing; removing it removes nothing. */
  lemma {:induction false} FilterByAbsentId(qs: seq<Question>, id: int)
    requires !HasId(qs, id)
    ensures Filter(qs, IdIs(id)) == []
    ensures Filter(qs, IdIsNot(id)) == qs
  {
    FilterNoneHold(qs, IdIs(id));
    FilterAllHold(qs, IdIsNot(id));
  }

  /** An empty search term builds the pattern `'%%'`, which every question matches. */
  lemma EmptyTermMatchesAll(qs: seq<Question>)
    ensures Filter(qs, QuestionILike("")) == qs
  {
    forall q | q in qs
      ensures Holds(QuestionILike(""), q)
    {
      assert OccursAt(Lower(""), Lower(q.question), 0);
    }
    FilterAllHold(qs, QuestionILike(""));
  }

  lemma LowerIdempotent(s: string)
    ensures Lower(Lower(s)) == Lower(s)
  {
  }

  /** Two search terms that agree up to letter case select the same questions. */
  lemma {:induction false} SearchIgnoresCase(qs: seq<Question>, t1: string, t2: string)
    requires Lower(t1) == Lower(t2)
    ensures Filter(qs, QuestionILike(t1)) == Filter(qs, QuestionILike(t2))
  {
    if qs != [] {
      SearchIgnoresCase(qs[1..], t1, t2);
    }
  }

  /** Searching with a term gives the same questions as searching with its lower-case form
      (so "TITLE" and "title" give the same result). */
  lemma SearchTermLowered(qs: seq<Question>, term: string)
    ensures Filter(qs, QuestionILike(term)) == Filter(qs, QuestionILike(Lower(term)))
  {
    LowerIdempotent(term);
    SearchIgnoresCase(qs, term, Lower(term));
  }

  /** A category no question carries selects nothing: not an error, an empty list. */
  lemma {:induction false} UnknownCategorySelectsNothing(qs: seq<Question>, cat: int)
    requires forall q :: q in qs ==> q.category != Some(cat)
    ensures Filter(qs, CategoryIs(cat)) == []
  {
    FilterNoneHold(qs, CategoryIs(cat));
  }
}
