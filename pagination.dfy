/** `paginate_questions`: a page number picks a fixed-size, contiguous window
    of the formatted result list. */
module Pagination {
  import opened Queries

  const QUESTIONS_PER_PAGE: nat := 10

  function Min(a: int, b: int): int {
    if a <= b then a else b
  }

  /** Python's `items[start:end]` with `start = (page - 1) * 10` and
      `end = start + 10`; both bounds are clamped to the length of `items`. */
  function Paginate<T>(items: seq<T>, page: int): (r: seq<T>)
    requires page >= 1
    ensures |r| <= QUESTIONS_PER_PAGE
    ensures r == [] <==> (page - 1) * QUESTIONS_PER_PAGE >= |items|
    ensures (page - 1) * QUESTIONS_PER_PAGE < |items| ==>
              |r| == Min(QUESTIONS_PER_PAGE, |items| - (page - 1) * QUESTIONS_PER_PAGE)
    ensures forall i :: 0 <= i < |r| ==>
              (page - 1) * QUESTIONS_PER_PAGE + i < |items| &&
              r[i] == items[(page - 1) * QUESTIONS_PER_PAGE + i]
  {
    var start := (page - 1) * QUESTIONS_PER_PAGE;
    var end := start + QUESTIONS_PER_PAGE;
    var lo := if start < |items| then start else |items|;
    var hi := if end < |items| then end else |items|;
    items[lo..hi]
  }

  /** The page of formatted questions that a request for `page` receives. */
  function PaginateQuestions(qs: seq<Question>, page: int): seq<QuestionJson>
    requires page >= 1
  {
    Paginate(FormatAll(qs), page)
  }

  /** The number of non-empty pages of a list of `n` items. */
  function PageCount(n: nat): (k: nat)
    ensures k * QUESTIONS_PER_PAGE >= n
    ensures k * QUESTIONS_PER_PAGE < n + QUESTIONS_PER_PAGE
  {
    (n + QUESTIONS_PER_PAGE - 1) / QUESTIONS_PER_PAGE
  }

  /** Pages 1 to `k`, concatenated. */
  function Pages<T>(items: seq<T>, k: nat): seq<T> {
    if k == 0 then [] else Pages(items, k - 1) + Paginate(items, k)
  }

  /** The first `k` pages are the first `10 * k` items, in order: pages are
      contiguous and leave no gap. */
  lemma {:induction false} PagesArePrefix<T>(items: seq<T>, k: nat)
    ensures Pages(items, k) == items[..Min(k * QUESTIONS_PER_PAGE, |items|)]
  {
    if k > 0 {
      PagesArePrefix(items, k - 1);
      var a := Min((k - 1) * QUESTIONS_PER_PAGE, |items|);
      var b := Min(k * QUESTIONS_PER_PAGE, |items|);
      assert Paginate(items, k) == items[a..b];
      assert items[..a] + items[a..b] == items[..b];
    }
  }

  /** Concatenating every non-empty page rebuilds the whole list. */
  lemma PagesCoverAll<T>(items: seq<T>)
    ensures Pages(items, PageCount(|items|)) == items
  {
    PagesArePrefix(items, PageCount(|items|));
  }

  /** A page is empty exactly when its number is past the last page, e.g.
      page 1000 of 5 questions. */
  lemma PageEmptyIffPastEnd<T>(items: seq<T>, page: int)
    requires page >= 1
    ensures Paginate(items, page) == [] <==> page > PageCount(|items|)
  {
    var k := PageCount(|items|);
    if page <= k {
      assert (page - 1) * QUESTIONS_PER_PAGE <= k * QUESTIONS_PER_PAGE - QUESTIONS_PER_PAGE;
    }
  }

  predicate Distinct<T(==)>(s: seq<T>) {
    forall i, j :: 0 <= i < j < |s| ==> s[i] != s[j]
  }

  /** Two different pages of a list without repetitions share no item. */
  lemma PagesDisjoint<T>(items: seq<T>, p: int, q: int)
    requires Distinct(items)
    requires p >= 1 && q >= 1 && p != q
    ensures forall x :: x in Paginate(items, p) ==> x !in Paginate(items, q)
  {
    var pp, qq := Paginate(items, p), Paginate(items, q);
    forall i, j | 0 <= i < |pp| && 0 <= j < |qq|
      ensures pp[i] != qq[j]
    {
      var a := (p - 1) * QUESTIONS_PER_PAGE + i;
      var b := (q - 1) * QUESTIONS_PER_PAGE + j;
      assert a != b;
      if a < b {
        assert items[a] != items[b];
      } else {
        assert items[b] != items[a];
      }
    }
  }

  /** Formatting keeps questions with unique ids apart, so the pages of a
      store never repeat a question. */
  lemma FormattedStoreIsDistinct(qs: seq<Question>)
    requires DistinctIds(qs)
    ensures Distinct(FormatAll(qs))
  {
    var f := FormatAll(qs);
    forall i, j | 0 <= i < j < |f|
      ensures f[i] != f[j]
    {
      assert f[i].id == qs[i].id && f[j].id == qs[j].id;
    }
  }
}
