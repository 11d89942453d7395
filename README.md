# Trivia backend: question handling, modelled in Dafny

This project models the request handlers of the trivia service's Flask backend
(`backend/flaskr/__init__.py`). The service stores trivia questions and their
categories. It pages the questions ten at a time, searches question texts
case-insensitively, lists the questions of one category, and creates and
deletes questions.

The store is in memory. `Flaskr.Database` is a class with three fields:
`questions` (the `questions` table in its natural order), `categories` and
`nextId` (the id sequence of the store). Each endpoint is a method that returns
an `Outcome`: `Ok(payload)` for 200, `NotFound` for 404, `Unprocessable` for 422.
Deleting and creating change the store in place (`modifies this`). The other
endpoints only read it.

- `Queries` (queries.dfy): the rows, `format()`, the `WHERE` clauses as a
  `Criterion` datatype, the filter over the store, and `ILIKE '%term%'` matching.
- `Pagination` (pagination.dfy): `paginate_questions` as a slice of the
  formatted list, with Python's clamping of slice bounds.
- `Flaskr` (flaskr.dfy): `get_category_list` as a loop, the response payloads,
  and the `Database` class with one method per route.

The model follows the code where the code and the service's stated design or
its tests disagree:

- An empty search term builds the pattern `'%%'`, which matches every question
  (`Queries.EmptyTermMatchesAll`). It does not match nothing.
- Search and category listing report `total_questions` as the size of the
  whole store, not the number of matches (`__init__.py:165`, `:190`). The test
  at `backend/test_flaskr.py:134` expects 0 for a search that matches nothing.
  On a non-empty store the code answers with the store's size.
  `Flaskr.SuiteScenarios` replays this case.
- Deleting an id that is not stored answers 422, not 404. The `abort(404)` at
  `:93` is raised inside the `try`, and the bare `except` at `:105` turns it
  into `abort(422)`. The test at `backend/test_flaskr.py:81-86` agrees with this.
- There is no quiz endpoint. Lines `:204-214` hold only a to-do comment, so the
  model has no quiz selector.

## Model

| member | source | states |
|---|---|---|
| `Pagination.Paginate` | backend/flaskr/__init__.py:17-24 | The page holds at most 10 items. It is empty exactly when `(page-1)*10` reaches the list length. Otherwise it holds `min(10, n-start)` items, and item `i` is list item `(page-1)*10+i`. |
| `Pagination.PagesArePrefix` | backend/flaskr/__init__.py:19-23 | Pages 1..k concatenated are the first `min(10k, n)` items in order: pages are contiguous and leave no gap. |
| `Pagination.PagesCoverAll` | backend/flaskr/__init__.py:19-23 | Concatenating pages 1..ceil(n/10) rebuilds the whole list. |
| `Pagination.PageEmptyIffPastEnd` | backend/flaskr/__init__.py:19-23 | A page is empty exactly when its number is past the last page (`page > ceil(n/10)`). |
| `Pagination.PagesDisjoint` | backend/flaskr/__init__.py:19-23 | Two different pages of a list without repetitions share no item. |
| `Pagination.FormattedStoreIsDistinct` | backend/flaskr/__init__.py:22 | The formatted questions of a store with unique ids are pairwise distinct, so `PagesDisjoint` applies to them. |
| `Queries.Filter` | backend/flaskr/__init__.py:159 | A question is in the result exactly when it is in the store and satisfies the criterion. The result is no longer than the store. |
| `Queries.FilterAppend` | backend/flaskr/__init__.py:184 | Filtering commutes with concatenation, so the result keeps the store's order. |
| `Queries.FilterIdempotent` | backend/flaskr/__init__.py:159 | Filtering a result again with the same criterion changes nothing. |
| `Queries.FilterKeepsDistinctIds` | backend/flaskr/__init__.py:184 | A filter of a store with unique ids has unique ids. |
| `Queries.FilterByPresentId` | backend/flaskr/__init__.py:90 | In a store with unique ids, the lookup by a stored id finds exactly that one question. |
| `Queries.RemovePresentId` | backend/flaskr/__init__.py:95-96 | Deleting a stored id leaves exactly the other questions, in their order. |
| `Queries.FilterByAbsentId` | backend/flaskr/__init__.py:90-93 | The lookup of an id that is not stored finds nothing, and removing it removes nothing. |
| `Queries.EmptyTermMatchesAll` | backend/flaskr/__init__.py:159 | The empty search term, pattern `'%%'`, selects every question. |
| `Queries.SearchIgnoresCase` | backend/flaskr/__init__.py:159 | Two search terms that are equal up to letter case select the same questions. |
| `Queries.SearchTermLowered` | backend/flaskr/__init__.py:159 | A term and its lower-case form select the same questions ("TITLE" and "title"). |
| `Queries.UnknownCategorySelectsNothing` | backend/flaskr/__init__.py:184 | A category that no question carries selects the empty list. |
| `Flaskr.CategoryMapKeys` | backend/flaskr/__init__.py:27-31 | The category map has one key per category id, and no other key. |
| `Flaskr.CategoryMapLastWins` | backend/flaskr/__init__.py:29-30 | A row that no later row shares an id with maps its id to its type. A later row overwrites, as a dict assignment does. |
| `Flaskr.CategoryMapOfTable` | backend/flaskr/__init__.py:28-30 | With unique category ids, every category maps its id to its own type. |
| `Flaskr.CategoryList` | backend/flaskr/__init__.py:27-31 | The loop builds the category map of the rows, and its keys are exactly the category ids. |
| `Flaskr.ListedAreFormatted` | backend/flaskr/__init__.py:22-23 | Every item on a page is the formatted form of a question of the paginated list. |
| `Flaskr.Database.GetCategories` | backend/flaskr/__init__.py:53-58 | Always 200. The payload is the category map, keyed by exactly the category ids. |
| `Flaskr.Database.GetQuestions` | backend/flaskr/__init__.py:60-72 | Never 422. 404 exactly when the page is past the last page, which includes every page of an empty store. Otherwise the payload is the page of 1 to 10 questions, the store size and the category map. Nothing changes. |
| `Flaskr.Database.DeleteQuestion` | backend/flaskr/__init__.py:87-106 | Never 404. 422 exactly when the id is not stored, and then the store is unchanged. Otherwise exactly that question is removed and the others keep their order. The id is gone, `deleted` is the id, `total_questions` is the old size minus 1, and the ids stay unique. |
| `Flaskr.Database.CreateQuestion` | backend/flaskr/__init__.py:116-140 | Never 404. 422 exactly when the body lacks a non-empty question or answer, and then the store is unchanged. Otherwise the new question is appended under a fresh id that no stored question has. `total_questions` grows by exactly 1, and the payload is the requested page of the new store. |
| `Flaskr.Database.SearchQuestions` | backend/flaskr/__init__.py:153-168 | Always 200. The page comes from the questions whose text contains the term, ignoring case. Every listed question is a stored match. `total_questions` is the whole store's size. Nothing changes. |
| `Flaskr.Database.GetQuestionsByCategory` | backend/flaskr/__init__.py:181-193 | Always 200. The page comes from the questions whose category equals the id. Every listed question is a stored one of that category. An unknown category lists nothing. `total_questions` is the whole store's size. Nothing changes. |

## Left out

- Flask app construction, CORS and the after-request headers (`__init__.py:36-45`) are framework plumbing. So is `jsonify`: payloads are datatypes, not JSON.
- Route dispatch is left out. `/questions` is registered for POST at both `:60` and `:116`, and Werkzeug decides which handler serves it. The test's `/questions/?page=1000` path has a trailing slash.
- Reading the request is left out. `page` is an input with `page >= 1`. The fallback to 1 for a missing or non-integer `page`, and Python's slicing for `page <= 0`, are not modelled.
- A request without a JSON body fails in `body.get` before the `try` (a 500 response). The model takes the body as given.
- SQLAlchemy and the `models` module are not part of this model: `setup_db`, `Question.insert/delete/format` and `Category`. `format()` is a total function onto a record of the same five fields.
- Flaskr.Insertable: the row validity the store enforces is abstracted as "question and answer present and non-empty", the least the tests require. Other column constraints the store may enforce (types, foreign keys) are not modelled.
- Store failures such as a lost connection or a failed commit are not modelled. Each would be caught by the bare `except` and answered with 422.
- Store order: `Question.query.all()` has no `ORDER BY`. The model takes insertion order, so a created question goes to the end of the list.
- Queries.ILike: letter case is folded for ASCII letters only. Locale-dependent folding of other characters by the database is not modelled.
- SQL `LIKE` wildcards are not modelled. `%` and `_` inside a search term are not escaped in the source. A missing `searchTerm` becomes the literal text `'None'`. The model treats the term as a literal substring.
- The quiz endpoint and random selection are left out. They are unimplemented: a to-do comment at `:204-214`, and `random` is imported but never used.
- The error-handler envelope (`success`, `message`) is unimplemented (a to-do comment at `:216-220`). `Outcome` stands in for the status code only.
