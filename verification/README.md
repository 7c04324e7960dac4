# Job board API: listing queries and record mutations

A Dafny model of the core of a small job-postings HTTP API. An Express
router (`routes/jobs.js`) sits in front of a single SQLite table `jobs`
(`database.js`). The model covers:

- **the listing endpoint** `GET /api/jobs`:
  - how the request's query parameters become a query plan: the sort column resolved against an allow-list, the sort direction, the `WHERE` fragments with their positional parameters, `LIMIT` and `OFFSET`;
  - which rows that plan selects, and in what order;
  - the pagination envelope sent beside the page.
- **the record endpoints**:
  - fetch one (`GET /:id`), create (`POST /`), replace (`PUT /:id`), partial update (`PATCH /:id`) and delete (`DELETE /:id`);
  - modelled as pure functions on one row (module `Mutations`) and as methods of a `JobTable` class that holds the table as a `map<int, Job>` plus the AUTOINCREMENT counter (module `Store`).
- **the counts of `GET /stats/summary`**: `active`, `inactive` and `total`.

The handlers' unusual behaviours are reproduced as written, and the contracts state them:

- `order=asc` (any letter case) sorts descending, and every other value sorts ascending.
- Both `salary_min` and `salary_max` filter with `<=`.
- `GET /:id` of a missing id answers an empty object, not a not-found failure.
- `PUT` requires `company` but `POST` does not.
- Only `POST` truncates the description to 100 characters.
- `updated_at` is never refreshed.
- `DELETE` answers the removed row with `status` renamed to `statsu`.
- The stats `total` is `active + active`.

How values are represented:

- A column value is a `Cell`: `Null`, `Num` or `Text`. A `Cell` is a SQLite value and, on the JSON side, a JSON null, number or string. JSON booleans, arrays, objects and fractional numbers are not modelled (see the type-affinity and driver-errors lines under "## Left out"). JavaScript truthiness (`x || default`) is modelled explicitly.
- SQLite's `LIKE` is modelled as a pattern matcher. `%` and `_` are wildcards, and ASCII letters match regardless of case. A lemma proves that for a term without wildcards, `LIKE '%term%'` is case-insensitive containment.
- `ORDER BY` is modelled on SQLite's order of values: NULL before numbers, and numbers before text.

Modules:

- `Options`: the optional value of a query parameter (text_match.dfy).
- `TextMatch`: `LIKE` and text order.
- `Cells`: values and SQL comparisons.
- `Jobs`: the row and its columns.
- `Ordering`: the sort keys and sorted listings.
- `Pagination`: offset, page window and envelope.
- `Listing`: the query plan and what it selects.
- `Mutations`: the rules for one row.
- `Store`: the table and the endpoints.

## Model

| member | source | states |
|---|---|---|
| TextMatch.LikeContains | routes/jobs.js:45-48 | for a term with no `%` or `_`, `s LIKE '%term%'` holds exactly when `term` occurs in `s`, ignoring ASCII case |
| Listing.PercentSearchMatchesAll | routes/jobs.js:45-48 | the term is not escaped, so a search of `%` matches every text title |
| Jobs.Object | routes/jobs.js:323-332 | the JSON object of a row has exactly the thirteen keys `SELECT *` returns: `id`, every column name, `created_at` and `updated_at`, each mapped to the row's value |
| Jobs.AllWritable | routes/jobs.js:279-290 | every client-writable column of the table is on PATCH's allow-list |
| Ordering.SortKey.Name | routes/jobs.js:30-37 | every sortable column's identifier is on the allow-list of ORDER BY identifiers |
| Ordering.BeforeIrreflexive | routes/jobs.js:90 | no row sorts strictly before itself |
| Ordering.BeforeTransitive | routes/jobs.js:90 | the ORDER BY order is transitive in both directions |
| Ordering.BeforeAsymmetric | routes/jobs.js:90 | two rows are never each before the other |
| Ordering.BeforeTotal | routes/jobs.js:90 | any two rows with different ids are ordered one way or the other |
| Ordering.Insert | routes/jobs.js:90 | inserting a row into a sorted listing keeps it sorted, and the result holds exactly the old rows plus the new one (as a multiset) |
| Ordering.SortedUnique | routes/jobs.js:90-91 | two listings sorted under the id tie-break with the same rows are equal, so the listing is determined once ties are broken by id (see "Ties in ORDER BY") |
| Pagination.CeilDiv | routes/jobs.js:93 | `Math.ceil(total / limit)` is the fewest pages of `limit` rows that hold `total` rows |
| Pagination.Paginate | routes/jobs.js:93-103 | it echoes page and limit. `total_pages` is `ceil(total/limit)` and is zero iff there are no rows. `has_next` holds iff more rows follow this page. `has_prev` holds iff `page > 1` |
| Pagination.Window | routes/jobs.js:90-91 | `LIMIT l OFFSET o` yields at most `l` rows, namely rows `o, o+1, ...` of the ordered result, and none past its end |
| Pagination.EveryRowOnOnePage | routes/jobs.js:28 | with `offset = (page-1)*limit`, row `i` of the ordered result appears on page `i/limit + 1` and on no other page, and that page is within `total_pages`, provided every page request sees the same ordering (see "Ties in ORDER BY") |
| Listing.ResolveSort | routes/jobs.js:30-38 | an allow-listed `sort` value is used as given; every other value yields `created_at` |
| Listing.ResolveOrder | routes/jobs.js:40 | the direction is descending exactly when `order` is `asc` in any letter case, and ascending otherwise |
| Listing.DefaultOrderAscending | routes/jobs.js:14 | with the default `order = "desc"` the listing is ascending |
| Listing.Slot | routes/jobs.js:45-83 | each query parameter contributes at most one filter, of its own fixed rank |
| Listing.BuildWhere | routes/jobs.js:42-83 | the successive pushes produce exactly the requested filters, in the handler's order |
| Listing.BuildPlan | routes/jobs.js:25-43 | the plan has as many parameters as WHERE fragments. Its fragments and parameters are those of the requested filters. Sort and direction are resolved as above, and the keyword written into the query is `DESC` exactly when the lower-cased `order` is `asc`. `limit` and `offset = (page-1)*limit` |
| Listing.EveryGivenFilterPushed | routes/jobs.js:45-83 | each guard that passes pushes its own filter with the term as given, wildcards included: a truthy text parameter, or a present salary bound (0 included) |
| Listing.RequestedCount | routes/jobs.js:45-83 | exactly one filter is pushed per given parameter, and no other |
| Listing.RequestedInOrder | routes/jobs.js:42-83 | filter ranks strictly increase: each kind at most once, in the order search, location, type, level, status, salary_min, salary_max, company |
| Listing.FilterMeaning | routes/jobs.js:45-83 | each pushed fragment, with its parameter, selects the rows it describes. A LIKE filter is case-insensitive containment, type, level and status are equality, and both salary filters keep salaries at most the bound |
| Listing.MatchesEach | routes/jobs.js:85 | a row satisfies the ANDed WHERE clause iff it satisfies each pushed filter |
| Listing.EarlySlotsMeaning | routes/jobs.js:45-63 | the search, location, type and level filters select, when present, what `Selects` describes for them |
| Listing.LateSlotsMeaning | routes/jobs.js:65-83 | the status, salary_min, salary_max and company filters select, when present, what `Selects` describes for them |
| Listing.FilterSemantics | routes/jobs.js:42-85 | for terms without LIKE wildcards, the built WHERE clause selects exactly the rows that `Selects` describes from the query parameters alone |
| Listing.NoFiltersSelectAll | routes/jobs.js:85 | with no filter parameter, no fragment is pushed and every row is selected |
| Mutations.Default | database.js:16-20 | type, level and status default to truthy values; the nullable columns default to null |
| Mutations.Stored | routes/jobs.js:194-202 | `value \|\| default` keeps a truthy value and otherwise binds the column's default. The bound value is null or truthy, and it is truthy for every NOT NULL column that has a table default (type, level, status) |
| Mutations.Truncate | routes/jobs.js:200 | `substring(0, 100)` is a prefix of the text, of length `min(100, length)` |
| Mutations.NewRow | routes/jobs.js:176-205 | create fails with a missing-field error iff title or location is falsy. It fails internally iff a truthy description is not text. Otherwise the new row takes the given id, with both timestamps set to the time of creation. Every column except the description is the value given or its default. The description is a prefix of at most 100 characters, present iff it was given truthy, and null when it was given falsy. The row meets the NOT NULL constraints |
| Mutations.ReplaceRow | routes/jobs.js:219-253 | replace fails iff title, company or location is falsy. Otherwise every column is the value given or its default, the description is stored whole, id and timestamps are kept, and the row meets the NOT NULL constraints |
| Mutations.CreateDefaults | routes/jobs.js:198-202 | a created row with no type, level or status gets `CLT`, `junior` and `active` |
| Mutations.CreateReplaceAgree | routes/jobs.js:189-253 | create and replace with the same body store the same values in every column but the description, and also there when it is text of at most 100 characters |
| Mutations.ReplaceForgetsOld | routes/jobs.js:236-253 | replace overwrites every column: its result does not depend on the old row's columns |
| Mutations.ReplaceIdempotent | routes/jobs.js:236-253 | repeating a successful replace changes nothing more |
| Mutations.Selected | routes/jobs.js:292-294 | the fields applied are exactly the allow-listed columns the body names |
| Mutations.Assign | routes/jobs.js:300-303 | the SET updates exactly the selected columns to the body's values and leaves the rest, id and timestamps alone. The row stays well formed when no NOT NULL column is set to null |
| Mutations.PatchRow | routes/jobs.js:269-303 | patch is refused iff the body names no allow-listed column. It fails as a whole iff it names one and sets some NOT NULL column to null. Otherwise exactly the named columns take the body's values and everything else, id included, is untouched. A well-formed row stays well formed |
| Mutations.PatchIgnoresUnknownKeys | routes/jobs.js:292-294 | adding a key that names no column does not change the outcome of a patch |
| Mutations.PatchIdempotent | routes/jobs.js:300-303 | repeating a successful patch changes nothing more |
| Mutations.Snapshot | routes/jobs.js:330-332 | the delete response has no `status` key, has `statsu` holding the row's status, and agrees with the row's object on every other key |
| Mutations.SnapshotRestores | routes/jobs.js:330-332 | renaming `statsu` back to `status` recovers the row's object exactly |
| Store.Arrange | routes/jobs.js:90-91 | the selected rows are arranged sorted by the ORDER BY. Each selected row appears and no other row does, and there are as many rows as selected ids |
| Store.MatchingSelects | routes/jobs.js:85-88 | with no LIKE wildcard in the terms, the ids the WHERE clauses keep are exactly the stored rows that the request's plain meaning `Selects` describes |
| Store.WithStatus | routes/jobs.js:116-121 | the rows counted for a status are exactly the rows a listing filtered by that status alone keeps, so `active` in the stats equals the listing total for `?status=active` |
| Store.StatusCounts | routes/jobs.js:116-121 | no row is both active and inactive, so the two counts add up to at most the number of rows |
| Store.Summarize | routes/jobs.js:114-140 | `active` and `inactive` count the rows with those statuses. Their sum is at most the row count. `total` is twice `active` |
| Store.TotalIsRowCountOnlyWhenBalanced | routes/jobs.js:138 | when every row is active or inactive, `total` equals the number of rows iff there are as many active rows as inactive |
| Store.JobTable.constructor | database.js:9-22 | the table starts empty with the AUTOINCREMENT counter at zero |
| Store.JobTable.Find | routes/jobs.js:158-171 | an absent id answers the empty object; a present id answers its row, which carries that id and meets the NOT NULL constraints |
| Store.JobTable.Create | routes/jobs.js:176-214 | on success the row goes in under the next id, one past every id ever issued, so never a reused id. On failure the table and the counter are unchanged |
| Store.JobTable.Replace | routes/jobs.js:219-264 | an absent id is not found before the body is looked at. Otherwise the row becomes the replacement on success and is unchanged on failure |
| Store.JobTable.Patch | routes/jobs.js:269-314 | an absent id is not found. Otherwise the row becomes the patched row on success and the table is unchanged on failure |
| Store.JobTable.Delete | routes/jobs.js:319-341 | an absent id is not found and nothing changes. Otherwise the row is removed, its renamed snapshot is answered, and the counter is kept |
| Store.JobTable.Listed | routes/jobs.js:85-91 | the listing before LIMIT/OFFSET is sorted by the resolved key and direction. It holds exactly the stored rows the WHERE clause selects, and as many as the count query counts |
| Store.JobTable.List | routes/jobs.js:8-105 | the page is the LIMIT/OFFSET window of that listing. The envelope is computed from the same count, so count and page come from the same clauses |
| Store.JobTable.Stats | routes/jobs.js:114-153 | `active` and `inactive` equal the totals a listing filtered by `?status=active` or `?status=inactive` alone would report, and `total` is `active + active` |
| Store.ListingDetermined | routes/jobs.js:85-91 | any sequence of exactly the stored rows that `Selects` describes, sorted with ties broken by id, is the listing returned |

## Left out

- HTTP and I/O: Express routing, the response JSON envelopes (`message`, `error`) and status codes. Outcomes are a `Result` of the value or a `Failure` (not found, missing field, no valid field, internal). `server.js` is not part of this model.
- Query-string parsing: `page` and `limit` are taken as already-parsed positive integers, which is a precondition of `Store.JobTable.List`. `parseInt`/`parseFloat`, NaN, and `limit = 0` are not modelled. Salary filter values are whole numbers. Repeated query keys (arrays) are not modelled.
- Path ids are integers. SQLite's conversion of the text `:id` to an integer key is not modelled.
- SQLite type affinity: a cell stores the value as sent. For example, a numeric title is not converted to text, and REAL salaries are whole numbers here.
- `LIKE` applied to a non-text column value is false in the model. SQLite would first convert the number to text.
- A `%` or `_` inside a search term acts as a wildcard, as in SQLite. `FilterSemantics` is stated for terms without them, and `PercentSearchMatchesAll` shows one consequence.
- Text matching folds ASCII case only, which is SQLite's default `LIKE`. Other Unicode case mappings are not modelled.
- `Mutations.Truncate` counts characters, where JavaScript `substring` counts UTF-16 code units.
- Ties in ORDER BY: SQLite leaves the order of rows with equal sort keys unspecified. The model breaks ties by ascending id so that the listing is a function of the table. `created_at` and `updated_at` have one-second resolution, so ties are common, and SQLite may order tied rows differently from one page request to the next. The uniqueness of the listing (Ordering.SortedUnique, Store.ListingDetermined) and the one-page placement of each row (Pagination.EveryRowOnOnePage) hold only under this tie-break.
- The stats averages (`AVG`, `Math.round`) and the `GROUP BY` tallies by type, level and location are floating point and database aggregation. They are left out.
- Timestamps come from a `now` parameter of `Create`, in place of SQLite's `datetime('now')`. The clock itself is not modelled.
- Mutations.PatchRow: the SET clause lists the fields in allow-list order, not in the body's key order. The outcome is the same because each column is named at most once.
- Errors raised inside the handlers (the `try`/`catch` turning into 500) are modelled in two places only:
  - a truthy non-text description on create, where `substring` throws;
  - a patch that sets a NOT NULL column to null, where the `UPDATE` fails.
  Other driver errors (for example binding a value SQLite cannot store) are not modelled.
- Concurrency: the check-then-act gap between the lookup and the update of PUT, PATCH and DELETE is not modelled. Each request runs alone.
