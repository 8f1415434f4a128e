# Monthly closing service: a Dafny model

This project models the monthly-closing logic of a small Express/MySQL backend. A
*closing* (`fechamento_mensal`) is one row per year and month. It holds the days worked,
a maximum and a minimum goal, a `valores_diarios` array of `{day, value}` entries and
the stored sum `soma_valores`. A separate single-row table (`selecionado`) holds the
year and month currently selected in the front end.

The database is an in-memory `State`: the selection rows, a map from auto-increment id
to closing, and the next id. Each operation is a pure function of the state. Those
that can fail return `Result<State, Error>`, and a `Failure` means nothing was
written. `SetMaxGoal` and `SetDaysWorked` cannot fail and return the new `State`. The
modules are:

- `Wrappers`: `Option` and `Result`.
- `DailyValues`: the array. It covers the 30-entry fill from a sparse `day_values`
  list, the zeroed array bootstrap stores, the per-day upsert and `somarValores`.
  Holes and JSON `null`s are `None`.
- `Database`: the rows, the state, auto-increment insert, and the invariant `Valid`
  (ids lie below the counter; at most one selection row).
- `Routes`: `initializeDatabase` (the seeding part), `PUT /selecionado`,
  `PUT /fechamentos/:id/dia/:day`, `POST /fechamentos`, `PUT /fechamentos/:id/meta`,
  `PUT /fechamentos/:id/dias-trabalhados` and `updateTotal`.
- `Properties`: lemmas that relate several operations.

Notes on following the code:

- `somarValores` reads `valores[i].value` with no guard. On a hole or a `null` this
  throws a `TypeError`. A day written more than one position past the end of the array
  leaves such a hole, so `updateTotal` of that closing throws until every hole has
  been written by a later day write. The model keeps this behaviour
  (`SparseDayWriteBreaksRecompute`).
- `PUT /selecionado` runs an `UPDATE` with no `WHERE` clause on a table with a unique
  key on `(ano, mes)`. With two or more rows, that statement fails with a duplicate key
  and changes nothing. With zero rows it changes nothing and still succeeds. With one
  row it rewrites that row.
- `POST /fechamentos` takes `Object.keys(years)[0]` and then the first key of that
  year's `months`. For integer-like keys, JavaScript lists them in ascending order, so
  the model takes the least year and then the least month. An empty `years` or `months`
  object makes the next property read throw.
- `meta` and `dias-trabalhados` on an unknown id match no row. They still acknowledge,
  and the state is unchanged.

## Model

| member | source | states |
|---|---|---|
| `DailyValues.Find` | src/routes.js:190 | the result is None exactly when no element has the day; otherwise it is an element with that day and no earlier element has it |
| `DailyValues.Fill` | src/routes.js:189-192 | exactly 30 entries, no holes, entry i numbered i+1, each day's value taken from the first matching element or 0 |
| `DailyValues.FillTakesFirstMatch` | src/routes.js:190-191 | a day's value is that of the first element naming the day |
| `DailyValues.FillDefaultsToZero` | src/routes.js:191 | a day no element names is filled with 0 |
| `DailyValues.FillIgnoresLaterDuplicates` | src/routes.js:190 | elements appended after a match do not change the filled value |
| `DailyValues.Zeroed` | src/routes.js:71-74 | bootstrap's array has n entries with no holes, numbered 1..n, all with value 0 |
| `DailyValues.UpsertDay` | src/routes.js:156-163 | an existing entry at day-1 keeps its day and takes the value; otherwise {day, value} is stored there; length becomes max(old, day); other entries are unchanged; the gap is holes; a day whose index is not an array index (above 2^32 - 1) leaves the array as it was |
| `DailyValues.UpsertReadBack` | src/routes.js:158-162 | reading the written day gives the new value, unless the day is beyond the array-index limit; every other day reads as before |
| `DailyValues.UpsertKeepsNumbering` | src/routes.js:159-162 | an array numbered by position stays numbered by position |
| `DailyValues.UpsertInsideTotal` | src/routes.js:158-160 | overwriting inside a hole-free array keeps it hole-free and shifts the sum by new minus old value |
| `DailyValues.UpsertAppendTotal` | src/routes.js:161-162 | writing the day just past the end adds the value to the sum |
| `DailyValues.UpsertPastEndLeavesHole` | src/routes.js:161-162 | writing further past the end leaves a hole |
| `DailyValues.SumValues` | src/routes.js:250-256 | the left-to-right loop succeeds exactly when no entry is a hole, then equals the reference sum `Total`, and gives 0 for an empty array |
| `DailyValues.TotalAppend` | src/routes.js:250-256 | the sum of a concatenation is the sum of the parts |
| `DailyValues.TotalSnoc` | src/routes.js:252-253 | adding one entry adds its value |
| `DailyValues.TotalUpdate` | src/routes.js:253 | replacing one entry shifts the sum by the difference |
| `DailyValues.TotalAllZero` | src/routes.js:250-256 | an array of zero values sums to 0 |
| `DailyValues.TotalZeroed` | src/routes.js:71-80 | bootstrap's array sums to the 0 stored as its sum |
| `Database.Insert` | src/routes.js:31 | a new row gets the next auto-increment id, the existing rows are untouched, and the invariant is kept |
| `Database.EmptyValid` | src/routes.js:20-44 | the freshly created tables satisfy the state invariant |
| `Database.Replace` | src/routes.js:166 | a keyed UPDATE changes only that row and keeps the invariant |
| `Routes.SeedSelection` | src/routes.js:53-60 | the current year and month are inserted only when the selection table is empty |
| `Routes.SeedClosing` | src/routes.js:62-92 | when no closing exists for (year, month), one is inserted with days 1..daysInMonth at 0, zero goals, worked days and sum; otherwise nothing changes |
| `Routes.Bootstrap` | src/routes.js:46-93 | afterwards a selection row and a closing for the current month exist, and existing rows are kept |
| `Routes.SetSelection` | src/routes.js:110-124 | a missing or zero `ano`/`mes` gives a 400 error; with two or more rows the unkeyed UPDATE breaks the unique key; otherwise every row gets the new (ano, mes) and closings are untouched |
| `Routes.SetDayValue` | src/routes.js:139-177 | an unknown id gives NotFound; otherwise only that closing's array changes, by the day upsert, and its stored sum is not recomputed |
| `Routes.LeastFrom` | src/routes.js:182-183 | the search returns a key that no other key is below |
| `Routes.LeastKey` | src/routes.js:182-183 | the first integer-like key is the least one |
| `Routes.CreateClosing` | src/routes.js:179-216 | empty years or months throw; otherwise a row for the least year and month is inserted, with the body's worked days and goals, the 30-day fill, and a sum equal to the fill's total |
| `Routes.SetMaxGoal` | src/routes.js:218-232 | only `meta_maxima` of that row changes; an unknown id changes nothing |
| `Routes.SetDaysWorked` | src/routes.js:234-248 | only `dias_trabalhados` of that row changes; an unknown id changes nothing |
| `Routes.UpdateTotal` | src/routes.js:258-287 | an unknown id and an array with holes each give their error; otherwise only `soma_valores` changes, to the sum of the row's values |
| `Properties.BootstrapIdempotent` | src/routes.js:53-69 | running bootstrap twice gives the same state as running it once |
| `Properties.BootstrapCreatesExactlyOne` | src/routes.js:62-80 | when no closing existed for the month, exactly one exists afterwards |
| `Properties.SetSelectionAfterBootstrap` | src/routes.js:113-117 | after bootstrap a valid selection update leaves exactly the new (ano, mes) |
| `Properties.CreateThenRecomputeIsNoOp` | src/routes.js:199-207 | a created closing already stores its array's sum, so `updateTotal` changes nothing |
| `Properties.DayWriteThenRecompute` | src/routes.js:158-160 | writing a day and then recomputing moves the sum by exactly the change of that day |
| `Properties.SparseDayWriteBreaksRecompute` | src/routes.js:161-162 | a write more than one past the end makes the next recomputation throw |
| `Properties.HugeDayWriteChangesNothing` | src/routes.js:158-167 | a day whose index is not an array index is acknowledged and the state is unchanged |
| `Properties.DayWriteKeepsStoredSum` | src/routes.js:165-167 | a day write leaves `soma_valores` as it was |
| `Properties.MaxGoalIgnoresMinimum` | src/routes.js:220-224 | the minimum goal in the body has no effect |
| `Properties.CreateExampleSumsToFifteen` | src/routes.js:189-207 | days 1 and 2 given as 10 and 5 give a 30-entry array whose stored sum is 15 |

## Left out

- Table creation (`SHOW TABLES`, the DDL) and the connection pool: the tables are assumed to exist.
- Other database and transport errors (500 answers) and the logging around them. The duplicate key of `PUT /selecionado` is the one 500 that is modelled (`DuplicateKey`).
- The clock: year, month and days-in-month (read with `moment` at UTC-3) are parameters of `Bootstrap`.
- `GET /selecionado` and `GET /fechamentos`: they only read the rows. The model's state is that answer.
- The asynchronous `updateTotal` calls started by `GET /fechamentos`: `UpdateTotal` is modelled as one sequential step.
- `parseFloat`, NaN propagation and DECIMAL(10,2) rounding: values are exact `real`s.
- `SetDayValue`: the route parameter `day` is a string in the source, and the new entry stores it as that string; the model stores the number. A `day` below 1 or non-integral writes a non-index property that serialisation drops, so `day >= 1` is a precondition. A `day` above 2^32 - 1 is likewise not an array index and leaves the array unchanged, as modelled. A `day` that is an index but very large is written by the model, while in the code the resulting array can exceed the length `JSON.stringify` can build (an uncaught `RangeError`) or the server's packet size (a 500 answer); those limits are not modelled.
- `SetSelection`: only a missing field and 0 are modelled as falsy; `""`, `null`, `false` and `NaN` are not.
- `SetMaxGoal`, `SetDaysWorked`: a field missing from the body would write SQL `NULL`; the model always receives a value.
- Concurrency: every handler is modelled as one sequential, atomic step. In the code, the day write is a SELECT followed by a separate UPDATE, so two concurrent writes to one closing can lose one of them. Bootstrap's closing check and insert run in a callback nobody awaits, so they can race with the first requests. These races are not modelled.
- `CreateClosing`: a missing `days_worked`, `max_goal` or `min_goal` is bound as `undefined` and written as SQL `NULL`; the model's month body always carries them. A missing `months` object makes `Object.keys(undefined)` throw; the model's year body always carries one. Also not modelled: a missing `years` or `day_values`, `day_values` elements that are not objects, keys that are not integer-like, and string `day` fields (which never match under `===`).
- `Failure(TypeError)` stands for an exception the code never catches. In `POST /fechamentos` it is thrown before the `try`, so no answer is sent. In `updateTotal` it is thrown inside a database driver callback, after the caller has already answered: `GET /fechamentos` sends its listing first, and the exception then escapes with no handler and ends the process. Only the effect that nothing is written is modelled, not the missing answer or the process-level failure.
- `UpdateTotal`: `Failure(NotFound)` answers nobody; the code only logs it.
- Routing, CORS, body parsing, the listener and `process.exit` on a failed bootstrap.
