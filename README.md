# Fitness dashboard store, modelled in Dafny

The dashboard backend keeps two tables in memory: fitness classes and
member plans. Each table has its own id counter, starting at 1. Each table
supports create, lookup (classes only), update and delete, and the route
handlers turn each outcome into an HTTP status code.

- `create` stamps the next counter value on the record as its id, bumps the
  counter and appends the record.
- `lookup` returns the first record whose id matches.
- `update` replaces the first matching record with the new one, its id
  forced to the one asked for. It returns nothing when no record matches.
- `delete` cuts out the first matching record and reports whether there was one.

Ids are never checked for uniqueness. An update writes back the id it
matched, so it never changes which ids are present, but the seed records
arrive with ids of their own. Two seeds can share an id (the plan seeds are
stamped from two successive clock readings), and a later counter value can
equal a seed's id. So every property here is stated about the FIRST record
that carries an id.

The project has three modules:

- `Tables` (`tables.dfy`): a generic table of `Record(id, fields)` values.
  It has the specification functions `FirstIndex`, `Lookup`, `Replace`,
  `Remove` and `Count`, and the linear search `FindIndex` as a loop method.
  Lemmas relate lookups before and after each change.
- `Dashboard` (`dashboard.dfy`): the class `Store`. Its fields are
  `nextClassId`, `nextPlanId`, `fitnessClasses` and `memberPlans`, and it has
  the nine utility operations. Each state-changing method states its new
  tables as a `Tables` function of the old ones. It names the fields it may
  change and states that the other table and counter are unchanged.
- `Routes` (`routes.dfy`): the response each handler chooses (status and
  body), and one handler method per route. Each handler calls the store
  operation and then picks the response.

## Model

| member | source | states |
|---|---|---|
| `Tables.FirstIndex` | app.js:42 | the position found is the first record carrying the id; nothing is found exactly when no record carries it |
| `Tables.FirstMatchUnique` | app.js:52 | any position that is the first match is the one the search finds |
| `Tables.FindIndex` | app.js:52 | the loop returns -1 exactly when no record carries the id, and otherwise the index of the first record that does |
| `Tables.Lookup` | app.js:42 | the result is nothing exactly when no record carries the id; otherwise it is the table's first record with that id |
| `Tables.Replace` | app.js:51-56 | length kept; the table is unchanged when the id is absent; otherwise only the first match changes, to the new record with the id forced |
| `Tables.ReplaceKeepsIds` | app.js:52-55 | an update keeps the length and the id at every position, because it writes back the id it matched |
| `Tables.Remove` | app.js:59-63 | the table is unchanged when the id is absent; otherwise it is exactly one shorter |
| `Tables.RemoveCutsFirstMatch` | app.js:62 | removal keeps everything before the first match in place and shifts everything after it down by one, so order is preserved |
| `Tables.RemoveDecrementsCount` | app.js:59-64 | a successful removal lowers the number of records carrying the id by exactly one |
| `Tables.RemoveUniqueTwice` | app.js:59-64 | when the id was unique, the first removal finds it, and afterwards no record carries it, so a second removal changes nothing |
| `Tables.LookupAppended` | app.js:41-49 | after appending, a lookup of the appended record's id finds a record with that id, and that record is the appended one when the id was new |
| `Tables.LookupAppendedOther` | app.js:41-49 | appending does not change what an id already present finds |
| `Tables.LookupReplaced` | app.js:41-56 | after a replacement, the id finds the new record, and every other id finds what it found before |
| `Tables.LookupRemovedOther` | app.js:41-64 | removing the first match for one id does not change what any other id finds |
| `Dashboard.Store.constructor` | app.js:22-33 | both counters start at 1; the tables hold the given seed records |
| `Dashboard.Store.GetAllClasses` | app.js:37-39 | returns the class table itself, in stored order |
| `Dashboard.Store.GetClassById` | app.js:41-43 | nothing exactly when no class has the id; otherwise the first class with that id, which is in the table; reads only |
| `Dashboard.Store.CreateClass` | app.js:45-49 | result is the input with id set to the old counter; counter up by exactly one; table is old table plus the result at the end; lookup of the new id then finds a record with it; plans and plan counter untouched |
| `Dashboard.Store.UpdateClass` | app.js:51-57 | nothing and table unchanged when the id is absent; otherwise returns the input with id forced, the table is `Replace` of the old one, and a lookup then finds the updated record; counters and plans untouched |
| `Dashboard.Store.DeleteClass` | app.js:59-64 | true exactly when some class had the id; the table becomes `Remove` of the old one; counters and plans untouched |
| `Dashboard.Store.GetAllPlans` | app.js:66-68 | returns the plan table itself, in stored order |
| `Dashboard.Store.CreatePlan` | app.js:70-74 | as CreateClass, on the plan table and plan counter; classes and class counter untouched |
| `Dashboard.Store.UpdatePlan` | app.js:76-82 | as UpdateClass, on the plan table; classes and both counters untouched |
| `Dashboard.Store.DeletePlan` | app.js:84-89 | as DeleteClass, on the plan table; classes and both counters untouched |
| `Routes.ListResponse` | app.js:98-100 | a listing always succeeds with status 200, and its body is the whole table |
| `Routes.FoundResponse` | app.js:102-106 | 404 with empty body exactly when nothing was found or updated, otherwise 200 with the record |
| `Routes.CreatedResponse` | app.js:108-112 | a creation always answers 201 with the stored record |
| `Routes.DeleteResponse` | app.js:120-124 | success exactly when the delete succeeded: 204 with no body, else 404 with the "Not found" message |
| `Routes.DeleteTwiceResponses` | app.js:120-124 | deleting a unique id twice answers 204 then 404 |
| `Routes.HandleListClasses` | app.js:98-100 | 200 with the class table |
| `Routes.HandleGetClass` | app.js:102-106 | 404 with no body exactly when no class has the id; otherwise 200 with the first class carrying that id |
| `Routes.HandlePostClass` | app.js:108-112 | 201 with the stored class, which has the old counter as its id; the class table grows by that record |
| `Routes.HandlePutClass` | app.js:114-118 | 404 with the table unchanged exactly when no class has the id; otherwise 200 with the updated record |
| `Routes.HandleDeleteClass` | app.js:120-124 | 204 with no body exactly when a class had the id, else 404 "Not found"; the table becomes `Remove` of the old one |
| `Routes.HandleListPlans` | app.js:127-129 | 200 with the plan table |
| `Routes.HandlePostPlan` | app.js:131-135 | 201 with the stored plan, which has the old plan counter as its id; classes untouched |
| `Routes.HandlePutPlan` | app.js:137-141 | 404 with the table unchanged exactly when no plan has the id; otherwise 200 with the updated plan |
| `Routes.HandleDeletePlan` | app.js:143-147 | 204 with no body exactly when a plan had the id, else 404 "Not found"; the plan table becomes `Remove` of the old one |

## Left out

- Express wiring and middleware (CORS, request logging, body and cookie
  parsing) and the root health route `GET /` (app.js:1-20, 93-95). This is
  framework plumbing over libraries outside the model.
- JSON serialisation of bodies. A response is modelled as a status code and
  an abstract body. The listings wrap the table in an object under the key
  `classes` or `plans` (app.js:99, 128). The model drops that wrapper key
  along with the other serialisation details.
- The seed records' ids come from `Date.now()`, which reads the clock. The
  seed tables are constructor parameters.
- Ids are modelled as one integer type, and matching as plain equality. The
  source compares the string path parameter with stored numbers using
  JavaScript loose equality. An update stores the string path parameter as
  the record's new id. Neither is modelled.
- The counters are unbounded naturals. In the source they are JavaScript
  numbers, exact only up to 2^53.
- Records are immutable values. In the source, the request body object
  is mutated (its `id` is overwritten) and stored by reference.
  `getAllClasses`/`getAllPlans` also hand out the live array. That aliasing
  is not modelled.
- Request bodies are arbitrary JSON in the source and are never validated.
  The model gives them fixed field shapes (`ClassFields`, `PlanFields`),
  and no operation reads those fields.
- Concurrency between requests is not modelled. Each handler runs to
  completion without yielding, so each operation is atomic.
- The code keeps its tables in in-memory arrays. It validates no payload,
  stamps no modification time and checks no identifier format. A delete
  answers 204 with no body. The model has exactly this behaviour and
  nothing more.
- There is no plan lookup by id and no `GET /api/plan/:id` route in the
  source, so the model has none either.
