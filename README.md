# Chore allowance tracker: backend model

A Dafny model of the backend of a household chore and allowance tracker.
Parents keep three tables:
- chores, each with a name and a unit price;
- children;
- completion records ("child X did chore Y on date D").

Four AWS Lambda handlers serve them over HTTP.

- `types.dfy` (`Types`): one datatype per stored entity (`Chore`, `Child`, `ChoreRecord`), as in `backend/src/types.ts`.
- `http.dfy` (`Http`): what the handlers see of a request and send back, as values.
  - A body is absent, unparsable, or already decoded into JSON fields.
  - A response is a payload or a status code with a message.
  - It also holds the JavaScript guards `!x || typeof x !== 'string'` and `!x || typeof x !== 'number' || x <= 0`.
  - It holds the path and date regular expressions, and the ordered route chain each CRUD handler tests.
- `allowances.dfy` (`Allowances`): `GET /allowances`, in three parts.
  - The computation is a family of specification functions: the chore lookup, the per-child filter, grouping by chore in first-seen order, pricing with the "Unknown Chore" fallback, and the sum.
  - The two in-place loops of the handler (`choreMap.set` and the `push` into per-chore arrays) and the per-child `map` are methods proved equal to those functions.
  - Lemmas state what an allowance means: one line per completed chore, in order of first completion, with the right count, name and price. The total equals the sum over the child's completions of the chore's current price.
  - The query-parameter guards and the empty-table short-circuits are a function of the request and the three table scans.
- `chores.dfy`, `children.dfy`, `records.dfy` (`Chores`, `Children`, `Records`): the CRUD handlers.
  - Each table is a class holding a `map` from id to entity.
  - Each route is a method that runs the source's guards in order (400 before 404) and then changes exactly one key, or nothing.
  - Creating or updating a record reads the chores and children tables to check references. No method writes to a table other than its own.
- `integrity.dfy` (`Integrity`): how the tables and the computation meet. Deleting a chore leaves its records in place, and the computation then shows them as an "Unknown Chore" line worth 0. Positive stored prices make every amount non-negative.
- `scenarios.dfy` (`Scenarios`): worked examples of the computation on concrete inputs.

Where the handler and the computation split the work:
- The code does not short-circuit on an empty children or chores list inside the computation. The handler does it, after reading the tables and before computing.
  - The computation alone (`Allowances.Compute`) still gives every child an allowance of 0 when there are no chores.
  - The handler (`Allowances.GetAllowances`) answers `[]` in that case.
- The computation does not filter by month. The handler filters the records table by date before the computation sees it, so the aggregator counts every record it is given (`Allowances.OneMoreCompletion`).

## Model

| member | source | states |
|---|---|---|
| Http.RequiredString | backend/src/chores/index.ts:47-49 | the string guard lets a field through exactly when it is present, a JSON string, and non-empty, and yields that string |
| Http.PositiveNumber | backend/src/chores/index.ts:51-53 | the price guard lets a field through exactly when it is a JSON number greater than 0, and yields it |
| Http.RouteOf | backend/src/records/index.ts:10-209 | each route is chosen exactly when its method and path shape match: GET collection lists, GET item reads, POST collection creates, PUT item updates, DELETE item deletes; nothing else matches |
| Http.IsoDateShape | backend/src/records/index.ts:55 | the date check accepts exactly four digits, a dash, two digits, a dash and two digits, with nothing before or after |
| Http.ItemPathShape | backend/src/chores/index.ts:20 | an item path is exactly the collection, a slash and a non-empty id of letters, digits and dashes |
| Http.IsItemPath | backend/src/chores/index.ts:20 | an item path is never the bare collection path, so the collection and item routes cannot both match |
| Chores.ChoreFields | backend/src/chores/index.ts:41-53 | a body is accepted exactly when it is decoded with a non-empty string name and a positive number price, and then yields the body's own name and price; a missing body is 400, an unparsable one 500, a bad name 400 with the name message, a bad price after a good name 400 with the price message |
| Chores.ChoreTable.List | backend/src/chores/index.ts:11-17 | answers every stored chore |
| Chores.ChoreTable.Get | backend/src/chores/index.ts:20-37 | 400 without an id, 404 for an unknown id, otherwise the stored chore |
| Chores.ChoreTable.Create | backend/src/chores/index.ts:40-70 | succeeds exactly when the body is valid; then it puts one chore under `newId` (a put replaces whatever was stored there) with the given name and price and createdAt == updatedAt; on failure the table is unchanged; every stored price stays positive |
| Chores.ChoreTable.Update | backend/src/chores/index.ts:73-129 | id, then body, then existence (400 before 404); on success only name, price and updatedAt of that one chore change; on failure nothing changes |
| Chores.ChoreTable.Delete | backend/src/chores/index.ts:132-155 | 400 without an id, 404 for an unknown id with no change, otherwise exactly that key is removed and the id is answered |
| Chores.ChoreTable.Handle | backend/src/chores/index.ts:6-162 | an unmatched method or path is 404 "Route not found" and changes nothing; reads and failures change nothing |
| Children.ChildName | backend/src/children/index.ts:41-49 | a body is accepted exactly when it is decoded with a non-empty string name; missing body 400, unparsable 500, bad name 400 |
| Children.ChildTable.List | backend/src/children/index.ts:11-17 | answers every stored child |
| Children.ChildTable.Get | backend/src/children/index.ts:20-37 | 400 without an id, 404 for an unknown id, otherwise the stored child |
| Children.ChildTable.Create | backend/src/children/index.ts:40-65 | succeeds exactly when the name is valid; then it puts one child under `newId` (a put replaces whatever was stored there) with createdAt == updatedAt; failure changes nothing |
| Children.ChildTable.Update | backend/src/children/index.ts:68-117 | id, then body, then existence; on success only name and updatedAt of that one child change |
| Children.ChildTable.Delete | backend/src/children/index.ts:120-143 | 404 for an unknown id with no change, otherwise exactly that key is removed; the records table is outside what it may modify |
| Children.ChildTable.Handle | backend/src/children/index.ts:6-150 | an unmatched method or path is 404 "Route not found" and changes nothing; reads and failures change nothing |
| Records.ParseRecordFields | backend/src/records/index.ts:41-57 | a body is accepted exactly when choreId, childId and date are non-empty strings and the date matches `^\d{4}-\d{2}-\d{2}$`, and then yields the body's own three values; choreId, then childId, then date are checked, each failure answering 400 with its own message |
| Records.RecordTable.List | backend/src/records/index.ts:11-17 | answers every stored record |
| Records.RecordTable.Get | backend/src/records/index.ts:20-37 | 400 without an id, 404 for an unknown id, otherwise the stored record |
| Records.RecordTable.Create | backend/src/records/index.ts:40-95 | body errors first, then 404 for a missing chore, then 404 for a missing child; succeeds exactly when all hold, putting one record under `newId` (a put replaces whatever was stored there) with the given chore, child and date and createdAt == updatedAt; failure changes nothing |
| Records.RecordTable.Update | backend/src/records/index.ts:98-181 | id, body, record, chore, child in that order, the first failure answering; on success only choreId, childId, date and updatedAt of that one record change, id and createdAt are kept |
| Records.RecordTable.Delete | backend/src/records/index.ts:184-207 | 404 for an unknown id with no change, otherwise exactly that key is removed and the id is answered |
| Records.RecordTable.Handle | backend/src/records/index.ts:6-214 | an unmatched method or path is 404 "Route not found" and changes nothing; reads and failures change nothing |
| Allowances.ChoreMapKeys | backend/src/allowances/index.ts:59-63 | a chore id is in the lookup exactly when some chore has it, and the lookup maps it to one of the chores with that id |
| Allowances.ChoreMapLastWins | backend/src/allowances/index.ts:60-63 | when ids repeat, the lookup holds the last chore with that id |
| Allowances.ChoreMap | backend/src/allowances/index.ts:59-63 | every chore in the lookup is stored under its own id |
| Allowances.BuildChoreMap | backend/src/allowances/index.ts:60-63 | the in-place `forEach`/`set` loop builds exactly the lookup `ChoreMap` |
| Allowances.RecordsOfMembers | backend/src/allowances/index.ts:83 | a record is among the child's records exactly when it is an input record naming the child |
| Allowances.GroupSizeIsOccurrences | backend/src/allowances/index.ts:86-92 | the group of a chore within a child's records has as many records as the input has completions of that chore by that child |
| Allowances.GroupKeysOccur | backend/src/allowances/index.ts:86-95 | the group keys are distinct and are exactly the chore ids that occur |
| Allowances.GroupKeysFirstSeen | backend/src/allowances/index.ts:86-95 | the group keys follow the order in which each chore id first occurs |
| Allowances.GroupByChore | backend/src/allowances/index.ts:86-92 | the in-place grouping loop yields exactly the keys `GroupKeys` in insertion order, and under each key exactly that chore's records in input order |
| Allowances.CalculateAllowances | backend/src/allowances/index.ts:59-128 | the handler's lookup, filter, grouping, pricing and sum, performed step by step, give exactly `Compute` |
| Allowances.DetailFor | backend/src/allowances/index.ts:96-114 | a line names its chore and counts its group, with subtotal price times count; a known chore gives its name and price, an unknown one "Unknown Chore" at price 0 with subtotal 0 |
| Allowances.SumSubtotals | backend/src/allowances/index.ts:118 | the reduce from 0 over the subtotals: non-negative subtotals give a non-negative total, all-zero subtotals a total of 0 |
| Allowances.AllowanceFor | backend/src/allowances/index.ts:83-127 | one child's allowance carries the child's id and name and the month and year, its amount is the sum of its subtotals, and each subtotal is price times count |
| Allowances.Compute | backend/src/allowances/index.ts:81-128 | one allowance per child, in input order, with the child's id and name and the requested month and year |
| Allowances.GroupingPreservesWeight | backend/src/allowances/index.ts:95-118 | summing a weight times the size of each group equals summing the weight once per record, whenever the keys are distinct and cover the records |
| Allowances.SubtotalsAreWeighted | backend/src/allowances/index.ts:95-118 | the sum of the line subtotals is each chore's price times its group size, and the sum of the counts is the total group size |
| Allowances.AmountIsPricePerCompletion | backend/src/allowances/index.ts:83-118 | the amount is the sum over the child's completions of the chore's price (0 if unknown), and the line counts sum to the child's number of records |
| Allowances.LinesInFirstCompletionOrder | backend/src/allowances/index.ts:86-95 | the lines have distinct chore ids in the order of the child's first completion of each |
| Allowances.LinesAreTheCompletedChores | backend/src/allowances/index.ts:83-95 | a chore has a line exactly when the child completed it |
| Allowances.LineValues | backend/src/allowances/index.ts:96-114 | each line counts the child's completions of its chore; a known chore's line carries its name and price with subtotal price times count; an unknown one is "Unknown Chore", price 0, subtotal 0 |
| Allowances.NoCompletionsNoAllowance | backend/src/allowances/index.ts:83-127 | a child without records gets amount 0 and no lines |
| Allowances.OtherChildrensRecordsIgnored | backend/src/allowances/index.ts:83 | inserting another child's record anywhere in the input leaves the allowance unchanged |
| Allowances.OneMoreCompletion | backend/src/allowances/index.ts:83-118 | one more record for the child raises the amount by exactly its chore's price (0 for an unknown chore) |
| Allowances.DanglingChoreIsUnknown | backend/src/allowances/index.ts:96-106 | a completed chore absent from the chore list appears as an "Unknown Chore" line at price 0 with its full count and subtotal 0 |
| Allowances.RepricingIsRetroactive | backend/src/allowances/index.ts:96-118 | changing a chore's price changes the amount by the price difference times the child's completions of it |
| Allowances.AmountNonNegative | backend/src/allowances/index.ts:108-118 | with positive chore prices every amount is non-negative |
| Allowances.GetAllowances | backend/src/allowances/index.ts:14-137 | off-route requests are 404 "Route not found"; a missing month or year is 400 "Month and year query parameters are required", and a year that does not parse is 400 "Year must be a valid number" (these are the only 400s); 500 "Internal server error" exactly when those pass but the month's date range cannot be computed; success exactly when the route, both parameters, the year and the date range are all good, and then no children or no chores give `[]`, otherwise one allowance per child carrying the month and parsed year, equal to `Compute` over the records dated in the month |
| Allowances.GuardsPrecedeScans | backend/src/allowances/index.ts:19-35 | a rejected request is rejected the same way whatever the tables hold |
| Allowances.InRangeMembers | backend/src/allowances/index.ts:66-78 | the month's records are exactly the records dated from the month's start to its end, both included, in code-point order |
| Allowances.OtherMonthsIgnored | backend/src/allowances/index.ts:65-78 | a record dated outside the month's start and end changes nothing in the answer |
| Integrity.DeletedChoreReadsAsUnknown | backend/src/chores/index.ts:132-155 | once a chore is gone from a valid chores table, a scan of the table makes every child who completed it see an "Unknown Chore" line for it |
| Integrity.StoredPricesGiveNonNegativeAmounts | backend/src/chores/index.ts:51-53 | a scan of a valid chores table, whose prices are positive, yields non-negative allowances |
| Integrity.TwoChores | backend/src/chores/index.ts:40-70 | two valid POST bodies store exactly those two chores |
| Integrity.OneChild | backend/src/children/index.ts:40-65 | a valid POST body stores exactly that child |
| Integrity.OneCompletion | backend/src/records/index.ts:40-95 | a POST naming an existing chore and child stores exactly that record |
| Integrity.DeleteChoreKeepsItsRecords | backend/src/chores/index.ts:132-155 | after creating two chores, a child and a completion through the handlers and then deleting the completed chore, the records table still holds exactly that record, and the allowance computed from the tables as they are after the delete is one "Unknown Chore" line of count 1 and amount 0 |
| Integrity.AllowancesNameStoredChildren | backend/src/allowances/index.ts:38-42 | allowances computed from a scan of a valid children table name stored children: each child id is a key of the table whose child has that name |
| Integrity.UnknownLineAfterDelete | backend/src/allowances/index.ts:96-106 | a record whose chore is missing from the scan yields exactly one allowance, of amount 0, with one "Unknown Chore" line of count 1 |
| Scenarios.OneCompletion | backend/src/allowances/index.ts:81-128 | one completion of a 100-unit chore gives amount 100 and one line |
| Scenarios.TwoCompletions | backend/src/allowances/index.ts:86-118 | two completions of one chore give one line of count 2 and amount 200 |
| Scenarios.UnknownChoreCompletion | backend/src/allowances/index.ts:96-106 | a completion of a chore not in the list gives an "Unknown Chore" line and amount 0 |
| Scenarios.NoChildren | backend/src/allowances/index.ts:81 | no children, no allowances |
| Scenarios.ChildWithoutCompletions | backend/src/allowances/index.ts:120-127 | a child without completions still gets an allowance of 0 with no lines |

## Left out

- DynamoDB: each table is a `map` from id to entity, and a scan is a sequence of the table's values in some order.
  - Storage failures, which the handlers turn into 500 "Internal server error", are not modelled. The 500s modelled are the one from a body that `JSON.parse` rejects and the one from `getStartAndEndOfMonth` throwing (`monthRange` None in `Allowances.GetAllowances`).
  - The handlers read only the first page of each scan (at most 1 MB). The model treats a scan as the whole table.
- The month filter is modelled as code-point order `start <= date <= end` on strings (`Allowances.InRange`), which is how the records scan's `BETWEEN` compares strings.
- `getStartAndEndOfMonth` and `getMonthYearFromDate` (`backend/src/utils.ts`) depend on `Date.parse`, locale month names and the local time zone.
  - `getStartAndEndOfMonth` is the parameter `monthRange` of `Allowances.GetAllowances`. It answers None where the source's `toISOString` throws on an invalid date, for example a year of 300000. The handler then answers 500 "Internal server error".
  - Which inputs make it throw, and the dates it returns otherwise, are not modelled.
  - `getMonthYearFromDate` is not part of this model.
- `parseInt(yearStr, 10)` is the parameter `parseInt` (None for `NaN`).
- `uuidv4()` and `new Date().toISOString()` are the parameters `newId` and `now`.
- `createSuccessResponse` and `createErrorResponse`: JSON serialisation and CORS headers are left out. A response is a payload, or a code with a message.
- `JSON.parse`: a body is given already decoded into its top-level fields. A decoded value that is not an object has no fields, and `null` (whose destructuring throws) counts as unparsable.
- Prices are whole numbers. Fractional JSON numbers and floating-point rounding in `price * count` and the sum are not modelled.
- The `deleted: true` flag of a delete reply is implied by the `ChoreDeleted`, `ChildDeleted` and `RecordDeleted` replies, which carry only the id.
- Chores.ChoreTable.Handle, Children.ChildTable.Handle, Records.RecordTable.Handle: these state routing and "failures change nothing". They do not restate each route's result, which the route methods state.
- Async/await and Lambda event plumbing: the handlers are sequential once awaited.
- The frontend is not part of this model.
