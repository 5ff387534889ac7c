# grow-grub garden assembly, in Dafny

A model of the server side of the grow-grub garden tracker: the route
handlers in `server/routes/growGrub.ts`, and above all the garden assembler
inside `GET /gardens/:id`. The data store returns one flat joined row per
(plot, plant) pairing. The assembler folds these rows into one garden that
holds a list of plots, and each plot holds a list of plant summaries.

Files:

- `wrappers.dfy` (`Wrappers`): `Option` and `Result`.
- `ordering.dfy` (`Ordering`): strictly increasing sequences, and the ascending
  enumeration `Ascending` of a finite set of natural numbers.
- `sparse.dfy` (`Sparse`): the JavaScript array `plotsDB` used with plot ids as
  indices. It is a `seq<Option<T>>` where a hole is `None` and `|a|` is
  `length`. Its operations are `Get` (`a[k]`), `Store` (`a[k] = v`, which grows
  `length` to `k + 1`) and `Compact` (`filter(item => item)`).
- `entities.dfy` (`Entities`): the joined `Row`, and `Plant`, `Plot`, `Garden`.
  Field values are opaque JSON scalars (`Value`) that are only copied.
- `assembly.dfy` (`Assembly`): the fold (`Step`, `Fold`, `Assemble`). It also
  holds a reference description, one plot id at a time: `PlotIds`,
  `PlantsFor`, `LastFor`, `Expected`. Lemmas tie the two together.
- `routes.dfy` (`Routes`): the seven handlers. Each is a function of the
  caller's subject (`req.auth?.sub`), the body or path parameter, and the data
  store. The store is an arbitrary function from the `Query` issued to
  `Returned(value)` or `Threw`. Each handler returns the response and the list
  of queries it issued, so "the store was never asked" can be stated directly.

Behaviour the model follows from the code:

- A row is skipped when `plot_plant_id` is falsy. Both `null` (`None`) and `0`
  count as falsy, not only `null`.
- A plot that appears only in skipped rows (a plot with no plants) is missing
  from the garden (`UnplantedPlotOmitted`). The code has no comment or test
  that says whether this is intended. The model records the behaviour and
  does not judge it.
- The garden's `id` and `layout` come from the first row even when that row is
  skipped. No rows at all is a fault (`NoRows`), and the route turns it into
  status 500.
- Plots come out in ascending plot id order, not in order of first appearance.
- The `:id` path parameter is not validated. `Number(req.params.id)` is handed
  to the store unchecked, and the model forwards the raw parameter.

## Model

| member | source | states |
|---|---|---|
| `Sparse.Store` | server/routes/growGrub.ts:95-101 | assigning `plotsDB[plot_id]` sets that index, changes no other index, and makes `length` the larger of the old length and `plot_id + 1` |
| `Sparse.Compact` | server/routes/growGrub.ts:112 | `filter(item => item)` keeps exactly the stored plots (every stored value is in the result and every result entry was stored) and is no longer than the array |
| `Sparse.Indices` | server/routes/growGrub.ts:112 | the indices the filter keeps are strictly increasing, and they are exactly the indices that hold a plot |
| `Sparse.CompactAtIndices` | server/routes/growGrub.ts:112 | entry i of the filtered list is the plot stored at the i-th occupied index, so the filter keeps index order |
| `Assembly.Contributes` | server/routes/growGrub.ts:94 | `if (row.plot_plant_id)`: a row contributes exactly when its plot-plant id is present and not 0; `Step`, `FoldInvariant` and `TotalPlants` state what that decides |
| `Assembly.Step` | server/routes/growGrub.ts:94-110 | a row with a falsy `plot_plant_id` leaves the array unchanged; a contributing row touches only its own `plot_id`, which then holds a plot whose six scalar fields are this row's and whose plants are the earlier plants plus this row's plant |
| `Assembly.Fold` | server/routes/growGrub.ts:92-111 | the `forEach` from an empty `plotsDB`, one `Step` per row in order; its contract is stated by `FoldInvariant`, `FoldLength` and `FoldTotal` |
| `Assembly.Assemble` | server/routes/growGrub.ts:112-116 | assembly fails exactly when there are no rows (reading `garden_id` of row 0 throws); otherwise the garden's `id` and `layout` are those of the first row |
| `Assembly.FoldInvariant` | server/routes/growGrub.ts:92-111 | after the `forEach`, index k of `plotsDB` holds exactly the reference plot for k: scalars of the last row feeding k and the plants of all rows feeding k; it is a hole if no row feeds k |
| `Assembly.FoldLength` | server/routes/growGrub.ts:92-95 | the array's `length` is one more than the largest contributing plot id, or 0 when no row contributes |
| `Assembly.FoldTotal` | server/routes/growGrub.ts:102-103 | the plants across the array number exactly the contributing rows: each push adds one plant and nothing is lost when a plot is overwritten |
| `Assembly.AssembledPlots` | server/routes/growGrub.ts:92-116 | the garden has one plot per distinct contributing plot id, in strictly ascending id order, and each plot equals the reference plot for its id (merged plants, last-row scalars) |
| `Assembly.TotalPlants` | server/routes/growGrub.ts:94-112 | the total number of plants across the garden's plots equals the number of rows with a truthy `plot_plant_id` |
| `Assembly.SkippedRowInert` | server/routes/growGrub.ts:94 | inserting a row with a falsy `plot_plant_id` anywhere in the input leaves `plotsDB` unchanged |
| `Assembly.SkippedRowAssemble` | server/routes/growGrub.ts:93-116 | after the first row, a skipped row can be removed without changing the assembled garden |
| `Assembly.UnplantedPlotOmitted` | server/routes/growGrub.ts:94-95 | a plot id whose rows all have a falsy `plot_plant_id` gets no array entry and is not among the garden's plot ids |
| `Assembly.PlantsInRowOrder` | server/routes/growGrub.ts:102-109 | a plot's plants follow the row order: the plants of concatenated row lists are the first list's plants followed by the second list's |
| `Assembly.LastWriteWins` | server/routes/growGrub.ts:96-101 | the last contributing row for a plot id is the one whose scalars the reference plot uses |
| `Assembly.PlotScalarsFromLastRow` | server/routes/growGrub.ts:96-112 | the plot of a contributing row's id is in the garden, and its `plotNumber`, `shadeLevel`, `plotType`, `size`, `averageWind` and `name` are those of the last row contributing to that id |
| `Assembly.TwoPlantsOnePlot` | server/routes/growGrub.ts:91-116 | two rows of garden 1 naming plot 5 (Tomato, then Basil) assemble into one plot holding both plants in row order |
| `Routes.HasIdentity` | server/routes/growGrub.ts:11-12 | `if (!auth0Id)`: a caller has an identity exactly when `req.auth?.sub` is present and not the empty string; each handler's contract states the 401 it decides |
| `Routes.ToUser` | server/routes/growGrub.ts:16 | the user sent back has exactly the keys `id`, `username` and `location`, each with the row's value |
| `Routes.ToUserIgnoresOtherFields` | server/routes/growGrub.ts:16 | two rows that agree on id, username and location project to the same user, so no other field of the row reaches the response |
| `Routes.GetUsers` | server/routes/growGrub.ts:10-22 | 401 exactly when the subject is missing or empty, and then no query is made; 500 exactly when the lookup throws; a falsy store answer is sent back unchanged; a found row is sent, with status 200, as its projection and only so |
| `Routes.WithSubject` | server/routes/growGrub.ts:30 | the stored user has `auth0_id` set to the caller's subject whatever the body said, and every other field as in the body |
| `Routes.PostUsers` | server/routes/growGrub.ts:24-36 | 401 exactly when the subject is missing, so it wins over a missing body; 400 exactly when the subject is present and the body is missing; the store is asked only when both are present; 500 exactly when the insert throws; otherwise the insert's answer is sent with status 200 |
| `Routes.GetListing` | server/routes/growGrub.ts:37-84 | for `/usernames`, `/plants`, `/plants/desired` and `/gardens`: 401 with no query exactly when the subject is missing; 500 exactly when the store throws; otherwise the store's answer is sent unchanged with status 200 |
| `Routes.GetGarden` | server/routes/growGrub.ts:86-122 | 401 with no query exactly when the subject is missing; 500 exactly when the store throws or returns no rows; otherwise the assembled garden is sent with status 200, and only it |

## Left out

- `Number(req.params.id)`: the conversion (which can give `NaN`) is not modelled. The raw path parameter is what the model hands to the store.
- Plot ids that are not natural numbers: `plotId` is a `nat`. A contributing row whose `plot_id` is `null` or not an integer would be stored under a non-index property that `filter` never visits. That case is not modelled.
- Sparse.Store: every natural number is treated as an array index. In JavaScript only 0 to 2^32-2 are indices; assigning `plotsDB[k]` for a larger `k` creates a plain property that does not grow `length` and that `filter` never visits, so such a plot and its plants would be missing from the garden, and ids beyond 2^53 may collapse into one number. `FoldLength` and `AssembledPlots` inherit this: they promise the plot for every contributing id, which the code does only for ids below 2^32-1.
- Numeric field values are integers (`Value.Num`). The assembler only copies them, so no arithmetic depends on this.
- The data-store functions (`server/db/growGrub.ts` is not part of this model): each is an arbitrary function from the query to a value or a thrown error.
- `checkJwt`, Express routing, `console.log`, `await` scheduling and JSON serialisation (for example, `undefined` fields being dropped): these are framework and I/O code.
- Truthiness of objects is an `Option`: `None` stands for any falsy `req.body`, and for any falsy answer of the user lookup in `GET /users`.
- `client/hooks/useHooks.ts`: these are data-fetching hooks over react-query, Auth0 and superagent. They are network and cache plumbing with no logic of their own.
- `client/pages/SinglePlant.tsx`: a presentational page over hardcoded content.
