# Azzar administrator panel: draw controller, sales report and menu

This project models, in Dafny, the logic of three files of the Azzar
raffle administration front end and proves properties of that model.

- **The draw page** (`src/app/sortear/page.tsx`). The operator picks a
  prize, which loads the prize's ticket pool. Sortear starts a five-slot
  wheel that advances every 80 ms and asks the backend for a winner. The
  winner is matched against the pool by ticket number, ignoring leading
  zeros; a placeholder ticket stands in for a winner that is not in the
  pool. After 3000 ms the wheel stops on the winner, or on the sentinel
  position `ventas.length` when the winner is not in the pool.
  - The pure parts are in module `Tickets` (pool mapping, `normalize`,
    `find`/`findIndex`, resolution, stop index) and module `Carousel`
    (`getVisibleIndices`, slot scale, opacity and highlight).
  - The component state is class `Draw.DrawController`. Its fields are
    `selectedPremio`, `ventas`, `ganador`, `isSorteando`, `loading`,
    `error`, `indiceVisual`, `agenteActivo`, the interval handle
    (`intervalRunning`) and the pool length the interval's callback
    captured (`ruletaLen`). Each handler is a method.
  - The timers and HTTP calls are method calls the environment makes:
    `Tick` (one firing of the interval), `ResolveWith` / `ResolveFailed`
    (the outcome of the draw request) and `DelayedStop` (the 3000 ms
    timeout).
  - A JavaScript closure sees the `ventas` of the render that created it.
    So the pool a callback uses travels with it, in `PendingDraw` (returned
    by `StartSorteo`) and in `PendingStop` (returned by `ResolveWith`).
  - Five client methods (`Draw.ScenarioMatchedDraw`,
    `ScenarioUnmatchedDraw`, `ScenarioFailedDraw`, `ScenarioNoActiveTickets`,
    `ScenarioReselect`) run whole sessions through the class. They prove the
    expected outcome from the method contracts alone.
- **The sales report** (`src/app/ventas/page.tsx`), module `Ventas`: the
  choice of report URL from the token's company id, the mapping of backend
  rows to table rows, and the search and prize filters.
- **The side menu** (`src/app/components/Header.tsx`), module `Sidebar`:
  "/empresas" is shown only to company id -99, and the active-entry rule.

Shared helpers: `Wrappers` (Option, Result), `Decimal` (the text of an
integer, proved injective), `Lists` (`filter` and subsequences), `Text`
(ASCII lower-casing and `includes`).

Behaviour of the code worth noting, all of which the model keeps:
- A pool fetch that fails keeps the new selection and the old pool. It does
  not return the page to "no prize selected".
- The code never checks `res.ok` on the draw request, so a non-success reply
  is treated like any other. The draw stops with no winner in two cases.
  - The body is not JSON, or is `null`: `res.json()` or `data.numeroRifa` throws (`ResolveFailed`).
  - The body has no `numeroRifa`: `.toString()` of undefined throws inside the pool lookup (`Resolve` returns `Failure`).
  - Any other body, whatever the status, produces a winner.
- Deselecting or switching prizes during a draw does not clear the interval
  or `isSorteando`, and deselecting does not reset `indiceVisual`.
- Late callbacks are not guarded. A timeout armed by an earlier draw still
  stops whatever draw is running when it fires (`DelayedStop` has no
  precondition on the current draw).
- `!selectedPremio` is also true for prize id 0, so a prize with id 0 can
  never be drawn (`CheckStart`).

## Model

| member | source | states |
|---|---|---|
| `Tickets.MapPool` | src/app/sortear/page.tsx:47-54 | one ticket per backend row, in the same order, with `uid = idRifa-numeroRifa-index` and id, number, buyer, sex and state copied |
| `Tickets.PoolUidsDistinct` | src/app/sortear/page.tsx:48 | the uids of a loaded pool are pairwise distinct, even when ticket numbers repeat |
| `Tickets.Normalize` | src/app/sortear/page.tsx:94 | the input is a run of '0's followed by the result, and the result does not start with '0': exactly the maximal leading run is removed |
| `Tickets.NormalizeUnique` | src/app/sortear/page.tsx:94 | any split into a '0' run and a rest not starting with '0' is the one normalize finds |
| `Tickets.NormalizeIdempotent` | src/app/sortear/page.tsx:94 | normalizing twice is normalizing once |
| `Tickets.PaddedNumbersMatch` | src/app/sortear/page.tsx:98 | "007" and "07" match "7" |
| `Tickets.TrailingZeroMatters` | src/app/sortear/page.tsx:98 | "7" does not match "70" |
| `Tickets.ZerosNormaliseToEmpty` | src/app/sortear/page.tsx:94 | "0" and "000" both normalize to "" |
| `Tickets.FindIndex` | src/app/sortear/page.tsx:120-122 | the first position whose ticket matches the key, or -1 exactly when no ticket matches |
| `Tickets.FindAgreesWithFindIndex` | src/app/sortear/page.tsx:97-98 | `find` with the match rule returns the ticket at the position `findIndex` reports, or nothing when it reports -1 |
| `Tickets.Resolve` | src/app/sortear/page.tsx:96-104 | fails exactly when `numeroRifa` is missing; otherwise it is the first matching pool ticket, or a placeholder with the drawn number, id and buyer and no state |
| `Tickets.StopIndex` | src/app/sortear/page.tsx:120-124 | at most the pool length; below it, the first position matching the winner; equal to it exactly when nothing matches |
| `Tickets.ResolvedStopIndex` | src/app/sortear/page.tsx:96-124 | stopping on a resolved winner lands on the first position matching the drawn number, or on the sentinel `ventas.length` when there is none |
| `Tickets.ScenarioMatchedWinner` | src/app/sortear/page.tsx:96-124 | pool "001","002" with "1" drawn: the winner is "001" and the stop index 0 |
| `Tickets.ScenarioUnmatchedWinner` | src/app/sortear/page.tsx:96-124 | pool "005" with "9" drawn: a placeholder with ticket "9" and the stop index 1 |
| `Carousel.JsRem` | src/app/sortear/page.tsx:132 | JavaScript's `%`: result below the divisor in size, carrying the dividend's sign, and differing from the dividend by a multiple of the divisor (which fixes the truncated remainder); equal to Dafny's `%` for a non-negative dividend |
| `Carousel.VisibleIndices` | src/app/sortear/page.tsx:129-133 | empty exactly for an empty pool, otherwise five indices |
| `Carousel.VisibleIndicesCyclic` | src/app/sortear/page.tsx:132 | for a non-negative centre each index is in `[0, len)` and slot k shows `(center + k - 2) mod len`, one-ticket pools included |
| `Carousel.CentreSlot` | src/app/sortear/page.tsx:131-132 | the middle slot shows `center mod len`: the centre itself when in range, position 0 for the sentinel |
| `Carousel.NeighbouringSlots` | src/app/sortear/page.tsx:132 | each slot shows the position after its left neighbour, cyclically |
| `Carousel.Ruleta` | src/app/sortear/page.tsx:192-209 | per slot: the ticket at the visible index, scale 1.1/0.9/0.75 and opacity 1/0.6 by offset, highlighted iff a winner is set with the same raw ticket text |
| `Carousel.MatchedWinnerAtCentre` | src/app/sortear/page.tsx:192-196 | after a stop on a winner found in the pool, the middle slot shows that winner and is highlighted |
| `Carousel.UnmatchedWinnerNotShown` | src/app/sortear/page.tsx:192-196 | after a stop on a placeholder winner the index is the sentinel and no slot is highlighted |
| `Draw.CheckStart` | src/app/sortear/page.tsx:69-75 | no selection (null or the falsy id 0) or an empty pool is one rejection; otherwise the start is accepted iff some ticket has `estado == 2` |
| `Draw.DrawController.constructor` | src/app/sortear/page.tsx:12-22 | the initial state: nothing selected, empty pool, no winner, not drawing, index 0, agent off |
| `Draw.DrawController.ToggleAgente` | src/app/sortear/page.tsx:66 | flips the agent flag and nothing else |
| `Draw.DrawController.ClickPremio` | src/app/sortear/page.tsx:162-173 | re-clicking the selected prize clears selection, pool and winner; another prize becomes selected and its pool is requested; the interval and index are untouched |
| `Draw.DrawController.PoolLoaded` | src/app/sortear/page.tsx:45-58 | the pool becomes the mapped rows, the winner is cleared and the index reset to 0 |
| `Draw.DrawController.PoolFailed` | src/app/sortear/page.tsx:59-63 | the error is shown; selection and pool stay |
| `Draw.DrawController.StartSorteo` | src/app/sortear/page.tsx:68-91 | a rejected start changes nothing; an accepted one sets drawing, clears the winner, starts the interval over the pool and sends the request with `agenteHabilitado` "true"/"false" |
| `Draw.DrawController.Tick` | src/app/sortear/page.tsx:80-82 | the index becomes `(index + 1) mod len` for the captured pool length, within `[0, len)` |
| `Draw.DrawController.StopWith` | src/app/sortear/page.tsx:112-127 | always clears the interval and drawing; with a winner, sets it and snaps the index to `StopIndex`; with none, winner and index stay |
| `Draw.DrawController.StopButton` | src/app/sortear/page.tsx:226-227 | stops with the current winner, which stays; with a winner the index snaps to its stop index, without one it stays; during a draw the winner is none, so the wheel freezes where it is |
| `Draw.DrawController.ResolveWith` | src/app/sortear/page.tsx:93-108 | a resolvable reply arms the delayed stop on `Resolve`'s winner and changes nothing; an unresolvable one stops at once with no winner |
| `Draw.DrawController.ResolveFailed` | src/app/sortear/page.tsx:107-109 | a failed request stops the draw with no winner |
| `Draw.DrawController.DelayedStop` | src/app/sortear/page.tsx:106 | the timeout stops on its winner at its stop index in the pool it captured |
| `Draw.DrawController.Wheel` | src/app/sortear/page.tsx:188-192 | the rendered wheel has five slots when the pool is non-empty and none otherwise |
| `Ventas.ReportUrl` | src/app/ventas/page.tsx:34-37 | the general report iff the id is -99; otherwise the company report with `?idEmpresa=<id>` ("undefined" for a missing claim) |
| `Ventas.ReportUrlInjective` | src/app/ventas/page.tsx:34-37 | different company ids request different URLs |
| `Ventas.EstadoLabel` | src/app/ventas/page.tsx:68-73 | 1 is "Pendiente de Pago", 2 is "Pagado", every other code is "" (each iff) |
| `Ventas.TicketLabel` | src/app/ventas/page.tsx:65 | "Rifa #" followed by the number; dropping the prefix gives the number back |
| `Ventas.MapVentas` | src/app/ventas/page.tsx:52-77 | one table row per backend row, in order, with id, ticket label, buyer, prize and state label |
| `Ventas.FilteredVentas` | src/app/ventas/page.tsx:100-106 | an order-preserving subsequence holding exactly the rows that pass both the search and the prize filter, each as many times as it occurs in the table |
| `Ventas.NoFilterKeepsAll` | src/app/ventas/page.tsx:101-104 | an empty search with "all prizes" keeps every row |
| `Ventas.SelectedPremioOnly` | src/app/ventas/page.tsx:104 | with a prize selected, every kept row is of that prize |
| `Ventas.FiltersCombineByAnd` | src/app/ventas/page.tsx:100-106 | the table is the search filter followed by the prize filter |
| `Ventas.SearchIgnoresCase` | src/app/ventas/page.tsx:101-103 | lower-casing the search text does not change the table |
| `Sidebar.VisibleMenu` | src/app/components/Header.tsx:78-83 | the visible menu is a subsequence of the declared one |
| `Sidebar.AdminSeesAll` | src/app/components/Header.tsx:78-83 | for id -99 all six entries show, in declared order |
| `Sidebar.OthersMissEmpresas` | src/app/components/Header.tsx:81 | for any other id, or none, the menu is the other five entries in order |
| `Sidebar.HrefsDistinct` | src/app/components/Header.tsx:28-35 | no two entries share a link |
| `Sidebar.AtMostOneActive` | src/app/components/Header.tsx:85 | for any path at most one visible entry is active |
| `Sidebar.OnlyEmpresasDependsOnAdmin` | src/app/components/Header.tsx:80-82 | every entry other than "/empresas" shows for every user |
| `Lists.Filter` | src/app/ventas/page.tsx:100 | `filter`: a subsequence whose elements all pass, holding every passing element, with length the number of passing positions |
| `Lists.FilterCounts` | src/app/ventas/page.tsx:100 | each passing element occurs in the result as often as in the input, and no failing element occurs |
| `Text.Includes` | src/app/ventas/page.tsx:102 | `includes`: true iff the needle occurs at some position |
| `Text.Lower` | src/app/ventas/page.tsx:102 | `toLowerCase` on ASCII: same length, each upper-case letter lowered, all else kept |

## Left out

- HTTP, storage and token decoding: `fetch`, `res.json()`, `localStorage`, `jwtDecode`, the `atob`/`JSON.parse` decoding in Header.tsx, and navigation. Backend replies are method parameters, and the token's company id is an `Option<int>`.
- Timers: the 80 ms interval and the 3000 ms timeout are method calls; wall-clock time and the interleaving of callbacks is left to the caller. `Date.now()` in the placeholder uid is the parameter `now`.
- The prize list of the draw page (`fetchPremios`), the heading `nombrePremio`, the `alert`, the loading/error banners, colours and layout are display only.
- The dates and prices of the sales report: they use `toLocaleString`, `Date` and `Number` (locale and floating-point formatting).
- Backend and token values of unexpected JSON types: a numeric `numeroRifa` (its `===` against a string differs), a string company id, a company-id claim that is present but `null` (the URL then ends in "null", not "undefined"), null buyer names. Each field is modelled with the one type the code expects; a missing claim is `None`.
- Integer ids are taken to be safe integers, below 2^53 in size. Above 1e21 `${n}` switches to exponent form, and above 2^53 distinct ids are not distinct numbers at all; `Decimal.NatToString` is the plain decimal text.
- src/app/context/AuthContext.tsx, the CRUD pages (premios, eventos, empresas), panel, login and layout are not part of this model. They are timers, forms and REST calls; their search boxes have the same shape as `Ventas.FilteredVentas`.
- Text.Lower: folds only the ASCII letters A-Z; JavaScript's `toLowerCase` folds all of Unicode.
- Draw.DrawController.StartSorteo: requires that no draw is running. The only caller is the Sortear button, disabled while `isSorteando` (src/app/sortear/page.tsx:221). A second start would start a second interval, which the single interval flag cannot represent.
- Draw.DrawController.Tick: requires a running interval. Ticks only come from a live interval.
- Draw.DrawController.ResolveWith: requires a non-empty captured pool. Every draw request comes from an accepted start, which needs a non-empty pool. With an empty pool, `find` would never evaluate `numeroRifa.toString()`, so a reply without `numeroRifa` would produce a placeholder whose ticket is undefined instead of failing.
