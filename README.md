# Vehicle search filters, modelled in Dafny

This project models the search side of a vehicle registry front end: how a
user's search term becomes a PostgREST-style OR filter (`field.op.value`
clauses joined by commas) on the `vehicles` table, and how the outcome of
the query updates the `vehicles` list a page or component shows.

Three parts of the front end are modelled:

- the vehicles page (`src/pages/index.js`): it trims the term and issues no
  query for a blank one. It classifies the term as numeric with
  `Number(term)`. A numeric term gets `id.eq` and `year.eq` clauses on the
  number, and every term gets `ilike` clauses on vin, model, make and plates
  with the trimmed text. Any failure, and null data, leave an empty list;
- the older vehicles component (`src/components/Vehicles.jsx`): it filters
  on vin and plates with the untrimmed query. It keeps the previous list when
  the query fails and stores `data` as it comes when the query succeeds;
- the search form (`src/components/Search.jsx`): it navigates to
  `/vehicles?query=<term>` for a term that is not blank, and always prevents
  the browser's default submission.

Files and modules:

| file | module | what it holds |
|---|---|---|
| wrappers.dfy | `Wrappers` | `Option` |
| text.dfy | `Text` | JavaScript `trim`, `join`, one-character `split`, and their laws |
| numbers.dfy | `Numbers` | `Number()` on integer literals, `isNaN`, and the decimal rendering of an integer |
| store.dfy | `Store` | vehicle rows, the query a builder chain describes, and the query outcome |
| filters.dfy | `Filters` | clauses, their rendering and joining, reading a filter back |
| vehicles_page.dfy | `VehiclesPage` | the page's filter builder, outcome handling and the `Page` class |
| vehicles_component.dfy | `VehiclesComponent` | the older component's filter, outcome handling and the `Component` class |
| search_form.dfy | `SearchForm` | the form's submit handler |

The data store is a parameter `store: Query -> Outcome`. It answers the
query it is given with an error, a rejected promise, or data that may be
null. A fetch method returns the query it sent, or `None` when it sent none.
The `vehicles` state of each React component is a field of a class, and a
fetch method reassigns it.

Three behaviours of the code are easy to miss:
- unlike the page, the older component does not trim, so a whitespace-only
  query is still filtered on;
- the older component keeps its previous list when a query fails, where the
  page shows an empty result;
- the page's `eq` clauses carry `Number(term)` rendered back to text, not
  the literal term (`"007"` gives `id.eq.7` but `vin.ilike.%007%`).

## Model

| member | source | states |
|---|---|---|
| Text.Trim | src/pages/index.js:18 | `trim()` is empty exactly when the term is blank, and otherwise starts and ends with a character that is not whitespace |
| Text.TrimInfix | src/pages/index.js:18 | what `trim()` keeps is an infix of the term, starting after the leading whitespace |
| Text.TrimRemovesWhitespace | src/pages/index.js:18 | everything `trim()` drops, before and after the kept infix, is whitespace |
| Text.TrimIdempotent | src/pages/index.js:18 | trimming an already trimmed term changes nothing, so the form's blank test and the page's trim agree on which terms are blank |
| Text.Join | src/pages/index.js:43-54 | `join` of no parts is empty and otherwise starts with the first part; `SplitJoin` and `JoinSplit` show that `split` undoes it |
| Text.SplitJoin | src/pages/index.js:43 | joining comma-free pieces with "," and splitting on "," gives back the pieces |
| Text.JoinSplit | src/pages/index.js:54 | joining the pieces of a split with the separator gives back the string |
| Text.SplitLength | src/pages/index.js:43 | splitting gives one piece more than there are separators |
| Numbers.NatToString | src/pages/index.js:37-38 | the decimal rendering of a number is canonical (no leading zero except for 0) and reads back as the same number |
| Numbers.IntToString | src/pages/index.js:37-38 | `${n}` puts a minus sign exactly before negative numbers, and the digits read back as the magnitude with no leading zero (a single "0" for zero) |
| Numbers.ParseNumber | src/pages/index.js:24-25 | a term is numeric exactly when it is empty, all digits, or a sign followed by at least one digit and only digits; the empty term is 0, a digit string has its decimal value, and a signed term has its digits' value, negated after "-" |
| Numbers.DigitsRendering | src/pages/index.js:24-38 | rendering the value of a digit string gives the string without its leading zeros |
| Numbers.NumberRendering | src/pages/index.js:24-38 | the rendering of `Number(term)` is the term's digits without leading zeros, with no plus sign, and with a minus sign only for a non-zero negative value |
| Filters.RenderClause | src/pages/index.js:37-53 | a clause starts with its column name and a dot; `ClauseRoundTrip` reads every clause back from its rendering, and `ClauseTexts` writes out each one the page builds |
| Filters.Render | src/pages/index.js:43-54 | the filter is empty exactly when there are no clauses; `RenderCons` gives its shape and `FilterRoundTrip` reads it back |
| Filters.NumberHasNoComma | src/pages/index.js:37-38 | a rendered number holds no comma, so an `eq` clause adds no piece when the filter is split on "," |
| Filters.RenderCons | src/pages/index.js:36-43 | the filter of several clauses is the first clause, a comma, and the filter of the rest |
| Filters.RenderCommas | src/pages/index.js:43 | a rendered filter holds one comma between each pair of clauses plus every comma inside the terms |
| Filters.SplitRenderLength | src/pages/index.js:43 | splitting a filter on "," gives one piece per clause plus one per comma inside the terms |
| Filters.SplitRender | src/pages/index.js:43 | for comma-free terms, splitting a filter on "," gives back exactly the rendered clauses |
| Filters.NumberRoundTrip | src/pages/index.js:37-38 | a rendered integer is numeric again, with the same value |
| Filters.ClauseRoundTrip | src/pages/index.js:36-42 | every `field.op.value` clause reads back from its rendering, whatever its term holds |
| Filters.FilterRoundTrip | src/pages/index.js:36-45 | a non-empty list of clauses whose terms hold no comma reads back from its filter string |
| VehiclesPage.SearchClauses | src/pages/index.js:32-57 | a trimmed term gets six clauses when numeric and four otherwise, ending with the four text clauses; every `ilike` clause carries the trimmed term and every `eq` clause is on id or year with the term's numeric value |
| VehiclesPage.SearchQuery | src/pages/index.js:16-57 | a fetch issues no query exactly when the term is blank; otherwise it issues one OR filter over `vehicles` with projection `id, vin, model, make, year, plates` |
| VehiclesPage.PageRows | src/pages/index.js:59-70 | the list is non-empty only when the answer carries that list as data; errors, rejections and null data give [] |
| VehiclesPage.ClauseTexts | src/pages/index.js:37-53 | each of the page's six template literals renders as `id.eq.<n>`, `year.eq.<n>` or `<column>.ilike.%<term>%` |
| VehiclesPage.TextRendering | src/pages/index.js:49-54 | the text clauses render as vin, model, make, plates `ilike %term%`, joined by commas in that order |
| VehiclesPage.EqClausesRendering | src/pages/index.js:37-38 | the two `eq` clauses of a numeric term render as `id.eq.<n>,year.eq.<n>` |
| VehiclesPage.NumericFilter | src/pages/index.js:32-45 | a numeric term yields exactly six clauses in order: `id.eq`, `year.eq` on the number, then vin, model, make, plates `ilike` on the trimmed term |
| VehiclesPage.TextFilter | src/pages/index.js:46-57 | a non-numeric term yields exactly the four `ilike` clauses on the trimmed term, with no id or year clause |
| VehiclesPage.NumericExtendsText | src/pages/index.js:36-54 | the numeric filter is the two `eq` clauses, a comma, and the whole non-numeric filter for the same term |
| VehiclesPage.DigitTermFilter | src/pages/index.js:24-43 | for a digit term the `eq` clauses carry the digits without leading zeros while the `ilike` clauses carry the digits as typed |
| VehiclesPage.ClausesTermCommas | src/pages/index.js:39-53 | the trimmed term appears in exactly four clauses, so its commas are counted four times |
| VehiclesPage.SplitFilterLength | src/pages/index.js:43-56 | splitting the filter on "," gives one piece per clause plus four per comma in the unescaped term |
| VehiclesPage.SplitFilter | src/pages/index.js:43-56 | for a term without a comma, splitting the filter on "," gives exactly the rendered clauses, and the filter reads back as the clause list |
| VehiclesPage.Truthy | src/pages/index.js:11 | the route parameter is falsy exactly when it is missing or the empty string; an array is always truthy |
| VehiclesPage.Page.constructor | src/pages/index.js:6 | the list starts empty |
| VehiclesPage.Page.BuildQuery | src/pages/index.js:24-57 | building the query for a trimmed term (base query, numeric test, one `.or`) gives the page's projection of `vehicles` with the filter of `SearchClauses` |
| VehiclesPage.Page.FetchVehicles | src/pages/index.js:16-71 | the issued query is `SearchQuery(term)`; a blank term sets the list to [] with no query; otherwise the list becomes `PageRows` of the store's answer |
| VehiclesPage.Page.OnSearchParam | src/pages/index.js:8-14 | a falsy route parameter changes nothing and issues nothing; a non-empty string fetches; an array parameter throws inside the fetch and clears the list without a query |
| VehiclesComponent.QueryClauses | src/components/Vehicles.jsx:25 | two `ilike` clauses, on vin and then plates, both carrying the query as typed; `QueryFilter` gives their exact text |
| VehiclesComponent.FetchQuery | src/components/Vehicles.jsx:19-26 | the query selects all columns of `vehicles` and carries one OR filter exactly when the query string is non-empty |
| VehiclesComponent.Settle | src/components/Vehicles.jsx:28-37 | an answer replaces the list with its data exactly, even null; an error or a rejection leaves the list unchanged |
| VehiclesComponent.EmptyQueryFetchesAll | src/components/Vehicles.jsx:21-26 | the empty query applies no filter: all columns of all vehicles |
| VehiclesComponent.QueryFilter | src/components/Vehicles.jsx:23-26 | a non-empty query gives exactly `vin.ilike.%q%,plates.ilike.%q%` with the untrimmed query |
| VehiclesComponent.BlankQueryStillFiltered | src/components/Vehicles.jsx:23-25 | a whitespace-only query is still filtered on here, while the page issues no query for it |
| VehiclesComponent.Component.constructor | src/components/Vehicles.jsx:6-7 | the list starts as [] and the search term as "" |
| VehiclesComponent.Component.SetSearchTerm | src/components/Vehicles.jsx:56 | typing sets the search term and nothing else |
| VehiclesComponent.Component.FetchVehicles | src/components/Vehicles.jsx:19-38 | the issued query is `FetchQuery(query)`; only the list changes, to `Settle` of the previous list and the store's answer |
| VehiclesComponent.Component.Mount | src/components/Vehicles.jsx:10-12 | mounting issues one unfiltered query of all columns |
| VehiclesComponent.Component.HandleSearch | src/components/Vehicles.jsx:43-46 | submitting prevents the default action and fetches with the current search term as typed |
| SearchForm.HandleSearch | src/components/Search.jsx:12-17 | the default submission is always prevented; no navigation happens exactly when the term is blank; otherwise exactly one URL is pushed: `/vehicles?query=` followed by the raw term |
| SearchForm.NavigationInjective | src/components/Search.jsx:15 | the pushed URL determines the term, including its surrounding whitespace |

## Left out

- Numbers.ParseNumber: recognises only integer literals with an optional sign (and the empty string, which `Number` turns into 0). JavaScript's `Number` also accepts hexadecimal, binary and octal literals, fractions, exponents and `Infinity`, for which the page would build `eq` clauses; the model treats such terms as non-numeric.
- Numbers.IntToString: renders every integer exactly. JavaScript numbers are doubles: above 2^53 digits are lost, and from 10^21 on the rendering uses exponent notation.
- Strings are sequences of Unicode code points. JavaScript strings are sequences of UTF-16 code units, so a lone surrogate cannot appear in a modelled term, and a character outside the Basic Multilingual Plane counts as one character here and two in JavaScript.
- What `ilike` matches, `%` and `_` in a term acting as wildcards, and how PostgREST parses the filter belong to the data store. The store is an abstract function from queries to outcomes, and `Filters.ParseFilter` is only the clause reading the rendering is designed for.
- The projection is recorded in the query but not applied to the rows the store returns.
- `await`, promise scheduling, `console.error` logging and React's re-rendering are not modelled. An effect is modelled as one run for one parameter value; React's rule that the effect runs only when the parameter changes is not.
- Errors thrown synchronously by the query builder are folded into the `Threw` outcome of the store.
- URL encoding and the router's parsing of `query` back out of the pushed URL are not modelled; `router.push` is the optional URL of a submission.
- The rendering of the lists in JSX, including what the older component would do when rendering a null list.
- src/pages/vehicle/[id].js (maintenance records, the simulated anchoring call), src/components/Navigation.jsx and src/pages/_app.js (wallet login and app wiring) and the contract tests under contract/ are not part of this model.
