# LightBnB data-access gateway, modelled in Dafny

This project models the data-access layer of the LightBnB property-rental web
application (`lightBnB_WebApp/server/database.js`). Each exported function of
that file builds one parameterised SQL statement and a positional parameter
list, hands both to the database pool, and maps the returned rows to its
result. The model covers the statement side and the result mapping. The
database is a black box that yields a row sequence.

The core is `getAllProperties`. It assembles its query step by step: each
optional filter pushes its value(s) onto `params` and then appends a clause
whose `$k` placeholders are read off `params.length`. `PropertySearch.BuildQuery`
is that procedure as an imperative method. It returns the clauses in query
order, each carrying the placeholder indices it cites, and the parameter list.
It is proved equal to a declarative reference definition
(`SearchClauses` / `SearchParams`) and aligned: the text cites `$1 .. $n` in
order, where `n` is the number of parameters. The lemmas beside it state the
search's promises about that reference definition:
- the owner short-circuit;
- the parameter count;
- the row cap is always the last parameter;
- each placeholder is bound to the value it compares against;
- price filters apply only as a pair;
- the fixed clause order.

The fixed statements (the user lookups, `addUser`, the reservation listing
and the property INSERT) are modelled by their text. A text is a sequence of
SQL fragments and placeholders. Each parameter list is proved to match its
text: the text cites `$1 .. $n` in order, `n` being the number of values, and
the placeholder after each comparison is bound to the value it compares
against.

Modules:
- `Values` (`values.dfy`): bound parameter values; JavaScript truthiness of
  options (`undefined`, `0` and `""` are falsy); the `limit = 10` default,
  which applies only to `undefined`; ASCII case mapping.
- `Statements` (`statements.dfy`): statement texts with positional
  placeholders, and what it means for a parameter list to match a text.
- `Results` (`results.dfy`): first-row-or-null and rows-or-null.
- `Users` (`users.dfy`): lookup by email and by id, `addUser`, and the
  email-matching finding below.
- `Reservations` (`reservations.dfy`): `getAllReservations`.
- `PropertySearch` (`property_search.dfy`): `getAllProperties`.
- `PropertyInsert` (`property_insert.dfy`): `addProperty`, its column list,
  and decoding the bound values back through that column list.

Prices are integers, so `* 100` is exact. Options are modelled as optional
integers and texts.

The property INSERT lists its columns in an order of its own (line 175), not
the order in which it destructures its argument. The value list (lines
180-195) follows the column list, so every column is paired with the field of
the same name. The model proves the pairing for all fourteen positions.

The price clause always starts with `AND`, even when no `WHERE city` precedes
it. The model reproduces this (`PriceClauseFollowsJoin`). In that case the
clause extends the `JOIN ... ON` condition of the line before it, which an
inner join filters the same way, so it is not recorded as a finding.

## Model

| member | source | states |
|---|---|---|
| `Values.TruthyNum` | lightBnB_WebApp/server/database.js:100 | an optional number is truthy exactly when it is given and not 0 |
| `Values.TruthyText` | lightBnB_WebApp/server/database.js:114 | an optional text is truthy exactly when it is given and not empty |
| `Values.EffectiveLimit` | lightBnB_WebApp/server/database.js:70 | the row cap is 10 when `limit` is undefined, and otherwise the value passed |
| `Values.Lower` | lightBnB_WebApp/server/database.js:19 | `toLowerCase` keeps the length and maps every character through the ASCII lower-case map |
| `Values.Upper` | lightBnB_WebApp/server/database.js:19 | `toUpperCase` keeps the length and maps every character through the ASCII upper-case map |
| `Values.LowerIdempotent` | lightBnB_WebApp/server/database.js:19 | lower-casing an already lower-cased email changes nothing |
| `Values.LowerOfUpper` | lightBnB_WebApp/server/database.js:19 | the upper-cased and the original email fold to the same lower-case text |
| `Results.FirstOrNull` | lightBnB_WebApp/server/database.js:21 | a single-row getter answers `null` exactly when no row came back, and otherwise one of the rows |
| `Results.FirstOrNullIgnoresLaterRows` | lightBnB_WebApp/server/database.js:39 | the answer is the first row; rows after it never change it |
| `Results.RowsOrNull` | lightBnB_WebApp/server/database.js:79 | the reservation listing answers `null` exactly when no row came back, and never an empty list |
| `Results.RowsOrNullKeepsAllRows` | lightBnB_WebApp/server/database.js:79 | a non-`null` reservation answer is all of the rows, in order |
| `Results.FirstOrNullIsHeadOfRowsOrNull` | lightBnB_WebApp/server/database.js:58 | the single-row mapping is the head of the list mapping, and both are `null` on the same inputs |
| `Statements.ValuesTextSlots` | lightBnB_WebApp/server/database.js:175-177 | a text made of a fragment, the tuple `$1, ..., $n` and a closing fragment cites `$1 .. $n` in order |
| `Users.UserWithEmailParams` | lightBnB_WebApp/server/database.js:14-19 | the text `IN ($1, $2)` cites exactly the two values bound: an all-lower-case and an all-upper-case text, both case variants of the input email |
| `Users.UserWithIdParams` | lightBnB_WebApp/server/database.js:32-37 | the text cites exactly the one value bound, and the placeholder after `WHERE id =` is bound to the id |
| `Users.AddUserParams` | lightBnB_WebApp/server/database.js:52-56 | the text `VALUES ($1, $2, $3)` cites exactly the values bound, position i carrying the user field named by column i of `(name, email, password)` |
| `Users.UserFromValues` | lightBnB_WebApp/server/database.js:52-53 | a user decoded from a VALUES tuple through the column list takes each field from the column of its name |
| `Users.AddUserRoundTrip` | lightBnB_WebApp/server/database.js:50-56 | decoding the bound VALUES tuple through the INSERT column list yields the user that was added |
| `Users.MatchesAsWritten` | lightBnB_WebApp/server/database.js:17-19 | the written lookup selects a stored email exactly when it is the all-lower-case or the all-upper-case form of the input |
| `Users.MixedCaseEmailMissed` | lightBnB_WebApp/server/database.js:17-19 | any email holding both an upper-case and a lower-case letter, wherever they stand, is not found, even when looked up exactly as stored |
| `Users.AnnIsNotFound` | lightBnB_WebApp/server/database.js:17-19 | looking up `Ann@example.com` does not select a user stored as `Ann@example.com` |
| `Users.FoldedUserWithEmailParams` | lightBnB_WebApp/server/database.js:17-19 | the corrected lookup binds one all-lower-case value |
| `Users.FoldedMatchIsCaseInsensitive` | lightBnB_WebApp/server/database.js:17-19 | the corrected lookup matches exactly the emails equal up to case, finds every email as stored, and finds everything the written lookup finds |
| `Reservations.ReservationsParams` | lightBnB_WebApp/server/database.js:70-77 | the text cites exactly the values bound; the placeholder after `WHERE guest_id =` is bound to the guest id and the one after `LIMIT` to the row cap, 10 when `limit` is undefined |
| `PropertySearch.SearchOptions.HasOwner` | lightBnB_WebApp/server/database.js:100 | the owner filter applies only to a given owner id, and an owner id of 0 is ignored |
| `PropertySearch.SearchOptions.HasCity` | lightBnB_WebApp/server/database.js:114 | the city filter applies only to a given city, and an empty city is ignored |
| `PropertySearch.SearchOptions.HasPriceRange` | lightBnB_WebApp/server/database.js:119 | the price filter needs both bounds given; a missing or zero bound on either side switches it off |
| `PropertySearch.SearchOptions.HasMinimumRating` | lightBnB_WebApp/server/database.js:129 | the rating filter applies only to a given rating, and a rating of 0 is ignored |
| `PropertySearch.SearchParams` | lightBnB_WebApp/server/database.js:97-135 | the parameter list of a search is never empty and ends with the row cap |
| `PropertySearch.SearchClauses` | lightBnB_WebApp/server/database.js:100-139 | a search is the owner query exactly when the owner filter applies, otherwise it opens with the join; either way its last clause binds the row cap |
| `PropertySearch.CitedAppend` | lightBnB_WebApp/server/database.js:106-139 | the placeholders cited by a query text built from two parts are those of the first part followed by those of the second |
| `PropertySearch.AlignedStep` | lightBnB_WebApp/server/database.js:115-116 | pushing values and then appending a clause that cites `$len+1 ..` keeps placeholders and parameters aligned |
| `PropertySearch.SearchAligned` | lightBnB_WebApp/server/database.js:97-138 | whichever filters apply, the text cites `$1 .. $n` in order with `n` the parameter count: no placeholder is skipped, repeated or dangling |
| `PropertySearch.BuildQuery` | lightBnB_WebApp/server/database.js:93-139 | the step-by-step builder yields exactly the reference clauses and parameters, and they are aligned |
| `PropertySearch.OwnerShortCircuit` | lightBnB_WebApp/server/database.js:100-104 | with a truthy `owner_id` the query is the fixed owner query with parameters exactly `[owner_id, limit]`, whatever the other options |
| `PropertySearch.SearchParamCount` | lightBnB_WebApp/server/database.js:114-135 | without owner the parameter count is 1 + [city] + 2·[both price bounds] + [minimum rating] |
| `PropertySearch.LimitIsLast` | lightBnB_WebApp/server/database.js:135-138 | the row cap is the last parameter and the last clause cites it with the index equal to the parameter count |
| `PropertySearch.PlaceholdersBindIntended` | lightBnB_WebApp/server/database.js:115-131 | the city placeholder is bound to `"%" + city + "%"`, the price placeholders to `min*100` then `max*100`, HAVING to `minimum_rating`, LIMIT to the cap, the owner query to `owner_id` and the cap |
| `PropertySearch.OptionalClausesPresence` | lightBnB_WebApp/server/database.js:106-139 | WHERE city, AND price and HAVING each appear exactly when their option is truthy (price: both bounds) and never on the owner path; the join comes first and GROUP BY is present |
| `PropertySearch.SingleBoundIgnored` | lightBnB_WebApp/server/database.js:119-122 | a single price bound adds no clause and no parameter: the query equals that of the search without price bounds |
| `PropertySearch.ClausesInQueryOrder` | lightBnB_WebApp/server/database.js:106-139 | clauses appear in the order join, WHERE city, AND price, GROUP BY, HAVING, ORDER BY / LIMIT, each kind at most once |
| `PropertySearch.PriceClauseFollowsJoin` | lightBnB_WebApp/server/database.js:106-122 | without a city the price clause directly follows the join and still begins with AND, citing `$1` and `$2` |
| `PropertyInsert.ColumnIndex` | lightBnB_WebApp/server/database.js:175 | each column's index is its position in the INSERT column list |
| `PropertyInsert.ColumnsListedOnce` | lightBnB_WebApp/server/database.js:175-177 | the column list names each column exactly once, and the text cites one placeholder `$1 .. $14` per column |
| `PropertyInsert.AddPropertyParams` | lightBnB_WebApp/server/database.js:175-195 | one value per column, position i carrying the property field named by column i of the column list |
| `PropertyInsert.AddPropertyAligned` | lightBnB_WebApp/server/database.js:175-195 | the INSERT text cites exactly the fourteen values bound, each once and in order |
| `PropertyInsert.InsertFillsColumnsByName` | lightBnB_WebApp/server/database.js:175-195 | every column receives the field of its own name |
| `PropertyInsert.PropertyFromValues` | lightBnB_WebApp/server/database.js:175-177 | a property decoded from a VALUES tuple through the column list takes each field from the column of its name |
| `PropertyInsert.AddPropertyRoundTrip` | lightBnB_WebApp/server/database.js:156-195 | decoding the bound VALUES tuple through the INSERT column list yields the property that was added, price in the unit it was given in |
| `PropertyInsert.AddPropertyParamsInjective` | lightBnB_WebApp/server/database.js:180-195 | two properties binding the same values are the same property: no field is dropped |

## Findings

| source | as written | input that shows it | evidently intended | confidence | as-written member | corrected member |
|---|---|---|---|---|---|---|
| lightBnB_WebApp/server/database.js:17-19 | `WHERE email IN ($1, $2)` bound to the lower-cased and the upper-cased input only | a user stored as `Ann@example.com` (as `addUser` stores it, unchanged), looked up as `Ann@example.com`: the bound values are `ann@example.com` and `ANN@EXAMPLE.COM`, neither equal | a case-insensitive match that folds both sides (`lower(email) = $1` bound to the lower-cased input) | medium, not executed; assumes the `users.email` column compares text exactly (the schema is not part of this model) | `Users.MixedCaseEmailMissed` | `Users.FoldedMatchIsCaseInsensitive` |

## Left out

- Connection pool, its hard-coded configuration and the `connect` logging callback (`lightBnB_WebApp/server/db/index.js`): a thin wrapper over the `pg` library.
- Executing statements, promise chaining, and the `.catch(err => console.log(...))` handlers that make a failed call resolve to `undefined`. These are I/O and asynchronous plumbing. The result mappings take the returned rows as a parameter. The owner path of `getAllProperties` (line 103) has no such handler, so its errors reject the promise instead; that difference is not modelled either.
- What the database does with a statement: LIKE, the join, `avg`, HAVING and ORDER BY semantics. The model stops at the clauses and their bound values. The finding above relies only on exact text equality in `IN`.
- The exact whitespace of the SQL. The fixed statements keep their words with line breaks and indentation folded to single spaces. The search's clauses carry only the placeholders they cite; each clause's text is given in its doc comment.
- The rows that `RETURNING *` gives back (lines 54, 177). They are keyed by column name and include the generated `id`, which the database assigns. The round-trip lemmas decode the bound VALUES tuple instead, which is what those rows store in the inserted columns.
- `getAllProperties` and `addProperty` return `result.rows` unchanged (lines 144, 199). That is the identity, so no member models it.
- The unused JSON fixture `require`s (lines 2-3).
- Unicode case mapping: `Values.Lower` and `Values.Upper` map ASCII letters only.
- JavaScript numbers. Owner ids, prices, ratings and the row cap are integers, so `* 100` is exact. Fractional ratings, NaN, and options that arrive as strings are not modelled. In particular, a string `"0"` would be truthy and `"50" * 100` would coerce.
- Options other than the five the search reads. An explicit `null` limit is also not modelled: it is not `undefined`, so it would bypass the default.
