# Collection-point finder: selection and criteria logic of the mobile client

This project models, in Dafny, the client-side logic of the waste-collection-point
finder's mobile app:

- **Points screen** (`points.dfy`, module `Points`): the category strip and the point
  query. Tapping a category toggles its id in `selectedItems`. An id that is not yet
  selected is appended at the end. An id that is already selected is filtered out,
  every occurrence of it. Each new selection issues a `points` request whose criteria
  are the route's `city` and `uf` and the selection. A category is highlighted exactly
  when its id is selected. The pure operations (`FindIndex`, `Without`, `Includes`,
  `Toggle`, `Criteria`, `Highlights`) model the JavaScript array built-ins and
  expressions the screen uses. The class `PointsScreen` holds the state fields the
  screen replaces through its setters.
- **Home screen** (`home.dfy`, module `Home`): the state (`uf`) and city pickers and
  the "Entrar" button. The picker items are built from the IBGE responses with
  label = value. The city request is skipped while no state is chosen. The button
  checks the state first, then the city. It either alerts with the message for the
  first missing choice or navigates to `Points` with exactly `{uf, city}`. The class
  `HomeScreen` holds `uf`, `ufInitials`, `city` and `citys`.

Network responses are parameters (sequences of response records). Requests and
navigation are results (`Fetch`, `PointsQuery`, `Outcome`). A picker's value is a
`Nullable` string, because the placeholder entry reports `null`. `Falsy` is
JavaScript's `!v` on such a value: `null` and `''` are both falsy.

Some behaviour follows from the code as written:

- Tapping a selected category twice moves it to the end of the selection
  (`ToggleTwiceSelected`).
- Choosing another state keeps the previously chosen city (`HomeScreen.HandleUfSelected`).
  So navigation can pair the new state with a city of the old one.
- The city effect depends on `[uf]`, so it runs only when the chosen value changes.
  Choosing the same state again issues no request.

## Model

| member | source | states |
|---|---|---|
| `Points.FindIndex` | mobile/src/pages/Points/index.tsx:97 | the result is -1 exactly when the id is absent; otherwise it is the first position holding the id |
| `Points.Without` | mobile/src/pages/Points/index.tsx:99 | the filtered selection has no occurrence of the id, keeps every other id, and keeps each other id's count (multiset with the id's count set to 0) |
| `Points.Includes` | mobile/src/pages/Points/index.tsx:165 | `includes` is true exactly when the id is in the selection |
| `Points.Toggle` | mobile/src/pages/Points/index.tsx:95-104 | only the toggled id's membership flips and every other id keeps its membership; an absent id is appended at the end; a present id is removed with all its occurrences |
| `Points.Criteria` | mobile/src/pages/Points/index.tsx:56-61 | the points request carries the route's `uf` and `city` unchanged, and its `items` is the current selection itself, in the same order and with the same length |
| `Points.Highlights` | mobile/src/pages/Points/index.tsx:160-166 | one flag per rendered category; the flag is set exactly when that category's id is selected |
| `Points.WithoutAppend` | mobile/src/pages/Points/index.tsx:99 | filtering distributes over concatenation, so it works position by position |
| `Points.WithoutAbsent` | mobile/src/pages/Points/index.tsx:99 | filtering out an id that does not occur leaves the selection unchanged |
| `Points.WithoutIsSubsequence` | mobile/src/pages/Points/index.tsx:99 | the filtered selection is a subsequence of the old one, so the remaining ids keep their relative order |
| `Points.ToggleRemovalKeepsOrder` | mobile/src/pages/Points/index.tsx:97-100 | deselecting keeps the other selected ids in their relative order |
| `Points.ToggleNoDuplicates` | mobile/src/pages/Points/index.tsx:97-103 | a selection without duplicates has none after a toggle |
| `Points.ToggleTwice` | mobile/src/pages/Points/index.tsx:97-103 | toggling an unselected id twice restores the original selection |
| `Points.ToggleTwiceSelected` | mobile/src/pages/Points/index.tsx:97-103 | toggling a selected id twice yields the other ids in order followed by that id |
| `Points.ToggleTwiceReorders` | mobile/src/pages/Points/index.tsx:97-103 | with [1, 2] selected, tapping 1 twice yields [2, 1], so the round trip does not restore the selection's order |
| `Points.TapsParity` | mobile/src/pages/Points/index.tsx:95-104 | after any sequence of taps from the empty selection, the selection has no duplicates and holds exactly the ids tapped an odd number of times |
| `Points.PointsScreen.constructor` | mobile/src/pages/Points/index.tsx:35-43 | the screen starts with no categories and an empty selection, so the first points request filters only by the route's `uf` and `city` |
| `Points.PointsScreen.ReceiveItems` | mobile/src/pages/Points/index.tsx:48-49 | the `items` response replaces the category list and leaves the selection alone |
| `Points.PointsScreen.HandleSelectItem` | mobile/src/pages/Points/index.tsx:95-104 | the selection becomes its toggle, the category list is unchanged, no duplicates appear, and the request issued carries the new selection with the route's `uf` and `city` |
| `Points.PointsScreen.Highlighted` | mobile/src/pages/Points/index.tsx:160-166 | the rendered flags are the `Highlights` of the current categories and selection: one per category, set exactly when that id is in `selectedItems` |
| `Home.Siglas` | mobile/src/pages/Home/index.tsx:44 | the list of state codes has the response's length and order |
| `Home.ToPickerItems` | mobile/src/pages/Home/index.tsx:45-50 | one picker item per code, in order, with label and value both equal to the code |
| `Home.UfPickerItems` | mobile/src/pages/Home/index.tsx:44-50 | the state picker has the response's length and order, and each entry has label = value = `sigla` |
| `Home.CityPickerItems` | mobile/src/pages/Home/index.tsx:63-68 | the city picker has the response's length and order, and each entry has label = value = `nome` |
| `Home.UfPickerValues` | mobile/src/pages/Home/index.tsx:44-50 | the values the state picker can report are exactly the response's codes, in order |
| `Home.CityPickerValues` | mobile/src/pages/Home/index.tsx:63-68 | the values the city picker can report are exactly the response's city names (`Nomes`), in order |
| `Home.CitiesUrl` | mobile/src/pages/Home/index.tsx:61 | the cities URL is the IBGE states URL, a `/`, the state code itself and `/municipios`, in that order |
| `Home.CitiesUrlInjective` | mobile/src/pages/Home/index.tsx:61 | the cities URL determines the state it asks about |
| `Home.CityEffect` | mobile/src/pages/Home/index.tsx:56-61 | no cities request is issued while `uf` is falsy; otherwise the request is for that state's cities URL |
| `Home.NavigationOutcome` | mobile/src/pages/Home/index.tsx:79-94 | it navigates exactly when both choices are non-empty, to `Points` with params exactly `{uf, city}`; an empty state alerts 'Selecione um estado' whatever the city is; a chosen state with an empty city alerts 'Selecione uma cidade' |
| `Home.FirstPointsQuery` | mobile/src/pages/Home/index.tsx:90-93 | after navigation, the Points screen's first request filters by the chosen, non-empty state and city |
| `Home.HomeScreen.constructor` | mobile/src/pages/Home/index.tsx:36-39 | both choices start as `''` and both pickers start empty, so the mount run of the city effect issues no request |
| `Home.HomeScreen.ReceiveUfs` | mobile/src/pages/Home/index.tsx:42-52 | the states response replaces the state picker's items and changes nothing else |
| `Home.HomeScreen.HandleUfSelected` | mobile/src/pages/Home/index.tsx:96-98 | stores the chosen state; a cities request is issued only when the value changed and is not falsy; the city and both picker lists are kept |
| `Home.HomeScreen.ReceiveCitys` | mobile/src/pages/Home/index.tsx:61-70 | the cities response replaces the city picker's items and changes nothing else |
| `Home.HomeScreen.HandleCitySelected` | mobile/src/pages/Home/index.tsx:100-102 | stores the chosen city and changes nothing else |
| `Home.HomeScreen.HandleNavigationToPoints` | mobile/src/pages/Home/index.tsx:79-94 | on the current choices, the outcome is `NavigationOutcome`: navigation to `Points` exactly when both are non-empty, with params `{uf, city}`; otherwise an 'Opss...' alert naming the first missing choice |

## Left out

- The server's point query and registration (the controllers imported at server/src/routes.ts:2-3). Their source is not part of this model.
- Routing, upload handling and request-body validation in server/src/routes.ts. These are thin configurations of Express, multer and celebrate/Joi. Joi caps `uf` at two characters (`.max(2)`) rather than requiring exactly two.
- Database configuration (server/knexfile.ts, server/src/database/connection.ts).
- Network I/O: the `items`, `points` and IBGE requests and their error alerts. Responses are parameters, and requests are returned values. Out-of-order responses (a stale cities response arriving after a newer one) are not modelled.
- The `points` response and its map markers (mobile/src/pages/Points/index.tsx:63, 130-146), and `handleNavigationDetail`. These are presentation and navigation only.
- Geolocation permission and position, window dimensions and the map-region gating on `initialPosition[0] !== 0`. These are device I/O and floating-point coordinates.
- React rendering, styles, fonts and back navigation. These are presentation only.
- Category ids are JavaScript numbers. They are modelled as integers: `===` on the integral ids the server assigns behaves the same way, and NaN never occurs as an id.
