# Hotel booking test suite: the logic under the page objects

This project models the deterministic layer of an end-to-end test suite for a hotel booking
site. The suite drives a browser through page objects and calls a room REST API. Below those
browser and HTTP calls sits a small amount of logic whose behaviour can be stated, and that is
what the model covers:

- the room feature registry: six feature names, each bound to one checkbox id;
- the feature checkbox workflows of the admin pages:
  - creating a room checks the boxes of the requested features;
  - editing a room unchecks all six boxes, then checks the requested ones;
- the text-to-value getters of an admin room row: accessibility, price, and the `""` defaults;
- the find-first rules: `findRoomByName` over the API's room list, and `selectRoom` over the
  client's room cards;
- the success conditions of `createRoom` in the API service, against an abstract backend list;
- the random future date generator: calendar day addition and `M/D/YYYY` formatting;
- the configuration defaults read from the environment.

Each page is modelled as an abstract form state. The state holds the field values, the set of
checked checkbox ids, and the ordered log of form actions (`FormStep`). The two admin pages are
classes whose methods update that state with the same loops the source runs. Row and card
listings are sequences of cell texts, and a component is the index of the row or card it wraps.
The getters are functions of the row's cells, so calling one twice gives the same result. The
clock reading, today's civil date and the environment map are parameters, so the date generator
and the configuration are functions of them.

Modules follow the source files:

| module | file |
|---|---|
| `Features` | constants/features.ts |
| `FeatureCheckboxes` | the checkbox lookup and loops the two admin pages share |
| `AdminRooms` | pages/admin/AdminRoomsPage.ts |
| `AdminEditRoom` | pages/admin/AdminEditRoomPage.ts |
| `RoomRow` | components/admin/RoomRowComponent.ts |
| `RoomApi`, `Search` | services/RoomApiService.ts |
| `DateRandom` | utillities/dateRandorn.ts |
| `Rooms` | components/client/RoomsComponent.ts, with `RoomComponent`'s name getter |
| `Env` | config/env.ts |
| `JsText`, `Wrappers` | JavaScript's `parseInt`, `toString` and the or-fallback on text; Option and Result |

The model follows the code, including where it differs from its own comments, with one
exception recorded under "## Findings": the admin pages' checkbox lookup also
finds the members every JavaScript object inherits, and the page models use the lookup the code
declares instead.

- A room row's price getter falls back to 0 only for absent or empty text. Text with no digit
  after its leading white space and optional sign gives NaN, not 0
  (`RoomRow.PriceWithoutDigitsIsNaN`).
- The registry file calls itself the "Central source of truth for room feature checkbox IDs"
  (constants/features.ts:3). Yet each admin page keeps a private copy of the mapping, and a
  name the copy does not hold is skipped silently, unless it is the name of an inherited member
  such as "toString" (see "## Findings"). The create page's copy also names the Refreshments box
  `refreshCheckbox`, while the registry and the edit page use `refreshmentsCheckbox`
  (`AdminRooms.CheckboxIdVersusRegistry`).
- The date generator's comments promise MM/DD/YYYY (utillities/dateRandorn.ts:9 and 22). The code writes month and day without
  zero padding (`DateRandom.FormatUnpadded`).

## Model

| member | source | states |
|---|---|---|
| `Features.FromKey` | constants/features.ts:14 | a string is read as a feature name only when it is that feature's registry key |
| `Features.KeyRoundTrip` | constants/features.ts:5-14 | every feature's key reads back as that feature, so lookup is total over `FeatureName` |
| `Features.AllFeaturesComplete` | constants/features.ts:19 | `ALL_FEATURES` has six entries, holds every feature, and holds each one once |
| `Features.CheckboxIdInjective` | constants/features.ts:5-12 | no two features share a checkbox id |
| `Features.KeyInjective` | constants/features.ts:5-12 | no two features share a key |
| `Features.Key` | constants/features.ts:5-14 | the registry key of each feature name (stated by `Features.KeyRoundTrip` and `Features.KeyInjective`) |
| `Features.CheckboxId` | constants/features.ts:5-12 | `FEATURE_CHECKBOX_IDS`, the checkbox id bound to each feature (stated by `Features.CheckboxIdInjective` and `AdminEditRoom.CheckboxIdMatchesRegistry`) |
| `JsText.TextOr` | components/admin/RoomRowComponent.ts:19 | the text itself when it is present and not empty, and the fallback exactly when it is absent or empty |
| `JsText.TrimStart` | components/admin/RoomRowComponent.ts:47 | the text `parseInt` reads starts after a run of white space and does not start with white space |
| `JsText.DigitPrefix` | components/admin/RoomRowComponent.ts:47 | the digits `parseInt` reads are the longest run of decimal digits at the start |
| `JsText.NatToDecimal` | pages/admin/AdminRoomsPage.ts:60 | a number's decimal text is non-empty and all digits, has no leading zero, and is one character exactly below 10 |
| `JsText.IntToDecimal` | pages/admin/AdminEditRoomPage.ts:39 | an integer's text is digits with a leading minus exactly for negatives |
| `JsText.ParseIntLeadingDigits` | components/admin/RoomRowComponent.ts:47 | `parseInt` takes the value of the leading digits and ignores what follows them |
| `JsText.ParseIntNoLeadingDigit` | components/admin/RoomRowComponent.ts:47 | text that starts with something other than a digit, a sign or white space parses to NaN |
| `JsText.ParseIntNegative` | config/env.ts:9 | a minus sign before digits negates their value |
| `JsText.ParseIntRoundTrip` | pages/admin/AdminRoomsPage.ts:60 | `parseInt` reads back exactly the integer `toString` wrote |
| `JsText.ParseIntSignedDigits` | components/admin/RoomRowComponent.ts:47 | after any leading white space and an optional sign, `parseInt` takes the value of the leading digits, negated after a minus, and ignores what follows them |
| `JsText.ParseIntNoDigits` | components/admin/RoomRowComponent.ts:47 | text with no digit after its leading white space and optional sign parses to NaN: empty or blank text, a lone sign, a sign before a non-digit |
| `JsText.ParseInt` | components/admin/RoomRowComponent.ts:47 | `parseInt(text, 10)`: white space skipped, an optional sign, then the leading digits, NaN when there are none (stated by `JsText.ParseIntSignedDigits` and `JsText.ParseIntNoDigits`) |
| `JsText.NumberToString` | pages/admin/AdminEditRoomPage.ts:39 | `toString` of a number `parseInt` can yield: the integer's decimal text, or "NaN" |
| `JsText.NumberRoundTrip` | pages/admin/AdminEditRoomPage.ts:39 | `parseInt` reads back what `toString` wrote for every such number, NaN included |
| `JsText.BoolToString` | pages/admin/AdminRoomsPage.ts:59 | `accessible.toString()` is "true" exactly when the flag is true, so the row getter reads it back (`RoomRow.AccessibleReadsFlag`) |
| `FeatureCheckboxes.LookupAsWritten` | pages/admin/AdminRoomsPage.ts:85 | `map[feature] \|\| null` on an object literal: the table's non-empty id, an inherited member for a prototype name, null otherwise (stated by `FeatureCheckboxes.PrototypeNameIsNotNull` and `FeatureCheckboxes.LookupYieldsTableIds`) |
| `FeatureCheckboxes.Lookup` | pages/admin/AdminRoomsPage.ts:76-86 | the `string \| null` lookup `getCheckboxId` declares: a table id or nothing (stated by `FeatureCheckboxes.LookupYieldsTableIds`) |
| `FeatureCheckboxes.LoopSteps` | pages/admin/AdminRoomsPage.ts:63-68 | the check or uncheck steps a feature loop takes, in list order (stated by `FeatureCheckboxes.LoopStepsTouchMappedIds`, `FeatureCheckboxes.LoopStepsOverConcat` and `FeatureCheckboxes.SkippedName`) |
| `FeatureCheckboxes.MappedIds` | pages/admin/AdminEditRoomPage.ts:57-62 | the boxes a feature loop touches (stated by `FeatureCheckboxes.MappedIdsMembers` and `FeatureCheckboxes.MappedIdsInTable`) |
| `FeatureCheckboxes.PrototypeNameIsNotNull` | pages/admin/AdminRoomsPage.ts:85 | as written, looking up an inherited member name such as "toString" finds that member, which is not null, where the intended lookup finds nothing |
| `FeatureCheckboxes.LookupYieldsTableIds` | pages/admin/AdminEditRoomPage.ts:82 | the intended lookup returns only ids of the page's table, and it agrees with the written lookup on every name except the inherited member names |
| `FeatureCheckboxes.MappedIdsMembers` | pages/admin/AdminRoomsPage.ts:63-68 | a feature loop touches an id exactly when some requested name looks up to it |
| `FeatureCheckboxes.MappedIdsInTable` | pages/admin/AdminEditRoomPage.ts:57-62 | every id a feature loop touches is an id of the page's table |
| `FeatureCheckboxes.LoopStepsTouchMappedIds` | pages/admin/AdminRoomsPage.ts:63-68 | a check loop only checks and an uncheck loop only unchecks, and only boxes of requested features |
| `FeatureCheckboxes.RequestedIdTouched` | pages/admin/AdminRoomsPage.ts:63-68 | the box of every requested name that has an id is touched by the loop |
| `FeatureCheckboxes.LoopStepsOverConcat` | pages/admin/AdminEditRoomPage.ts:57-62 | looping over two lists one after the other takes the steps of the first, then those of the second |
| `FeatureCheckboxes.MappedIdsOverConcat` | pages/admin/AdminEditRoomPage.ts:57-62 | looping over two lists one after the other touches the boxes of both |
| `FeatureCheckboxes.SkippedName` | pages/admin/AdminRoomsPage.ts:63-68 | a name without an id, wherever it stands in the list, adds no step and touches no box |
| `AdminRooms.GetCheckboxId` | pages/admin/AdminRoomsPage.ts:76-86 | the create page's `getCheckboxId`, over its private table; `AdminRooms.CheckboxIdDefinedOnFeatureNames` and `AdminRooms.CheckboxIdVersusRegistry` state what it yields |
| `AdminRooms.CheckboxIdDefinedOnFeatureNames` | pages/admin/AdminRoomsPage.ts:76-86 | the create page has an id for exactly the six feature names and none for any other name |
| `AdminRooms.CheckboxIdVersusRegistry` | pages/admin/AdminRoomsPage.ts:81 | the create page agrees with the registry on five features and maps Refreshments to `refreshCheckbox`, which differs from the registry |
| `AdminRooms.GetRoomRows` | pages/admin/AdminRoomsPage.ts:24-31 | there is one row component per listing row, and the i-th component reads row i |
| `AdminRooms.PriceFieldFor888` | pages/admin/AdminRoomsPage.ts:60 | the price 888 is written to the form as `"888"` |
| `AdminRooms.AdminRoomsPage.constructor` | pages/admin/AdminRoomsPage.ts:10-12 | a fresh page has an empty form with the given boxes checked and no steps taken |
| `AdminRooms.AdminRoomsPage.CreateRoom` | pages/admin/AdminRoomsPage.ts:50-71 | fields hold the name, the type, "true"/"false" and the price's `toString` text (digits or "NaN"); the checked set gains the requested features' boxes and loses none; steps run name, type, accessible, price, the checks, then Create last |
| `AdminRooms.AdminRoomsPage.CheckFeatureBox` | pages/admin/AdminRoomsPage.ts:64-67 | one loop iteration: the feature's box, if it has one, is added to the checked set and its check is logged; nothing else changes |
| `AdminRooms.AdminRoomsPage.CheckBox` | pages/admin/AdminRoomsPage.ts:66 | checking a box adds it to the checked set and logs the check; nothing else changes |
| `AdminEditRoom.GetCheckboxId` | pages/admin/AdminEditRoomPage.ts:73-83 | the edit page's `getCheckboxId`, over its private table; `AdminEditRoom.CheckboxIdDefinedOnFeatureNames` and `AdminEditRoom.CheckboxIdMatchesRegistry` state what it yields |
| `AdminEditRoom.EditPageIds` | pages/admin/AdminEditRoomPage.ts:74-81 | the edit page's six ids by feature name, and that they are all of its ids |
| `AdminEditRoom.CheckboxIdDefinedOnFeatureNames` | pages/admin/AdminEditRoomPage.ts:73-83 | the edit page has an id for exactly the six feature names and none for any other name |
| `AdminEditRoom.CheckboxIdMatchesRegistry` | pages/admin/AdminEditRoomPage.ts:78 | the edit page's id for every feature, Refreshments included, is the registry's |
| `AdminEditRoom.UncheckOrderIsAllFeatures` | pages/admin/AdminEditRoomPage.ts:42-49 | the list the edit page unchecks is the registry's key list, in order |
| `AdminEditRoom.UncheckPassCoversAllBoxes` | pages/admin/AdminEditRoomPage.ts:50-55 | the uncheck pass unchecks all six boxes, one per feature, in registry order |
| `AdminEditRoom.EditedChecks` | pages/admin/AdminEditRoomPage.ts:41-62 | the boxes checked after `editRoom`'s uncheck and check loops (stated by `AdminEditRoom.EditedChecksExact`, `AdminEditRoom.EditIdempotent` and `AdminEditRoom.UnmappedNameIgnored`) |
| `AdminEditRoom.EditedChecksExact` | pages/admin/AdminEditRoomPage.ts:41-62 | after editing, whatever was checked before, exactly the requested features' boxes are checked |
| `AdminEditRoom.EditIdempotent` | pages/admin/AdminEditRoomPage.ts:39-62 | editing twice with the same features leaves the same boxes checked as editing once |
| `AdminEditRoom.UnmappedNameIgnored` | pages/admin/AdminEditRoomPage.ts:57-62 | a requested name without an id, wherever it stands in the list, adds no step and changes no box |
| `AdminEditRoom.AdminEditRoomPage.constructor` | pages/admin/AdminEditRoomPage.ts:9-11 | a fresh page is out of edit mode, with the given price and boxes, and no steps taken |
| `AdminEditRoom.AdminEditRoomPage.ClickEditButton` | pages/admin/AdminEditRoomPage.ts:23-25 | the page enters edit mode, the Edit click is logged, and the price and boxes are unchanged |
| `AdminEditRoom.AdminEditRoomPage.SetBox` | pages/admin/AdminEditRoomPage.ts:53 | checking adds the box to the checked set and unchecking removes it, and the action is logged; nothing else changes |
| `AdminEditRoom.AdminEditRoomPage.SetFeatureBox` | pages/admin/AdminEditRoomPage.ts:58-61 | one loop iteration: the feature's box, if it has one, is checked or unchecked and logged; nothing else changes |
| `AdminEditRoom.AdminEditRoomPage.SetFeatureBoxes` | pages/admin/AdminEditRoomPage.ts:50-62 | a feature loop adds or removes exactly the looked-up ids and logs one step per id, in order |
| `AdminEditRoom.AdminEditRoomPage.EditRoom` | pages/admin/AdminEditRoomPage.ts:32-68 | Edit is clicked first; the price holds the new price's `toString` text (digits or "NaN"); all six boxes are unchecked before any check; the checked set is the requested features' boxes; Update is clicked last |
| `RoomRow.GetRoomName` | components/admin/RoomRowComponent.ts:17-21 | the name cell's text, or `""` (stated by `RoomRow.TextGettersDefaultToEmpty`) |
| `RoomRow.GetType` | components/admin/RoomRowComponent.ts:26-28 | the type cell's text, or `""` (stated by `RoomRow.TextGettersDefaultToEmpty`) |
| `RoomRow.GetAccessible` | components/admin/RoomRowComponent.ts:33-38 | whether the accessible cell's text is exactly "true" (stated by `RoomRow.AccessibleReadsFlag`) |
| `RoomRow.GetPrice` | components/admin/RoomRowComponent.ts:43-48 | `parseInt` of the price cell's text, or of "0" (stated by the `RoomRow.Price` lemmas) |
| `RoomRow.GetDetails` | components/admin/RoomRowComponent.ts:53-57 | the details cell's text, or `""` (stated by `RoomRow.TextGettersDefaultToEmpty`) |
| `RoomRow.TextGettersDefaultToEmpty` | components/admin/RoomRowComponent.ts:17-57 | name, type and details are `""` for a cell without text, and the cell text otherwise |
| `RoomRow.AccessibleReadsFlag` | components/admin/RoomRowComponent.ts:33-38 | the flag written as "true"/"false" reads back as itself, and any text but exactly "true", or none, reads as false |
| `RoomRow.PriceDefaultsToZero` | components/admin/RoomRowComponent.ts:43-48 | a missing or empty price cell reads as 0 |
| `RoomRow.PriceReadsLeadingDigits` | components/admin/RoomRowComponent.ts:47 | after any leading white space and an optional sign, the price is the value of the leading digits, negated after a minus, and later characters are ignored |
| `RoomRow.PriceWithoutDigitsIsNaN` | components/admin/RoomRowComponent.ts:47 | non-empty text with no digit after its leading white space and optional sign reads as NaN, not 0 |
| `RoomRow.PriceRoundTrip` | components/admin/RoomRowComponent.ts:47 | a price cell holding the number's decimal text reads back as that number |
| `Search.FirstIndex` | services/RoomApiService.ts:112 | there is no index exactly when no entry has the name; otherwise the index holds the name and no earlier entry does |
| `RoomApi.CreateRoom` | services/RoomApiService.ts:40-50 | creation succeeds exactly when the status is 200 and the success flag is true, and it then returns the body's room; a status other than 200 fails first |
| `RoomApi.FindRoomByName` | services/RoomApiService.ts:110-113 | the result is absent exactly when no room has the name; otherwise it has the name and is the first such room in list order |
| `RoomApi.CreatedRoomIsFound` | tests/api/api.spec.ts:13-27 | a room created under a fresh name comes back with an id and is then found by name with the type, price, accessibility and features it was created with |
| `RoomApi.CreateKeepsOtherSearches` | services/RoomApiService.ts:110-113 | creating a room does not change what a search for any other name finds |
| `Rooms.GetName` | components/client/RoomComponent.ts:17-22 | the card title's text, or `""` when the card has none (stated by `Rooms.UntitledCardMatchesEmptyName`) |
| `Rooms.GetRoomComponents` | components/client/RoomsComponent.ts:18-27 | there is one component per card, and the i-th wraps card i |
| `Rooms.SelectRoom` | components/client/RoomsComponent.ts:33-47 | names are read in order up to the first card titled exactly the room name, which alone is clicked; with no match every name is read and nothing is clicked |
| `Rooms.SelectionClicksAtMostOnce` | components/client/RoomsComponent.ts:37-46 | at most one card is clicked, it is clicked last, its name equals the room name, and every earlier card is only read |
| `Rooms.UntitledCardMatchesEmptyName` | components/client/RoomComponent.ts:17-22 | a card without title text is named `""`, so selecting `""` finds a card named `""` at or before any untitled one |
| `DateRandom.NextDay` | utillities/dateRandorn.ts:19-20 | the next day is a valid date whose day number is one more, across month and year ends |
| `DateRandom.PrevDay` | utillities/dateRandorn.ts:17-18 | the previous day is a valid date whose day number is one less |
| `DateRandom.AddDays` | utillities/dateRandorn.ts:17-18 | moving by n calendar days gives a valid date n day numbers later, with month and year rollover |
| `DateRandom.JsRemainder` | utillities/dateRandorn.ts:16 | the remainder takes the sign of the dividend, is smaller than the divisor in magnitude, and is what is left after the quotient truncated toward zero, which makes it unique |
| `DateRandom.Offset` | utillities/dateRandorn.ts:16 | the offset lies in 1..100 for a clock at or after the epoch, and in -98..1 before it |
| `DateRandom.FutureDates` | utillities/dateRandorn.ts:15-20 | check-in is the offset in days after today, and check-out is one day after check-in |
| `DateRandom.FutureDatesAreLater` | utillities/dateRandorn.ts:16-20 | check-in is 1 to 100 days after today, and check-out is the calendar day after check-in |
| `DateRandom.Format` | utillities/dateRandorn.ts:23-28 | month, day and year as decimal numerals joined by slashes (stated by `DateRandom.FormatRoundTrip` and `DateRandom.FormatUnpadded`) |
| `DateRandom.RandomFutureDates` | utillities/dateRandorn.ts:11-31 | `getRandomFutureDates`: the formatted check-in and check-out dates (stated by `DateRandom.RandomFutureDatesReadBack`) |
| `DateRandom.RandomFutureDatesReadBack` | utillities/dateRandorn.ts:11-31 | both texts read back as valid dates: check-in `Offset(now)` days after today, check-out one day after check-in |
| `DateRandom.FormatRoundTrip` | utillities/dateRandorn.ts:23-28 | the M/D/YYYY text reads back as the same date, so different dates give different texts |
| `DateRandom.FormatUnpadded` | utillities/dateRandorn.ts:23-28 | month and day have no leading zero, and values below 10 take one character |
| `DateRandom.RolloverExamples` | utillities/dateRandorn.ts:17-20 | a day is added across 28 and 29 February of a leap year and across a year end |
| `DateRandom.FormatExample` | utillities/dateRandorn.ts:23-28 | 5 March 2026 is written "3/5/2026" |
| `Env.BaseUrl` | config/env.ts:6 | `BASE_URL` or its localhost default (stated by `Env.UrlDefaults`) |
| `Env.AdminUrl` | config/env.ts:7 | `ADMIN_URL` or its localhost default (stated by `Env.UrlDefaults`) |
| `Env.ApiUrl` | config/env.ts:8 | `API_URL` or its localhost default (stated by `Env.UrlDefaults`) |
| `Env.Workers` | config/env.ts:9 | `WORKERS` or "1", read by `parseInt` (stated by `Env.WorkersDefault`) |
| `Env.Headless` | config/env.ts:10-11 | whether headless mode is on (stated by `Env.HeadlessCases`) |
| `Env.AdminUsername` | config/env.ts:12 | `ADMIN_USERNAME` or `""` (stated by `Env.CredentialsDefault`) |
| `Env.AdminPassword` | config/env.ts:13 | `ADMIN_PASSWORD` or `""` (stated by `Env.CredentialsDefault`) |
| `Env.DefaultExport` | config/env.ts:15-23 | the default export: the seven named exports in one record |
| `Env.UnsetEnvironmentExport` | config/env.ts:6-23 | with no variable set, the export holds the three localhost URLs, one worker, headless off and empty credentials |
| `Env.UrlDefaults` | config/env.ts:6-8 | each URL takes its localhost default when unset or empty, takes the variable's value otherwise, and is never empty |
| `Env.HeadlessCases` | config/env.ts:10-11 | headless is false when the variable is unset, and otherwise true exactly for "true" |
| `Env.WorkersDefault` | config/env.ts:9 | the worker count is 1 when the variable is unset or empty, and otherwise the variable read by `parseInt` |
| `Env.CredentialsDefault` | config/env.ts:12-13 | the admin user name and password are `""` unless set |

## Left out

- Every browser call: locator construction, filling, selecting, checking, clicking, waiting,
  navigation and request interception. A form state and an action log stand in for them.
- AdminRooms.AdminRoomsPage.CreateRoom: uses the corrected lookup, so a feature name that is
  an inherited member of every object ("toString", "constructor", "__proto__" and the like)
  is skipped. The code as written hands that member to the checkbox locator, and the step
  fails there; `FeatureCheckboxes.PrototypeNameIsNotNull` models that lookup.
- AdminEditRoom.AdminEditRoomPage.EditRoom: uses the corrected lookup, so an inherited member
  name in `newFeatures` is skipped where the code as written hands it to the checkbox locator
  and fails.
- AdminRooms.AdminRoomsPage.CreateRoom: checking a checkbox the form does not have would time
  out in the browser. The model records the id as checked anyway. Whether the form has
  `refreshCheckbox` or `refreshmentsCheckbox` is not known.
- AdminRooms.AdminRoomsPage.CreateRoom: selecting a room type or accessibility option the
  `select` element does not offer fails in the browser. The model stores the value.
- AdminRooms.AdminRoomsPage.CreateRoom and AdminEditRoom.AdminEditRoomPage.EditRoom: the price
  is an integer or NaN, the values `parseInt` and integer arithmetic on them yield; NaN is
  written as "NaN". A fractional or infinite JavaScript price and its `toString` text are not
  modelled.
- The navigation methods of both admin pages, `clickRoomRow`, and the row component's
  `editRoom` and `deleteRoom`. Each is a single browser call with no logic of its own.
- The HTTP transport of the room API service. This covers `getRooms`, `getRoomById`,
  `updateRoom` and `deleteRoom`, which only check the response status and return the decoded
  body, and also JSON decoding and its failures. The backend is an abstract room list that
  creation appends to.
- JavaScript numbers are modelled as unbounded integers. `parseInt` rounding of more than 15
  significant digits and the sign of negative zero are not modelled.
- JsText.ParseIntRoundTrip and JsText.NumberRoundTrip hold only below 10^21 in JavaScript:
  from there on `toString` writes exponent form (`(1e21).toString()` is "1e+21"), which
  `parseInt` reads as 1. The model writes every integer in plain decimal digits.
- The date generator takes today's civil date and the clock reading as parameters. Time of
  day, time zones, daylight-saving shifts and the JavaScript date range limit are not
  modelled. For a clock reading before the epoch, the offset can be 0 or negative. That case
  is modelled, but `DateRandom.FutureDatesAreLater` is stated only for readings at or after
  the epoch.
- The `.env` file loading, the `console.log` tracing, and the thin pages and components
  without logic: the login, home, reservation and booking pages and components, the base
  pages, the authenticated-session fixture, and the selector constants.

## Findings

| source | as written | input that shows it | evidently intended | confidence | as-written member | corrected member |
|---|---|---|---|---|---|---|
| pages/admin/AdminRoomsPage.ts:85 | the checkbox lookup reads a property of a plain object literal, so it also finds members every object inherits | the feature name "toString": the lookup yields a function, not null, so `createRoom` builds a checkbox selector from the function's text, which names no checkbox, and the step fails | an id for the six feature names and null for every other string, as the declared `string` or `null` return type says | high; not executed | `FeatureCheckboxes.PrototypeNameIsNotNull` | `FeatureCheckboxes.LookupYieldsTableIds` |
| pages/admin/AdminEditRoomPage.ts:82 | the same inherited-member lookup in the edit page | the feature name "constructor" in `newFeatures`: `editRoom` builds a checkbox selector that names no checkbox, and the step fails | an id for the six feature names and null for every other string | high; not executed | `FeatureCheckboxes.PrototypeNameIsNotNull` | `FeatureCheckboxes.LookupYieldsTableIds` |

Both page models use the corrected lookup, `FeatureCheckboxes.Lookup`.
