# Supplies ordering tool: the order state, in Dafny

This project models the in-memory order state of a single-page supplies
ordering tool and the handlers that change it. An administrator registers
requesters (`staffList`) and orderable items (`itemList`, each with a
description and an assigned requester); users enter a quantity per item
(`orders`, keyed by item name) and a free-text remark (`orderRemark`); a
confirmation tab lists what was ordered. The whole state travels in the
page's URL fragment, so loading it back means merging a decoded object over
the defaults, migrating links made by older versions (a separate
`assignments` table instead of a per-item requester) and backfilling missing
quantities.

Modules:

- `Wrappers` (`wrappers.dfy`): `Option`, for fields a decoded object may lack.
- `JsString` (`js_string.dfy`): ECMAScript `String.prototype.trim`, with the
  white-space set of the ECMAScript standard, and its properties.
- `OrderData` (`order_data.dfy`): the state as a value (`StateRecord`,
  `DefaultData`; besides the four fields of `defaultData` it carries the
  legacy `assignments` key that a load from an old link leaves in `state`), the decoded object (`DecodedRecord`, every field optional),
  the fragment (`NoHash | Garbled | Decoded`), and the load pipeline as pure
  functions: `MergeOverDefaults`, `MigrateItems`, `Backfill`, `Loaded`;
  `FirstIndex` for `findIndex`.
- `ConfirmView` (`confirm_view.dfy`): what the confirmation tab shows.
- `OrderStore` (`order_store.dfy`): the global `state` as `class OrderState`
  whose methods update its five fields in place (the four of `defaultData`
  and the leftover `assignments`), each proved against the
  functions above, and two client methods, `Scenario` and `LegacyScenario`.

Alerts and the reset confirmation are not UI here: `addStaff` and
`addOrUpdateItem` return which branch they took (`StaffOutcome`,
`ItemOutcome`), and `ResetData` takes the answer of the confirmation dialog
as a parameter. Text-field values are parameters; the requester drop-down's
value is a parameter that is "" when nothing is selected.

## Model

| member | source | states |
|---|---|---|
| `JsString.IsWhiteSpace` | script.js:236 | defines the white space `trim()` removes: the WhiteSpace and LineTerminator code points of the ECMAScript standard |
| `JsString.TrimStart` | script.js:236 | defines the removal of leading white space, one character at a time |
| `JsString.TrimEnd` | script.js:236 | defines the removal of trailing white space, one character at a time |
| `JsString.Trim` | script.js:253-254 | defines `trim()` as leading then trailing removal |
| `JsString.TrimStartSpec` | script.js:236 | removing leading white space leaves a suffix of the input; everything cut is white space; the rest does not start with white space |
| `JsString.TrimEndSpec` | script.js:236 | removing trailing white space leaves a prefix; everything cut is white space; the rest does not end with white space |
| `JsString.TrimIsCore` | script.js:253-254 | `trim()` yields a contiguous slice of the input, with only white space on either side of it, and neither end of the result is white space |
| `JsString.TrimEmptyIffBlank` | script.js:181 | `s.trim() === ''` holds exactly when every character of `s` is white space |
| `JsString.TrimIdempotent` | script.js:236 | trimming an already trimmed name changes nothing |
| `JsString.TrimFixed` | script.js:236 | a string with no white space at either end trims to itself |
| `OrderData.DefaultData` | script.js:5-10 | defines `defaultData`: no requesters, no items, no quantities, an empty remark, no `assignments` |
| `OrderData.MergeOverDefaults` | script.js:34 | defines the spread: each key of the decoded object, `assignments` included, replaces the default, each absent one keeps it |
| `OrderData.Assigned` | script.js:39 | defines the truthiness test on `assignments[item.name]`: an entry that is not "" |
| `OrderData.MigrateItem` | script.js:39-41 | defines one migration step: a falsy requester takes a truthy `assignments[name]`, anything else is kept |
| `OrderData.MigrateItems` | script.js:38-42 | defines the migration loop as that step applied to every item, in place |
| `OrderData.Migrated` | script.js:37-43 | defines that the migration runs only when the decoded object has `assignments` |
| `OrderData.Backfill` | script.js:49-51 | defines the backfill loop as a pass over the items in order, adding 0 for a name with no entry |
| `OrderData.Loaded` | script.js:27-52 | defines the state after a load: merge and migration for a decoded record, the prior state otherwise, then the backfill |
| `OrderData.Saved` | script.js:55 | defines what a save writes: every key `state` holds, so stringify then parse gives each back |
| `OrderData.FirstIndex` | script.js:262 | `findIndex` by name: -1 exactly when no item has the name, otherwise an index whose item has the name and before which none does |
| `OrderData.BackfillSpec` | script.js:49-51 | the backfill's keys are the old keys plus the item names; old entries keep their values; added entries are 0 |
| `OrderData.BackfillCovers` | script.js:49-51 | after the backfill every item name has an `orders` entry |
| `OrderData.BackfillNoop` | script.js:49-51 | when every item already has an entry the backfill leaves `orders` as it was |
| `OrderData.BackfillIdempotent` | script.js:49-51 | a second backfill changes nothing |
| `OrderData.BackfillNonNegative` | script.js:49-51 | the backfill keeps all quantities non-negative when they were |
| `OrderData.LoadedCoversItems` | script.js:27-52 | after any load, with a fragment, without one or with one that throws, every item has an `orders` entry |
| `OrderData.LoadWithoutRecordKeepsPrior` | script.js:28-47 | with no fragment, or one whose decoding throws, the prior state is kept (up to the backfill), and from the page-load defaults the result is the defaults |
| `OrderData.LoadedFromRecord` | script.js:34 | each field the decoded object has replaces the default and each absent one takes the default; item names and descriptions load unchanged; loaded quantities keep their values; only item names gain new entries, of 0; the decoded `assignments` stay in the state |
| `OrderData.LoadedMigration` | script.js:37-43 | with `assignments`, an item with a falsy requester takes a truthy `assignments[name]`, an item with a requester is never changed; without `assignments` the items load as they are |
| `OrderData.MigrateIdempotent` | script.js:37-43 | applying the migration twice is applying it once |
| `OrderData.MigrateSettledNoop` | script.js:37-43 | the migration leaves items unchanged when none has a falsy requester with a truthy entry |
| `OrderData.LoadedIsSettled` | script.js:37-43 | right after loading a record, the `assignments` kept in the state would change no item on another pass |
| `OrderData.SaveLoadRoundTrip` | script.js:27-58 | a settled state whose items all have quantities, saved and loaded back, is the same state whatever came before |
| `OrderData.LeftoverAssignmentsReapply` | script.js:34-55 | when the state holds leftover `assignments` and an item with a truthy entry has had its requester cleared, saving and loading gives the entry back, so that state does not round-trip |
| `ConfirmView.HasOrder` | script.js:193-195 | defines `count > 0` for `count = orders[name]`, false for an absent entry (`undefined > 0`) |
| `ConfirmView.OrderedLines` | script.js:192-216 | defines the lines the loop appends: one per item with a positive count, in item order |
| `ConfirmView.OrderedLinesConcat` | script.js:192-216 | the confirmation list keeps catalogue order: the list for `a + b` is the list for `a` followed by the list for `b` |
| `ConfirmView.OrderedLinesMembers` | script.js:192-195 | a line is listed exactly when its item is in the catalogue with a positive quantity, and it carries that quantity |
| `ConfirmView.OrderedLinesEmpty` | script.js:190-220 | the list is empty exactly when no item has a positive quantity |
| `ConfirmView.ShownRemark` | script.js:181-186 | the remark block is shown, with the remark as written, exactly when the remark has a non-white-space character |
| `ConfirmView.RenderConfirmScreen` | script.js:177-221 | the screen lists the ordered selection, shows the empty-list message exactly when no item has a positive quantity, and shows the remark exactly when it is not blank |
| `OrderStore.OrderState.constructor` | script.js:13 | the state starts as a copy of `defaultData` |
| `OrderStore.OrderState.ResetData` | script.js:60-67 | after a confirmed reset the state equals `defaultData`; a declined reset changes nothing |
| `OrderStore.OrderState.LoadStateFromURL` | script.js:27-52 | the new state is the prior one loaded with the fragment, as `Loaded` defines it, and every item has a quantity entry |
| `OrderStore.OrderState.MigrateRequesters` | script.js:37-43 | the migration loop leaves exactly the migrated item list and touches no other field |
| `OrderStore.OrderState.BackfillOrders` | script.js:49-51 | the backfill loop leaves exactly the backfilled `orders` and touches no other field |
| `OrderStore.OrderState.AddStaff` | script.js:234-246 | a trimmed non-empty new name is appended at the end; a listed name is reported duplicate and an empty one ignored, both without change; a duplicate-free list stays so; nothing else changes |
| `OrderStore.OrderState.AddOrUpdateItem` | script.js:248-284 | an empty trimmed name changes nothing; an existing name rewrites the first such item's description and requester only; a new name is appended with quantity 0; unique names stay unique, quantity coverage and non-negativity are kept; requesters and remark do not change |
| `OrderStore.OrderState.ChangeQuantity` | script.js:163-168 | `orders[name]` becomes the value clamped below at 0 and no other entry changes; coverage and non-negativity are kept |
| `OrderStore.OrderState.UpdateRemark` | script.js:227-232 | the remark becomes the entered text and nothing else changes |

## Left out

- Rendering and dialogs: element creation, `innerHTML`, styles, `switchTab`,
  `renderAdminStaffSelect`, `renderOrderInputs` and `updateWarningMessage`
  build DOM from the state. Their only decisions are display tests: an empty
  `staffList` or `itemList` shows a set-up warning, and a missing quantity
  shows as 0. None of them changes the state. `alert`, `confirm` and
  `prompt` become outcome values and the `confirmed` parameter.
- The token codec: `atob`/`btoa`, `escape`/`unescape`, the URI component
  functions and `JSON.parse`/`JSON.stringify` are browser built-ins. Reading
  the fragment is the input `Fragment`; `Saved` stands for stringify followed
  by parse, assumed to give every field back.
- URL and history writes (`saveStateToURL`, `replaceState`, `pushState`),
  `window.onload` and `copyToClipboard` (clipboard promise, timer): I/O.
- OrderStore.OrderState.ChangeQuantity: takes an integer; `parseInt` of a
  non-numeric input gives `NaN`, and since `NaN < 0` is false the code stores
  `NaN`, which the model cannot represent.
- OrderStore.OrderState.ResetData: assumes value semantics. In the code, when
  the decoded object lacks `staffList`, `itemList` or `orders`, the shallow
  spread makes `state` share that array or object with `defaultData`; later
  pushes then change `defaultData`, and a reset copies the changed defaults.
  The reset yields the empty defaults only when no such sharing happened.
- OrderData.LoadedFromRecord: keeps the four state fields and `assignments`.
  The spread also copies every other key of the decoded object into `state`,
  and later saves write them back; the model drops those keys, which nothing
  in the code reads.
- OrderData.SaveLoadRoundTrip: holds only for settled states. After a legacy
  load, `state` keeps `assignments` and every save writes it back, so a
  requester cleared since then returns on the next load
  (`LeftoverAssignmentsReapply`, `LegacyScenario`).
- The decoded object is assumed well-typed: a JSON value that is not an
  object, or fields of the wrong type (for instance an `itemList` that is not
  an array, which makes the backfill throw outside the `try`), are not
  modelled.
- Strings: a Dafny `string` is a sequence of Unicode scalar values, a
  JavaScript string a sequence of UTF-16 code units. On well-formed text
  `trim`, `===` and `includes` agree in both, since every white-space code
  point lies in the Basic Multilingual Plane and no surrogate is white space;
  a string holding a lone surrogate cannot be represented.
- `desc` and `requester` are only ever tested for truthiness, so the model
  writes "" for both an absent and an empty field.
- OrderData.BackfillSpec: `orders` is a plain map here; in the code it is a
  JavaScript object, so an item named after an `Object.prototype` member
  (`constructor`, `toString`) already reads as defined and gets no entry.
- OrderData.LoadedMigration: `assignments` is a plain map here; in the code
  `assignments["constructor"]` is a truthy function, so an item of that name
  gets a function as its requester, where the model's `Assigned` is false.
- OrderStore.OrderState.ChangeQuantity: a write to `orders["__proto__"]`
  stores no entry in the code, where the model stores one.
- OrderStore.OrderState.AddOrUpdateItem: likewise, a new item named
  `__proto__` gets no `orders` entry in the code, where the model adds 0.
- Quantities loaded from a link are not clamped, so non-negativity is kept
  by the handlers (`NonNegative`) but not established by a load; the
  migration needs a truthy `assignments[name]`, not just an entry; an empty
  requester name is ignored without any message unless "" is already listed.
