# Inventory list with local storage — Dafny model

This project models the data core of the `InventoryListLocalStorage` React
component: an ordered inventory list of rows `{name, qty, id}` (all strings),
the three handlers that build a new list from the current one (`addNewRow`,
`updateRow`, `removeRow`), and the component state that holds the list and
mirrors it into the single browser storage slot `"list"` after every change.

Everything is in `inventory.dfy`, module `InventoryList`:

- `Row` is one inventory row; `Slot` is what the storage key `"list"` can hold
  as seen by the startup read: no key, the empty string, a serialised row
  list, or text the JSON parser rejects.
- `WithNewRow`, `WithUpdatedRow` and `WithoutRow` are the three handlers'
  array expressions (spread-append, `.map`, `.filter`) as functions on
  `seq<Row>`; in the last two, recursion over the list stands in for the
  iteration of `.map` and `.filter`.
- `Load` is the startup read at line 15; `Persist` is the effect at lines
  23-25, which writes the whole list into the slot.
- `Store` is the component state: `rows` is `rowDataArray`, `stored` is the
  `"list"` slot. Each handler method replaces `rows` and then writes
  `stored`, so `Valid()` (the slot holds exactly the current list) holds
  after every method. `Open` is the component's first mount, `Reload` re-runs
  the startup read on the current slot.
- `UniqueIds` is the list invariant that no two rows share an id; the
  lemmas show that each operation keeps it (adding needs a fresh id), and the
  `Store` methods carry it forward.

Behaviours of the code worth noting:

- Unparsable storage text does not fall back to the empty list: line 15 calls
  `JSON.parse` without a `try`, so the exception escapes. `Load` returns
  `Failure(ParseError)` for `Malformed`, and `Store.Open` then yields no store.
  Only a missing key or an empty string falls back to the empty list.
- The comment at line 37 says `updateRow` updates the qty and leaves name and id
  as they are, but line 38 takes the name from `oneRow`, the row object the
  caller passes, not from the stored row. When `oneRow` is the list's own row
  and ids are unique, the two agree (`UpdateChangesOnlyQty`); with a stale
  `oneRow` the stored name is overwritten.
- On the first mount the effect at lines 23-25 also runs, so after startup the
  slot holds the loaded list (an absent key becomes `"[]"`).

## Model

| member | source | states |
|---|---|---|
| `InventoryList.WithNewRow` | src/InventoryListLocalStorage.js:27-34 | the new list is one longer, every old row stays at its index, and the last row is `{name: item, qty, id: freshId}` |
| `InventoryList.AddIds` | src/InventoryListLocalStorage.js:29-32 | the ids of the new list are the old ids plus the new id |
| `InventoryList.AddKeepsUniqueIds` | src/InventoryListLocalStorage.js:29-32 | with pairwise distinct ids and an id not yet used, the ids stay pairwise distinct after adding |
| `InventoryList.AddThenRemove` | src/InventoryListLocalStorage.js:27-53 | removing the id of a freshly added row gives back exactly the list before the add |
| `InventoryList.WithUpdatedRow` | src/InventoryListLocalStorage.js:36-47 | length is kept; a row whose id differs from `oneRow.id` is unchanged; a row with that id becomes `{name: oneRow.name, qty, id: oneRow.id}`; an id no row has leaves the list equal to the original |
| `InventoryList.UpdateKeepsIds` | src/InventoryListLocalStorage.js:38-45 | every position keeps its id, the id set is unchanged, and distinct ids stay distinct |
| `InventoryList.UpdateChangesOnlyQty` | src/InventoryListLocalStorage.js:36-47 | with unique ids and `oneRow` the row at index k, the result is the old list with only that row's qty replaced |
| `InventoryList.UpdateLastWins` | src/InventoryListLocalStorage.js:36-47 | updating the same row twice equals updating it once with the second qty |
| `InventoryList.WithoutRow` | src/InventoryListLocalStorage.js:49-53 | a row is in the result exactly when it is in the list and has another id; the id no longer occurs; the list does not grow; an absent id leaves the list unchanged |
| `InventoryList.RemoveConcat` | src/InventoryListLocalStorage.js:51 | removal keeps relative order: removing from a concatenation is the concatenation of the removals |
| `InventoryList.RemovePresent` | src/InventoryListLocalStorage.js:51 | with unique ids, removing the id of row k yields the rows before k followed by the rows after k, one row fewer |
| `InventoryList.RemoveKeepsUniqueIds` | src/InventoryListLocalStorage.js:51 | distinct ids stay distinct after removal |
| `InventoryList.UniqueIdsCons` | src/InventoryListLocalStorage.js:51 | proof step about the id-uniqueness invariant, used by `RemoveKeepsUniqueIds` for the filter: a list has distinct ids exactly when its head's id is not in its tail and its tail has distinct ids |
| `InventoryList.Load` | src/InventoryListLocalStorage.js:15 | a missing key or empty text reads as the empty list, serialised rows read back as themselves, and only unparsable text fails |
| `InventoryList.Persist` | src/InventoryListLocalStorage.js:23-25 | the slot is overwritten with the whole current list, and reading it back with the startup read yields exactly that list |
| `InventoryList.Walkthrough` | src/InventoryListLocalStorage.js:27-53 | starting empty: add Widget/4, add Bolt/100, update the first row to qty 5, remove the second gives `[Widget/5]` |
| `InventoryList.Store.constructor` | src/InventoryListLocalStorage.js:19-25 | the state starts as the loaded list and the mount effect writes it to the slot |
| `InventoryList.Store.Open` | src/InventoryListLocalStorage.js:15-25 | startup fails exactly when the slot text is unparsable; otherwise the new store holds the loaded list and its slot holds that list |
| `InventoryList.Store.Reload` | src/InventoryListLocalStorage.js:15 | reading the slot of a store yields its current list |
| `InventoryList.Store.AddNewRow` | src/InventoryListLocalStorage.js:23-34 | the state becomes `WithNewRow` of the old state, the slot holds the new state, distinct ids stay distinct |
| `InventoryList.Store.UpdateRow` | src/InventoryListLocalStorage.js:23-47 | the state becomes `WithUpdatedRow` of the old state, the slot holds the new state, distinct ids stay distinct |
| `InventoryList.Store.RemoveRow` | src/InventoryListLocalStorage.js:23-53 | the state becomes `WithoutRow` of the old state, the slot holds the new state, distinct ids stay distinct |

## Left out

- `uuid()` (line 31) is a foreign random generator: `AddNewRow` takes the new id as a parameter and requires it not to be among the current ids. The model does not require the id to be non-empty.
- `JSON.parse`, `JSON.stringify` and `window.localStorage` are foreign calls and browser I/O: the slot holds the row sequence itself, and unparsable text is the single value `Malformed`. Text that parses as JSON but is not a list of rows is not modelled.
- A storage write that fails (quota exceeded, storage disabled) is not modelled; the source does not handle it either.
- React's timing is not modelled: the effect runs after rendering in the source, and here it is the last step of each method. Handlers that capture a stale `rowDataArray` from an older render are not modelled; each method acts on the current state.
- The UI (`ListRow`, `InputForm`, `EditRowForm`, `Footer`, `src/index.js`), the hooks `useToggle` and `useInputState`, and focus handling with `createRef` are presentation with no list logic.
