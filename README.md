# use-sync-browser-storage, modelled in Dafny

The library keeps one piece of React state per storage key and persists it to
`localStorage` or `sessionStorage` as JSON text. `createStateInStorage` builds a
cell: it reads the key (a stored `"undefined"` reads as `undefined`, a missing
key reads as `null`), adopts the stored value when the key is present and
otherwise writes the initial state. The cell then offers `getSnapShot`,
`subscribe` (with the returned unsubscribe function) and `updateState`, which
assigns, writes through and calls every subscribed listener. A process-wide
`store` object maps each key to its cell; `useSyncWithBrowserStorage` creates
the cell on the first call for a key and reuses it afterwards, and
`useSyncWithLocalStorage` / `useSyncWithSessionStorage` pick the backend.

The model has four modules:

- `Json` (json.dfy): JavaScript values and an abstract JSON codec, with the laws
  of `JSON.stringify` / `JSON.parse` the helpers rely on collected in `Lawful`.
- `WebStorage` (web_storage.dfy): storage areas as string maps, the six storage
  helpers as functions on one area, and a `Window` class holding both areas.
- `StateCells` (state_cell.dfy): the listener set, a pure `CellView` of a cell
  with the `Created` / `UpdatedCell` specification functions, and the
  `StateCell` class whose methods are proved against them.
- `Store` (store.dfy): the observable `World` (both areas plus the registry),
  binding, updating, subscribing and unsubscribing as functions on it, the
  registry invariant `Inv` preserved by every call sequence, and a `Registry`
  class whose methods (binding, and calling a bound cell's updater, subscribe
  and unsubscribe) move its `WorldView()` exactly as those functions say.

The cell's private `state` and the listener set are class fields. A listener is
an identity, and calling it appends it to the cell's `notified` log. That log
makes "each subscribed listener is called once per update" a statement about
state.

A stored `"undefined"` counts as present: `isItemIn*Storage` asks only whether
the key is stored and `getItem` does not return `null`, so a new cell over such
a key adopts `undefined` rather than the initial state
(`StateCells.CreateFromSentinel`).

## Model

| member | source | states |
|---|---|---|
| Json.StringifyAvoidsSentinel | index.js:6 | under a lawful codec no representable value is written as the text "undefined" |
| Json.ParseNullText | index.js:5-6 | parsing the `null` that getItem returns for a missing key yields `null` under a lawful codec |
| WebStorage.RawGetItem | index.js:5 | Storage.getItem yields text exactly when the key is stored, and then the stored text |
| WebStorage.InOperator | index.js:26 | `key in storage` holds exactly when getItem finds text for the key |
| WebStorage.ItemText | index.js:17 | the stored text of a representable value parses back to it, and the text is "undefined" exactly when the value is `undefined` |
| WebStorage.GetItemFrom | index.js:4-13 | the read yields `undefined` exactly when the key holds the text "undefined", and `null` for a missing key |
| WebStorage.SetItemTo | index.js:16-22 | the write adds the key, stores the value's text under it and leaves every other key's text as it was |
| WebStorage.IsItemIn | index.js:25-31 | the presence check holds exactly when the key is stored, whatever its text |
| WebStorage.SetThenGet | index.js:4-22 | after a write the key is present and reads back the written value, for every representable value and for `undefined` |
| WebStorage.MissingReadsNull | index.js:4-7 | an absent key is reported absent and reads as `null`, without error |
| WebStorage.SetLeavesOtherKeys | index.js:16-22 | a write to one key changes neither the presence nor the read of any other key |
| WebStorage.SetOverwrites | index.js:16-22 | the last write to a key wins: writing twice is the same as writing the second value |
| WebStorage.Window.SetItem | index.js:16-22 | writing through the global object changes the chosen area by SetItemTo and leaves the other area alone |
| StateCells.OccursAtMostOnce | index.js:39 | in a duplicate-free listener set a listener occurs once if it is a member, otherwise not at all |
| StateCells.AddListener | index.js:58 | Set.add: the members are the old ones plus the listener, no duplicate appears, and adding a member changes nothing |
| StateCells.RemoveListener | index.js:59 | Set.delete: the members are the old ones minus the listener, no duplicate appears, and deleting a non-member changes nothing |
| StateCells.RemoveKeepsOrder | index.js:59 | deleting a member of a duplicate-free set leaves the listeners before and after it in insertion order |
| StateCells.SubscribeTwiceIsOnce | index.js:57-58 | subscribing the same listener twice is the same as once, and it is then in the set exactly once |
| StateCells.UnsubscribeIdempotent | index.js:59 | unsubscribing twice is the same as once, and the listener is then gone |
| StateCells.Created | index.js:40-47 | creation fails exactly when getItem fails, always leaves the key stored, writes nothing exactly when the key was present, and starts from the initial state when it was absent |
| StateCells.UpdatedCell | index.js:49-53 | an update sets the state and, for a duplicate-free set, calls each listener once more if subscribed and never otherwise |
| StateCells.CoherentReadsBack | index.js:49-55 | a cell that agrees with its area and holds a storable state reads back from the area as exactly its snapshot |
| StateCells.CreateAbsent | index.js:40-47 | creation over an absent key starts from the initial state and writes its text, and the new cell agrees with the area |
| StateCells.CreatePresent | index.js:40-43 | creation over a present key fails exactly when getItem fails (the text is not "undefined" and does not parse), and otherwise adopts what getItem read without writing |
| StateCells.CreateFromSentinel | index.js:40-43 | a key holding "undefined" counts as present: the cell starts as `undefined`, not the initial state, and nothing is written |
| StateCells.UpdateKeepsCoherent | index.js:49-51 | after an update the cell agrees with the area the update wrote |
| StateCells.StateCell.GetSnapShot | index.js:55 | the snapshot is the current state, whose key is stored in the cell's area and reads back as the snapshot when storable |
| StateCells.StateCell.Subscribe | index.js:57-58 | subscribe adds the listener to the set and returns its unsubscribe handle; the cell stays valid |
| StateCells.StateCell.Unsubscribe | index.js:59 | the returned unsubscribe deletes exactly that listener and answers whether it was subscribed, as Set.delete does; the cell stays valid |
| StateCells.StateCell.Invoke | index.js:52 | calling a listener records exactly that one call |
| StateCells.StateCell.UpdateState | index.js:49-53 | updateState moves the cell to UpdatedCell, writes the new text to its own area only, and calls the listeners in insertion order |
| StateCells.CreateStateInStorage | index.js:34-63 | creation fails exactly when Created fails, and otherwise yields a fresh valid cell with Created's state, no listeners and Created's area |
| Store.CoherentAfterOtherWrite | index.js:16-22 | a write to one key keeps every cell of another key in agreement with its area |
| Store.Bind | index.js:74-85 | a binding fails only for an unregistered key, registers exactly the key, and returns the registered cell's state |
| Store.Update | index.js:49-53 | an update keeps the registered keys, gives the cell the new state and its own backend, and leaves the other backend alone |
| Store.Subscribe | index.js:57-58 | subscribe keeps both areas and the registered keys, and the listener is then in the cell's set |
| Store.Unsubscribe | index.js:59 | unsubscribe keeps both areas and the registered keys, and the listener is then out of the cell's set |
| Store.Step | index.js:66-110 | no single call unregisters a key |
| Store.Run | index.js:66-110 | no sequence of calls unregisters a key |
| Store.BindPreservesInv | index.js:74-81 | a binding keeps the registry invariant: own keys, duplicate-free listener sets, cells agreeing with their areas |
| Store.UpdatePreservesInv | index.js:49-53 | an update keeps the registry invariant, including for cells of other keys that share the area |
| Store.StepPreservesInv | index.js:66-110 | every single call a client can make keeps the registry invariant |
| Store.RunPreservesInv | index.js:66-110 | every sequence of calls keeps the registry invariant |
| Store.ReachableIsCoherent | index.js:66-110 | from any storage contents and an empty registry, every reachable world satisfies the invariant and every storable snapshot reads back from its backend |
| Store.StepKeepsCells | index.js:74-80 | no call removes a cell, changes its backend or rebinds its key |
| Store.RunKeepsCells | index.js:74-80 | the registry is append-only, and the first binding of a key fixes its backend for good |
| Store.RebindIgnoresArguments | index.js:74-81 | binding a registered key returns that cell's snapshot and changes nothing, whatever initial state and backend are given |
| Store.FirstBindAbsent | index.js:74-81 | a first binding over an absent key returns the initial state, writes its text to the chosen area only and registers a fresh cell |
| Store.UpdateEffects | index.js:49-53 | an update writes only the cell's key in the cell's area, calls each subscribed listener once, and leaves other cells alone |
| Store.SubscribeUpdateEffects | index.js:49-58 | in any valid registry, a listener subscribed to a cell is called exactly once more by the next update, which sets the state and writes the new text to that cell's area only |
| Store.UnsubscribeThenUpdate | index.js:49-59 | in any valid registry, a listener unsubscribed from a cell is not called by the next update |
| Store.SharedAcrossBackends | index.js:74-110 | a session binding of a key first bound to local storage gets the local cell and snapshot, and its updates go to local storage and reach its listener |
| Store.SubscribeThenUpdate | index.js:49-60 | a listener subscribed to a freshly bound cell of either backend, in any registry, is called exactly once by one update, which writes the new text to that cell's area only |
| Store.Registry.constructor | index.js:66 | the registry starts empty and valid |
| Store.Registry.GetOrCreate | index.js:74-80 | get-or-create moves the registry's world exactly as Bind does, registers a newly allocated cell under a new key, and keeps a registered key untouched |
| Store.Registry.CreateAndRegister | index.js:74-80 | for an unregistered key, creation and registration move the world exactly as Bind does and register a newly allocated cell, and a failed creation changes nothing |
| Store.Registry.Register | index.js:75 | storing a new cell in the registry adds exactly that entry and yields the given valid world |
| Store.Registry.UseSyncWithBrowserStorage | index.js:69-86 | the hook fails exactly when Bind fails and otherwise returns Bind's snapshot and the registered cell, newly allocated for a new key, moving the world as Bind does |
| Store.Registry.UseSyncWithLocalStorage | index.js:88-98 | the local-storage hook is the binding with the local backend: Bind's error, snapshot and world, and registered cells stay the same objects, a new key getting a newly allocated cell |
| Store.Registry.UseSyncWithSessionStorage | index.js:100-110 | the session-storage hook is the binding with the session backend: Bind's error, snapshot and world, and registered cells stay the same objects, a new key getting a newly allocated cell |
| Store.Registry.CallUpdater | index.js:85 | calling the returned updater moves the registry's world exactly as Update does and keeps the registry valid |
| Store.Registry.CallSubscribe | index.js:57-58 | calling a bound cell's subscribe moves the registry's world exactly as Subscribe does and keeps the registry valid |
| Store.Registry.SharedCellSession | index.js:69-110 | a localStorage binding, a sessionStorage binding of the same key, a subscribe and an update: the second hook gets the first snapshot, the new text lands in localStorage only, and the listener is called once |
| Store.Registry.BindAcrossBackends | index.js:74-98 | binding a new key with the localStorage hook and again with the sessionStorage hook yields one newly allocated local cell holding the first initial state, written to localStorage only |
| Store.Registry.SubscribeAndUpdate | index.js:49-58 | subscribing a listener to any registered cell and updating it gives the cell the new state, writes the new text to that cell's area only and calls the listener exactly once more |
| Store.Registry.CallUnsubscribe | index.js:59 | calling the unsubscribe function moves the registry's world exactly as Unsubscribe does, answers whether the listener was subscribed, and keeps the registry valid |

## Left out

- React's `useSyncExternalStore` (index.js:1, 83) is not modelled. The hook returns the cell's snapshot directly, and subscription is the cell's own Subscribe.
- The JSON text format is not modelled. The codec is a pair of functions, and the laws of JSON.stringify / JSON.parse it must obey are the precondition `Lawful`, not a proved fact.
- Numbers are integers. Floating point, `NaN` and `Infinity` (which JSON turns into `null`) are not modelled.
- Functions, symbols, `BigInt` and cyclic values are not modelled. For values containing `undefined` the written text is whatever the codec produces, and no round trip is claimed.
- The `in` operator on a Storage object also finds inherited property names such as `getItem`. The model treats a storage area as a plain map of its stored keys. This does not change `isItemIn*Storage`, because `getItem` still returns `null` for those names.
- The `store` object is a plain `{}`, so a key such as `"constructor"` or `"toString"` finds an inherited, truthy property, and the hook then destructures a function instead of a cell. The registry is modelled as a map holding only the keys that were stored.
- Storage exceptions are not modelled: quota exceeded, storage disabled, private browsing. A write always succeeds.
- A `SyntaxError` from `JSON.parse` is modelled as a `Failure` result that the hook passes on, not as a thrown exception.
- Cross-tab `storage` events and writes made behind the library's back are not modelled. Other writers appear only as arbitrary starting contents.
- Listener bodies are not modelled. A listener is an identity, and a call is a log entry. A listener that subscribes, unsubscribes or updates during `forEach` is not modelled.
- Calls naming an unbound key are not modelled: no client can make an update, subscribe or unsubscribe for such a key, and `Step` treats them as no-ops.
- The unsubscribe function that subscribe returns is modelled by the listener it was issued for, passed to Unsubscribe. A closure bound to its own listener is not modelled.
- Values are immutable in the model. JavaScript object identity is not modelled, nor is changing in place the object a snapshot returns (index.js:55) or the object passed to the setter, which the cell keeps by reference (index.js:50). Such a change would alter the cell's state without a write to storage. The agreement between cells and storage holds only for clients that do not mutate these objects.
- Concurrency is not modelled. JavaScript runs each call to completion, so calls are sequential.
