/** The process-wide registry `store` and the bindings useSyncWithBrowserStorage,
    useSyncWithLocalStorage and useSyncWithSessionStorage of index.js, first as
    functions on the whole observable state, then as a class over live cells. */
module Store {
  import opened Json
  import opened WebStorage
  import opened StateCells

  /** Everything the core can change: both storage areas and the registry,
      each registered cell seen through its view. */
  datatype World = World(local: StorageArea, session: StorageArea, cells: map<string, CellView>)

  function AreaOf(w: World, kind: BackendKind): StorageArea
  {
    match kind
    case Local => w.local
    case Session => w.session
  }

  function WithArea(w: World, kind: BackendKind, area: StorageArea): (r: World)
    ensures AreaOf(r, kind) == area && AreaOf(r, Other(kind)) == AreaOf(w, Other(kind))
    ensures r.cells == w.cells
  {
    match kind
    case Local => w.(local := area)
    case Session => w.(session := area)
  }

  /** useSyncWithBrowserStorage without the React call: reuse the cell
      registered for the key, whatever the initial state and backend now
      given, or create one (which may throw); the result is the new world and
      the snapshot handed to the caller. */
  function Bind(json: Codec, w: World, storageKey: string, initialState: Value, kind: BackendKind)
    : (r: Result<(World, Value)>)
    ensures r.Failure? ==> storageKey !in w.cells
    ensures r.Success? ==> r.value.0.cells.Keys == w.cells.Keys + {storageKey}
    ensures r.Success? ==> r.value.1 == r.value.0.cells[storageKey].state
  {
    if storageKey in w.cells then Success((w, w.cells[storageKey].state))
    else
      match Created(json, AreaOf(w, kind), storageKey, initialState)
      case Failure(e) => Failure(e)
      case Success(created) =>
        var cell := CellView(storageKey, kind, created.0, [], []);
        Success((WithArea(w, kind, created.1).(cells := w.cells[storageKey := cell]), created.0))
  }

  /** The updater of the cell registered for the key: its backend gets the new
      text, the cell gets the new state and one more call per listener. */
  function Update(json: Codec, w: World, storageKey: string, newState: Value): (r: World)
    requires storageKey in w.cells
    ensures r.cells.Keys == w.cells.Keys
    ensures r.cells[storageKey].state == newState && r.cells[storageKey].kind == w.cells[storageKey].kind
    ensures AreaOf(r, Other(w.cells[storageKey].kind)) == AreaOf(w, Other(w.cells[storageKey].kind))
  {
    var cell := w.cells[storageKey];
    WithArea(w, cell.kind, SetItemTo(json, AreaOf(w, cell.kind), storageKey, newState))
      .(cells := w.cells[storageKey := UpdatedCell(cell, newState)])
  }

  /** subscribe on the cell registered for the key. */
  function Subscribe(w: World, storageKey: string, l: Listener): (r: World)
    requires storageKey in w.cells
    ensures r.local == w.local && r.session == w.session && r.cells.Keys == w.cells.Keys
    ensures l in r.cells[storageKey].listeners
  {
    var cell := w.cells[storageKey];
    w.(cells := w.cells[storageKey := cell.(listeners := AddListener(cell.listeners, l))])
  }

  /** The unsubscribe function returned by subscribe on the cell registered for the key. */
  function Unsubscribe(w: World, storageKey: string, l: Listener): (r: World)
    requires storageKey in w.cells
    ensures r.local == w.local && r.session == w.session && r.cells.Keys == w.cells.Keys
    ensures l !in r.cells[storageKey].listeners
  {
    var cell := w.cells[storageKey];
    w.(cells := w.cells[storageKey := cell.(listeners := RemoveListener(cell.listeners, l))])
  }

  /** The registry invariant: each cell is registered under its own key, its
      listener set has no duplicates, and it agrees with its backend. */
  ghost predicate Inv(json: Codec, w: World)
  {
    forall k :: k in w.cells ==>
      && w.cells[k].key == k
      && NoDup(w.cells[k].listeners)
      && Coherent(json, AreaOf(w, w.cells[k].kind), w.cells[k])
  }

  /** A write to one key keeps every cell of another key coherent. */
  lemma CoherentAfterOtherWrite(json: Codec, area: StorageArea, key: string, value: Value, cell: CellView)
    requires cell.key != key && Coherent(json, area, cell)
    ensures Coherent(json, SetItemTo(json, area, key, value), cell)
  {
    SetLeavesOtherKeys(json, area, key, value, cell.key);
  }

  lemma BindPreservesInv(json: Codec, w: World, storageKey: string, initialState: Value, kind: BackendKind)
    requires Inv(json, w)
    ensures Bind(json, w, storageKey, initialState, kind).Success? ==>
              Inv(json, Bind(json, w, storageKey, initialState, kind).value.0)
  {
    if storageKey !in w.cells && Created(json, AreaOf(w, kind), storageKey, initialState).Success? {
      var created := Created(json, AreaOf(w, kind), storageKey, initialState).value;
      var w' := Bind(json, w, storageKey, initialState, kind).value.0;
      forall k | k in w'.cells
        ensures w'.cells[k].key == k && NoDup(w'.cells[k].listeners)
        ensures Coherent(json, AreaOf(w', w'.cells[k].kind), w'.cells[k])
      {
        if k != storageKey {
          var c := w.cells[k];
          if c.kind == kind && !IsItemIn(AreaOf(w, kind), storageKey) {
            CoherentAfterOtherWrite(json, AreaOf(w, kind), storageKey, initialState, c);
          }
        }
      }
    }
  }

  lemma UpdatePreservesInv(json: Codec, w: World, storageKey: string, newState: Value)
    requires Inv(json, w) && storageKey in w.cells
    ensures Inv(json, Update(json, w, storageKey, newState))
  {
    var cell := w.cells[storageKey];
    var w' := Update(json, w, storageKey, newState);
    forall k | k in w'.cells
      ensures w'.cells[k].key == k && NoDup(w'.cells[k].listeners)
      ensures Coherent(json, AreaOf(w', w'.cells[k].kind), w'.cells[k])
    {
      if k != storageKey && w.cells[k].kind == cell.kind {
        CoherentAfterOtherWrite(json, AreaOf(w, cell.kind), storageKey, newState, w.cells[k]);
      }
    }
  }

  /** One call a client can make, as the registry sees it. */
  datatype Op =
    | BindOp(storageKey: string, initialState: Value, kind: BackendKind)
    | UpdateOp(storageKey: string, newState: Value)
    | SubscribeOp(storageKey: string, listener: Listener)
    | UnsubscribeOp(storageKey: string, listener: Listener)

  /** The effect of one call. A binding whose creation throws changes nothing;
      updater, subscribe and unsubscribe exist only for a bound key, so a call
      naming any other key is one no client can make and changes nothing. */
  function Step(json: Codec, w: World, op: Op): (r: World)
    ensures w.cells.Keys <= r.cells.Keys
  {
    match op
    case BindOp(k, init, kind) =>
      (match Bind(json, w, k, init, kind)
       case Success(p) => p.0
       case Failure(_) => w)
    case UpdateOp(k, x) => if k in w.cells then Update(json, w, k, x) else w
    case SubscribeOp(k, l) => if k in w.cells then Subscribe(w, k, l) else w
    case UnsubscribeOp(k, l) => if k in w.cells then Unsubscribe(w, k, l) else w
  }

  /** A sequence of calls, in order. */
  function Run(json: Codec, w: World, ops: seq<Op>): (r: World)
    ensures w.cells.Keys <= r.cells.Keys
    decreases |ops|
  {
    if ops == [] then w else Run(json, Step(json, w, ops[0]), ops[1..])
  }

  lemma StepPreservesInv(json: Codec, w: World, op: Op)
    requires Inv(json, w)
    ensures Inv(json, Step(json, w, op))
  {
    match op
    case BindOp(k, init, kind) => BindPreservesInv(json, w, k, init, kind);
    case UpdateOp(k, x) => if k in w.cells { UpdatePreservesInv(json, w, k, x); }
    case SubscribeOp(k, l) =>
    case UnsubscribeOp(k, l) =>
  }

  /** Whatever the client does, every registered cell stays under its own key,
      keeps a duplicate-free listener set and agrees with its backend. */
  lemma {:induction false} RunPreservesInv(json: Codec, w: World, ops: seq<Op>)
    requires Inv(json, w)
    ensures Inv(json, Run(json, w, ops))
    decreases |ops|
  {
    if ops != [] {
      StepPreservesInv(json, w, ops[0]);
      RunPreservesInv(json, Step(json, w, ops[0]), ops[1..]);
    }
  }

  /** From any storage contents and an empty registry, every reachable world
      satisfies the invariant; with a lawful codec each cell whose state is
      storable reads back from its backend exactly. */
  lemma ReachableIsCoherent(json: Codec, local: StorageArea, session: StorageArea, ops: seq<Op>, k: string)
    requires Lawful(json)
    ensures var w := Run(json, World(local, session, map[]), ops);
            && Inv(json, w)
            && (k in w.cells && (Representable(w.cells[k].state) || w.cells[k].state == Undefined) ==>
                  GetItemFrom(json, AreaOf(w, w.cells[k].kind), k) == Success(w.cells[k].state))
  {
    var w := Run(json, World(local, session, map[]), ops);
    RunPreservesInv(json, World(local, session, map[]), ops);
    if k in w.cells {
      CoherentReadsBack(json, AreaOf(w, w.cells[k].kind), w.cells[k]);
    }
  }

  /** One call never removes a cell, never replaces one by a cell of another
      backend, and never rebinds a key. */
  lemma StepKeepsCells(json: Codec, w: World, op: Op)
    ensures var w' := Step(json, w, op);
            forall k :: k in w.cells ==> k in w'.cells && w'.cells[k].kind == w.cells[k].kind && w'.cells[k].key == w.cells[k].key
  {
  }

  /** The registry is append-only, and the first binding of a key fixes its
      backend for the rest of the process. */
  lemma {:induction false} RunKeepsCells(json: Codec, w: World, ops: seq<Op>)
    ensures var w' := Run(json, w, ops);
            forall k :: k in w.cells ==> k in w'.cells && w'.cells[k].kind == w.cells[k].kind && w'.cells[k].key == w.cells[k].key
    decreases |ops|
  {
    if ops != [] {
      StepKeepsCells(json, w, ops[0]);
      RunKeepsCells(json, Step(json, w, ops[0]), ops[1..]);
    }
  }

  /** A later binding of a registered key returns the registered cell's
      snapshot and changes nothing: new initial state and backend are ignored,
      nothing is written. */
  lemma RebindIgnoresArguments(json: Codec, w: World, storageKey: string, initialState: Value, kind: BackendKind)
    requires storageKey in w.cells
    ensures Bind(json, w, storageKey, initialState, kind) == Success((w, w.cells[storageKey].state))
  {
  }

  /** A first binding on an empty backend key: the snapshot is the initial
      state, the chosen area holds its text, the other area is untouched. */
  lemma FirstBindAbsent(json: Codec, w: World, storageKey: string, initialState: Value, kind: BackendKind)
    requires Lawful(json) && storageKey !in w.cells && storageKey !in AreaOf(w, kind)
    ensures var b := Bind(json, w, storageKey, initialState, kind);
            && b.Success? && b.value.1 == initialState
            && AreaOf(b.value.0, kind) == SetItemTo(json, AreaOf(w, kind), storageKey, initialState)
            && AreaOf(b.value.0, Other(kind)) == AreaOf(w, Other(kind))
            && b.value.0.cells == w.cells[storageKey := CellView(storageKey, kind, initialState, [], [])]
  {
    CreateAbsent(json, AreaOf(w, kind), storageKey, initialState, kind);
  }

  /** An update writes the new text under the cell's own key in the cell's own
      backend only, calls each current listener once (the listener set being
      duplicate-free, as the registry invariant keeps it), and leaves every
      other cell as it was. */
  lemma UpdateEffects(json: Codec, w: World, storageKey: string, newState: Value, l: Listener)
    requires storageKey in w.cells && NoDup(w.cells[storageKey].listeners)
    ensures var cell := w.cells[storageKey];
            var w' := Update(json, w, storageKey, newState);
            && w'.cells.Keys == w.cells.Keys
            && w'.cells[storageKey].state == newState
            && AreaOf(w', cell.kind) == AreaOf(w, cell.kind)[storageKey := ItemText(json, newState)]
            && AreaOf(w', Other(cell.kind)) == AreaOf(w, Other(cell.kind))
            && Occurrences(w'.cells[storageKey].notified, l)
                 == Occurrences(cell.notified, l) + (if l in cell.listeners then 1 else 0)
            && (forall k :: k in w.cells && k != storageKey ==> w'.cells[k] == w.cells[k])
  {
  }

  /** The registry is keyed by the key alone: a session-storage binding of a
      key first bound to local storage gets the local cell and its snapshot,
      a listener subscribed through it hears updates made through the first
      binding, and those updates go to local storage, not session storage. */
  lemma SharedAcrossBackends(json: Codec, local: StorageArea, session: StorageArea, key: string,
                             first: Value, second: Value, newState: Value, l: Listener)
    requires Lawful(json) && key !in local
    ensures var w0 := World(local, session, map[]);
            var b1 := Bind(json, w0, key, first, Local);
            && b1.Success? && b1.value.1 == first
            && var b2 := Bind(json, b1.value.0, key, second, Session);
               && b2 == Success((b1.value.0, first))
               && var w3 := Update(json, Subscribe(b2.value.0, key, l), key, newState);
                  && w3.local == local[key := ItemText(json, newState)]
                  && w3.session == session
                  && w3.cells[key].kind == Local
                  && Occurrences(w3.cells[key].notified, l) == 1
  {
    var w0 := World(local, session, map[]);
    FirstBindAbsent(json, w0, key, first, Local);
    var w1 := Bind(json, w0, key, first, Local).value.0;
    RebindIgnoresArguments(json, w1, key, second, Session);
    SubscribeThenUpdate(json, w1, key, Local, first, newState, l);
    SetOverwrites(json, local, key, first, newState);
  }

  /** A listener subscribed to a freshly bound cell is called exactly once by
      one update, which writes the new text to that cell's area only. */
  lemma SubscribeThenUpdate(json: Codec, w: World, key: string, kind: BackendKind,
                            first: Value, newState: Value, l: Listener)
    requires key in w.cells && w.cells[key] == CellView(key, kind, first, [], [])
    ensures var w' := Update(json, Subscribe(w, key, l), key, newState);
            && AreaOf(w', kind) == AreaOf(w, kind)[key := ItemText(json, newState)]
            && AreaOf(w', Other(kind)) == AreaOf(w, Other(kind))
            && w'.cells[key].kind == kind
            && Occurrences(w'.cells[key].notified, l) == 1
  {
    var w2 := Subscribe(w, key, l);
    assert w2.cells[key].listeners == [l];
    assert NoDup(w2.cells[key].listeners);
    UpdateEffects(json, w2, key, newState, l);
    assert Occurrences([], l) == 0;
    assert Occurrences([l], l) == 1;
  }

  /** A listener subscribed to a registered cell is called exactly once more
      by the next update, which writes the new text to that cell's area only. */
  lemma SubscribeUpdateEffects(json: Codec, w: World, key: string, newState: Value, l: Listener)
    requires Inv(json, w) && key in w.cells
    ensures var cell := w.cells[key];
            var w' := Update(json, Subscribe(w, key, l), key, newState);
            && w'.cells[key].state == newState
            && w'.cells[key].kind == cell.kind
            && AreaOf(w', cell.kind) == AreaOf(w, cell.kind)[key := ItemText(json, newState)]
            && AreaOf(w', Other(cell.kind)) == AreaOf(w, Other(cell.kind))
            && Occurrences(w'.cells[key].notified, l) == Occurrences(cell.notified, l) + 1
  {
    UpdateEffects(json, Subscribe(w, key, l), key, newState, l);
  }

  /** A listener unsubscribed from a cell is not called by the next update:
      its count of calls stays where it was. */
  lemma UnsubscribeThenUpdate(json: Codec, w: World, key: string, newState: Value, l: Listener)
    requires Inv(json, w) && key in w.cells
    ensures var w' := Update(json, Unsubscribe(w, key, l), key, newState);
            Occurrences(w'.cells[key].notified, l) == Occurrences(w.cells[key].notified, l)
  {
    UpdateEffects(json, Unsubscribe(w, key, l), key, newState, l);
  }

  /** The views of a map of live cells. */
  function Views(cells: map<string, StateCell>): (m: map<string, CellView>)
    reads cells.Values
    ensures m.Keys == cells.Keys
    ensures forall k :: k in cells ==> m[k] == cells[k].View()
  {
    map k | k in cells :: cells[k].View()
  }

  /** Views of cells that did not change did not change. */
  twostate lemma ViewsUnchanged(cells: map<string, StateCell>)
    requires forall k :: k in cells ==> unchanged(cells[k])
    ensures Views(cells) == old(Views(cells))
  {
  }

  lemma ViewsInsert(cells: map<string, StateCell>, key: string, cell: StateCell)
    ensures Views(cells[key := cell]) == Views(cells)[key := cell.View()]
  {
  }

  /** A first binding that creates its cell yields exactly the world with the
      new area contents and the new cell registered. */
  lemma BindCreated(json: Codec, w: World, storageKey: string, initialState: Value, kind: BackendKind, w': World)
    requires storageKey !in w.cells
    requires Created(json, AreaOf(w, kind), storageKey, initialState).Success?
    requires var c := Created(json, AreaOf(w, kind), storageKey, initialState).value;
             && AreaOf(w', kind) == c.1 && AreaOf(w', Other(kind)) == AreaOf(w, Other(kind))
             && w'.cells == w.cells[storageKey := CellView(storageKey, kind, c.0, [], [])]
    ensures Bind(json, w, storageKey, initialState, kind)
              == Success((w', Created(json, AreaOf(w, kind), storageKey, initialState).value.0))
  {
  }

  /** An update yields exactly the world with the new area contents and the
      updated cell. */
  lemma UpdateWorld(json: Codec, w: World, storageKey: string, newState: Value,
                    others: map<string, CellView>, before: CellView, w': World)
    requires w.cells == others[storageKey := before]
    requires AreaOf(w', before.kind) == SetItemTo(json, AreaOf(w, before.kind), storageKey, newState)
    requires AreaOf(w', Other(before.kind)) == AreaOf(w, Other(before.kind))
    requires w'.cells == others[storageKey := UpdatedCell(before, newState)]
    ensures Update(json, w, storageKey, newState) == w'
  {
    assert w.cells[storageKey := UpdatedCell(before, newState)] == w'.cells;
  }

  /** A change to one cell's listener set yields exactly the world with that
      cell's new listener set and nothing else changed, and keeps the registry
      invariant when the new set is duplicate-free. */
  lemma ListenersWorld(json: Codec, w: World, storageKey: string, others: map<string, CellView>,
                       before: CellView, listeners: seq<Listener>, w': World)
    requires w.cells == others[storageKey := before]
    requires w'.local == w.local && w'.session == w.session
    requires w'.cells == others[storageKey := before.(listeners := listeners)]
    ensures w' == w.(cells := w.cells[storageKey := before.(listeners := listeners)])
    ensures Inv(json, w) && NoDup(listeners) ==> Inv(json, w')
  {
    assert w.cells[storageKey := before.(listeners := listeners)] == w'.cells;
    if Inv(json, w) && NoDup(listeners) {
      assert AreaOf(w', Local) == AreaOf(w, Local) && AreaOf(w', Session) == AreaOf(w, Session);
      assert w.cells[storageKey] == before;
      forall k | k in w'.cells
        ensures w'.cells[k].key == k && NoDup(w'.cells[k].listeners)
        ensures Coherent(json, AreaOf(w', w'.cells[k].kind), w'.cells[k])
      {
        if k == storageKey {
          assert w'.cells[k] == before.(listeners := listeners);
          assert Coherent(json, AreaOf(w, before.kind), before);
        } else {
          assert w'.cells[k] == w.cells[k];
        }
      }
    }
  }

  /** The registry `store` of index.js as a live object: a map from key to
      cell over one window's storage areas. */
  class Registry {
    const window: Window
    var cells: map<string, StateCell>

    /** Each cell is registered under its own key and uses this window, and
        the world seen through the registry satisfies the registry invariant. */
    ghost predicate Valid()
      reads this, window, cells.Values
    {
      && (forall k :: k in cells ==> cells[k].key == k && cells[k].window == window)
      && Inv(window.json, WorldView())
    }

    /** Everything observable through the registry. */
    function WorldView(): World
      reads this, window, cells.Values
    {
      World(window.localStorage, window.sessionStorage, Views(cells))
    }

    constructor (window: Window)
      ensures this.window == window && cells == map[]
      ensures Valid()
    {
      this.window := window;
      cells := map[];
    }

    /** Every registered cell of a valid registry is a valid cell. */
    lemma CellIsValid(k: string)
      requires Valid() && k in cells
      ensures cells[k].Valid()
    {
      assert WorldView().cells[k] == cells[k].View();
      assert AreaOf(WorldView(), cells[k].kind) == window.Area(cells[k].kind);
    }

    /** The areas of the world seen through the registry are the window's. */
    lemma AreasSeen(kind: BackendKind)
      ensures AreaOf(WorldView(), kind) == window.Area(kind)
      ensures AreaOf(WorldView(), Other(kind)) == window.Area(Other(kind))
    {
    }

    /** Registry.getOrCreate, the insert-if-absent of `store`: the registered
        cell for the key, or a new one from createStateInStorage registered
        under the key; nothing is registered when creation throws. */
    method GetOrCreate(storageKey: string, initialState: Value, kind: BackendKind)
      returns (r: Result<StateCell>)
      requires Valid()
      modifies this, window
      ensures Valid()
      ensures var b := Bind(window.json, old(WorldView()), storageKey, initialState, kind);
              && (r.Failure? <==> b.Failure?)
              && (r.Failure? ==> r.error == b.error && WorldView() == old(WorldView()))
              && (r.Success? ==> WorldView() == b.value.0 && storageKey in cells && r.value == cells[storageKey])
      ensures cells == if r.Success? then old(cells)[storageKey := r.value] else old(cells)
      ensures storageKey in old(cells) ==> cells == old(cells) && unchanged(window)
      ensures r.Success? && storageKey !in old(cells) ==> fresh(r.value)
    {
      if storageKey in cells {
        return Success(cells[storageKey]);
      }
      r := CreateAndRegister(storageKey, initialState, kind);
    }

    /** The branch of get-or-create for an unregistered key: createStateInStorage,
        then registration unless creation threw. */
    method CreateAndRegister(storageKey: string, initialState: Value, kind: BackendKind)
      returns (r: Result<StateCell>)
      requires Valid() && storageKey !in cells
      modifies this, window
      ensures Valid()
      ensures var b := Bind(window.json, old(WorldView()), storageKey, initialState, kind);
              && (r.Failure? <==> b.Failure?)
              && (r.Failure? ==> r.error == b.error && WorldView() == old(WorldView()))
              && (r.Success? ==> WorldView() == b.value.0 && storageKey in cells && r.value == cells[storageKey])
      ensures cells == if r.Success? then old(cells)[storageKey := r.value] else old(cells)
      ensures r.Success? ==> fresh(r.value)
    {
      ghost var w0 := WorldView();
      var created := CreateStateInStorage(window, storageKey, initialState, kind);
      ViewsUnchanged(cells);
      ghost var w1 := World(window.localStorage, window.sessionStorage, w0.cells);
      assert AreaOf(w1, kind) == window.Area(kind);
      assert AreaOf(w1, Other(kind)) == AreaOf(w0, Other(kind));
      assert AreaOf(w0, kind) == old(window.Area(kind));
      if created.Failure? {
        assert w1 == w0;
        return Failure(created.error);
      }
      var cell := created.value;
      ghost var w2 := w1.(cells := w0.cells[storageKey := cell.View()]);
      BindCreated(window.json, w0, storageKey, initialState, kind, w2);
      BindPreservesInv(window.json, w0, storageKey, initialState, kind);
      Register(storageKey, cell, w2);
      r := Success(cell);
    }

    /** `store[storageKey] = ...`: register a new cell under its key. */
    method Register(storageKey: string, cell: StateCell, ghost w: World)
      requires forall k :: k in cells ==> cells[k].key == k && cells[k].window == window
      requires cell.key == storageKey && cell.window == window
      requires w == World(window.localStorage, window.sessionStorage, Views(cells)[storageKey := cell.View()])
      requires Inv(window.json, w)
      modifies this
      ensures cells == old(cells)[storageKey := cell]
      ensures Valid() && WorldView() == w
    {
      ViewsInsert(cells, storageKey, cell);
      label Registered:
      cells := cells[storageKey := cell];
      ViewsUnchanged@Registered(cells);
    }

    /** useSyncWithBrowserStorage without the React call: get or create the
        cell for the key and return its snapshot and the cell, whose
        UpdateState is the returned updater. */
    method UseSyncWithBrowserStorage(storageKey: string, initialState: Value, kind: BackendKind)
      returns (r: Result<(Value, StateCell)>)
      requires Valid()
      modifies this, window
      ensures Valid()
      ensures var b := Bind(window.json, old(WorldView()), storageKey, initialState, kind);
              && (r.Failure? <==> b.Failure?)
              && (r.Failure? ==> r.error == b.error && WorldView() == old(WorldView()))
              && (r.Success? ==>
                    && WorldView() == b.value.0
                    && r.value.0 == b.value.1
                    && storageKey in cells && r.value.1 == cells[storageKey])
      ensures forall k :: k in old(cells) ==> k in cells && cells[k] == old(cells)[k]
      ensures storageKey in old(cells) ==> cells == old(cells) && unchanged(window)
      ensures r.Success? && storageKey !in old(cells) ==> fresh(r.value.1)
    {
      var got := GetOrCreate(storageKey, initialState, kind);
      if got.Failure? {
        return Failure(got.error);
      }
      var cell := got.value;
      CellIsValid(storageKey);
      assert WorldView().cells[storageKey] == cell.View();
      r := Success((cell.GetSnapShot(), cell));
    }

    /** useSyncWithLocalStorage: the binding with the localStorage helpers. */
    method UseSyncWithLocalStorage(storageKey: string, initialState: Value)
      returns (r: Result<(Value, StateCell)>)
      requires Valid()
      modifies this, window
      ensures Valid()
      ensures var b := Bind(window.json, old(WorldView()), storageKey, initialState, Local);
              && (r.Failure? <==> b.Failure?)
              && (r.Failure? ==> r.error == b.error && WorldView() == old(WorldView()))
              && (r.Success? ==> WorldView() == b.value.0 && r.value.0 == b.value.1
                                 && storageKey in cells && r.value.1 == cells[storageKey])
      ensures forall k :: k in old(cells) ==> k in cells && cells[k] == old(cells)[k]
      ensures storageKey in old(cells) ==> cells == old(cells) && unchanged(window)
      ensures r.Success? && storageKey !in old(cells) ==> fresh(r.value.1)
    {
      r := UseSyncWithBrowserStorage(storageKey, initialState, Local);
    }

    /** useSyncWithSessionStorage: the binding with the sessionStorage helpers. */
    method UseSyncWithSessionStorage(storageKey: string, initialState: Value)
      returns (r: Result<(Value, StateCell)>)
      requires Valid()
      modifies this, window
      ensures Valid()
      ensures var b := Bind(window.json, old(WorldView()), storageKey, initialState, Session);
              && (r.Failure? <==> b.Failure?)
              && (r.Failure? ==> r.error == b.error && WorldView() == old(WorldView()))
              && (r.Success? ==> WorldView() == b.value.0 && r.value.0 == b.value.1
                                 && storageKey in cells && r.value.1 == cells[storageKey])
      ensures forall k :: k in old(cells) ==> k in cells && cells[k] == old(cells)[k]
      ensures storageKey in old(cells) ==> cells == old(cells) && unchanged(window)
      ensures r.Success? && storageKey !in old(cells) ==> fresh(r.value.1)
    {
      r := UseSyncWithBrowserStorage(storageKey, initialState, Session);
    }

    /** A client's session over one key: a component binds it with the
        localStorage hook, another asks the sessionStorage hook for the same
        key, subscribes, and calls the setter. The second hook gets the first
        cell and its snapshot, the update goes to localStorage only, and the
        listener is called once. */
    method SharedCellSession(key: string, first: Value, second: Value, newState: Value, l: Listener)
      returns (snapshot: Value, cell: StateCell)
      requires Valid() && Lawful(window.json)
      requires key !in cells && key !in window.localStorage
      modifies this, window
      ensures Valid()
      ensures snapshot == first
      ensures key in cells && cells[key] == cell && cell.kind == Local
      ensures window.localStorage == old(window.localStorage)[key := ItemText(window.json, newState)]
      ensures window.sessionStorage == old(window.sessionStorage)
      ensures Occurrences(cell.notified, l) == 1
    {
      ghost var local0 := window.localStorage;
      snapshot, cell := BindAcrossBackends(key, first, second);
      SubscribeAndUpdate(cell, newState, l);
      assert Occurrences([], l) == 0;
      SetOverwrites(window.json, local0, key, first, newState);
    }

    /** Subscribing a listener to a registered cell and then calling its
        setter: the new text goes to the cell's area only, the cell holds the
        new state, and the listener is called exactly once more. */
    method SubscribeAndUpdate(cell: StateCell, newState: Value, l: Listener)
      requires Valid() && cell.key in cells && cells[cell.key] == cell
      modifies cell`listeners, cell`state, cell`notified, window
      ensures Valid()
      ensures cell.state == newState
      ensures window.Area(cell.kind) == old(window.Area(cell.kind))[cell.key := ItemText(window.json, newState)]
      ensures window.Area(Other(cell.kind)) == old(window.Area(Other(cell.kind)))
      ensures Occurrences(cell.notified, l) == old(Occurrences(cell.notified, l)) + 1
    {
      ghost var w1 := WorldView();
      AreasSeen(cell.kind);
      SubscribeUpdateEffects(window.json, w1, cell.key, newState, l);
      var unsubscribe := CallSubscribe(cell, l);
      CallUpdater(cell, newState);
      assert WorldView() == Update(window.json, Subscribe(w1, cell.key, l), cell.key, newState);
      AreasSeen(cell.kind);
      assert WorldView().cells[cell.key] == cell.View();
    }

    /** The two bindings of SharedCellSession: the localStorage hook creates
        the cell, and the sessionStorage hook for the same key returns that
        cell and its snapshot without touching either area. */
    method BindAcrossBackends(key: string, first: Value, second: Value)
      returns (snapshot: Value, cell: StateCell)
      requires Valid() && Lawful(window.json)
      requires key !in cells && key !in window.localStorage
      modifies this, window
      ensures Valid() && fresh(cell)
      ensures snapshot == first
      ensures key in cells && cells[key] == cell
      ensures window.localStorage == SetItemTo(window.json, old(window.localStorage), key, first)
      ensures window.sessionStorage == old(window.sessionStorage)
      ensures cell.View() == CellView(key, Local, first, [], [])
    {
      ghost var w0 := WorldView();
      FirstBindAbsent(window.json, w0, key, first, Local);
      var bound := UseSyncWithLocalStorage(key, first);
      cell := bound.value.1;
      ghost var w1 := WorldView();
      RebindIgnoresArguments(window.json, w1, key, second, Session);
      var again := UseSyncWithSessionStorage(key, second);
      snapshot := again.value.0;
    }

    /** Calling the updater of a registered cell, as a consumer does with the
        setter the binding returned: the world moves by Update. */
    method CallUpdater(cell: StateCell, newState: Value)
      requires Valid() && cell.key in cells && cells[cell.key] == cell
      modifies cell`state, cell`notified, window
      ensures Valid()
      ensures WorldView() == Update(window.json, old(WorldView()), cell.key, newState)
    {
      ghost var w0 := WorldView();
      ghost var others := cells - {cell.key};
      assert others[cell.key := cell] == cells;
      ViewsInsert(others, cell.key, cell);
      ghost var otherViews := Views(others);
      ghost var before := cell.View();
      assert AreaOf(w0, cell.kind) == window.Area(cell.kind);
      assert AreaOf(w0, Other(cell.kind)) == window.Area(Other(cell.kind));
      CellIsValid(cell.key);
      cell.UpdateState(newState);
      ViewsUnchanged(others);
      ViewsInsert(others, cell.key, cell);
      ghost var w1 := WorldView();
      assert w1.cells == otherViews[cell.key := UpdatedCell(before, newState)];
      assert AreaOf(w1, cell.kind) == window.Area(cell.kind);
      assert AreaOf(w1, Other(cell.kind)) == window.Area(Other(cell.kind));
      UpdateWorld(window.json, w0, cell.key, newState, otherViews, before, w1);
      UpdatePreservesInv(window.json, w0, cell.key, newState);
    }

    /** Calling the subscribe function the binding hands to React on a
        registered cell: the world moves by Subscribe. */
    method CallSubscribe(cell: StateCell, l: Listener) returns (unsubscribe: Listener)
      requires Valid() && cell.key in cells && cells[cell.key] == cell
      modifies cell`listeners
      ensures Valid()
      ensures WorldView() == Subscribe(old(WorldView()), cell.key, l)
      ensures unsubscribe == l
    {
      ghost var w0 := WorldView();
      ghost var others := cells - {cell.key};
      assert others[cell.key := cell] == cells;
      ViewsInsert(others, cell.key, cell);
      ghost var otherViews := Views(others);
      ghost var before := cell.View();
      CellIsValid(cell.key);
      unsubscribe := cell.Subscribe(l);
      ViewsUnchanged(others);
      ViewsInsert(others, cell.key, cell);
      ghost var w1 := WorldView();
      assert w1.cells == otherViews[cell.key := before.(listeners := AddListener(before.listeners, l))];
      ListenersWorld(window.json, w0, cell.key, otherViews, before, AddListener(before.listeners, l), w1);
    }

    /** Calling the unsubscribe function that subscribe returned: the world
        moves by Unsubscribe, and the result says whether the listener was
        subscribed. */
    method CallUnsubscribe(cell: StateCell, l: Listener) returns (removed: bool)
      requires Valid() && cell.key in cells && cells[cell.key] == cell
      modifies cell`listeners
      ensures Valid()
      ensures WorldView() == Unsubscribe(old(WorldView()), cell.key, l)
      ensures removed <==> l in old(cell.listeners)
    {
      ghost var w0 := WorldView();
      ghost var others := cells - {cell.key};
      assert others[cell.key := cell] == cells;
      ViewsInsert(others, cell.key, cell);
      ghost var otherViews := Views(others);
      ghost var before := cell.View();
      CellIsValid(cell.key);
      removed := cell.Unsubscribe(l);
      ViewsUnchanged(others);
      ViewsInsert(others, cell.key, cell);
      ghost var w1 := WorldView();
      assert w1.cells == otherViews[cell.key := before.(listeners := RemoveListener(before.listeners, l))];
      ListenersWorld(window.json, w0, cell.key, otherViews, before, RemoveListener(before.listeners, l), w1);
    }
  }
}
