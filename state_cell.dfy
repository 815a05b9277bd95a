/** One persisted state cell (createStateInStorage in index.js): the current
    value, the listener set and the write-through to one storage area. */
module StateCells {
  import opened Json
  import opened WebStorage

  /** A subscriber callback, known only by its identity; invoking it only
      records the call in the cell's notification log. */
  datatype Listener = Listener(id: nat)

  /** No listener occurs twice. */
  ghost predicate NoDup(ls: seq<Listener>)
  {
    forall i, j :: 0 <= i < j < |ls| ==> ls[i] != ls[j]
  }

  /** How many times a listener occurs in a sequence (of calls, say). */
  function Occurrences(ls: seq<Listener>, l: Listener): nat
  {
    if ls == [] then 0 else (if ls[0] == l then 1 else 0) + Occurrences(ls[1..], l)
  }

  /** In a duplicate-free sequence each listener occurs once or not at all. */
  lemma {:induction false} OccursAtMostOnce(ls: seq<Listener>, l: Listener)
    requires NoDup(ls)
    ensures Occurrences(ls, l) == if l in ls then 1 else 0
  {
    if ls != [] {
      assert NoDup(ls[1..]) by {
        forall i, j | 0 <= i < j < |ls[1..]| ensures ls[1..][i] != ls[1..][j] {
          assert ls[1..][i] == ls[i + 1] && ls[1..][j] == ls[j + 1];
        }
      }
      OccursAtMostOnce(ls[1..], l);
      if ls[0] == l {
        assert l !in ls[1..] by {
          forall i | 0 <= i < |ls[1..]| ensures ls[1..][i] != l {
            assert ls[1..][i] == ls[i + 1];
          }
        }
      } else {
        assert (l in ls) == (l in ls[1..]) by {
          assert ls == [ls[0]] + ls[1..];
        }
      }
    }
  }

  /** Occurrences of a listener in a concatenation add up. */
  lemma {:induction false} OccurrencesAppend(a: seq<Listener>, b: seq<Listener>, l: Listener)
    ensures Occurrences(a + b, l) == Occurrences(a, l) + Occurrences(b, l)
  {
    if a == [] {
      assert a + b == b;
    } else {
      assert (a + b)[0] == a[0] && (a + b)[1..] == a[1..] + b;
      OccurrencesAppend(a[1..], b, l);
    }
  }

  /** Set.prototype.add on the listener set: a listener already present is not added again. */
  function AddListener(ls: seq<Listener>, l: Listener): (r: seq<Listener>)
    ensures forall x :: x in r <==> x in ls || x == l
    ensures NoDup(ls) ==> NoDup(r)
    ensures l in ls ==> r == ls
  {
    if l in ls then ls else ls + [l]
  }

  /** Set.prototype.delete on the listener set: only the given listener goes,
      the others keep their order (RemoveKeepsOrder). */
  function RemoveListener(ls: seq<Listener>, l: Listener): (r: seq<Listener>)
    ensures forall x :: x in r <==> x in ls && x != l
    ensures NoDup(ls) ==> NoDup(r)
    ensures l !in ls ==> r == ls
    ensures |r| <= |ls|
  {
    if ls == [] then []
    else if ls[0] == l then RemoveListener(ls[1..], l)
    else
      var rest := RemoveListener(ls[1..], l);
      assert NoDup(ls) ==> NoDup(ls[1..]) && ls[0] !in ls[1..] by {
        if NoDup(ls) {
          forall i, j | 0 <= i < j < |ls[1..]| ensures ls[1..][i] != ls[1..][j] {
            assert ls[1..][i] == ls[i + 1] && ls[1..][j] == ls[j + 1];
          }
          forall i | 0 <= i < |ls[1..]| ensures ls[1..][i] != ls[0] {
            assert ls[1..][i] == ls[i + 1];
          }
        }
      }
      assert l !in ls ==> [ls[0]] + rest == ls;
      [ls[0]] + rest
  }

  /** Deleting a member of a duplicate-free set leaves the listeners before
      it and after it in their insertion order. */
  lemma {:induction false} RemoveKeepsOrder(before: seq<Listener>, l: Listener, after: seq<Listener>)
    requires l !in before && l !in after
    ensures RemoveListener(before + [l] + after, l) == before + after
  {
    var ls := before + [l] + after;
    if before == [] {
      assert ls[0] == l && ls[1..] == after;
    } else {
      assert ls[0] == before[0] && ls[0] != l;
      assert ls[1..] == before[1..] + [l] + after;
      RemoveKeepsOrder(before[1..], l, after);
      assert [ls[0]] + (before[1..] + after) == before + after;
    }
  }

  /** Subscribing a listener twice leaves it in the set once. */
  lemma SubscribeTwiceIsOnce(ls: seq<Listener>, l: Listener)
    requires NoDup(ls)
    ensures AddListener(AddListener(ls, l), l) == AddListener(ls, l)
    ensures Occurrences(AddListener(ls, l), l) == 1
  {
    OccursAtMostOnce(AddListener(ls, l), l);
  }

  /** Unsubscribing removes the listener for good; a second call changes nothing. */
  lemma UnsubscribeIdempotent(ls: seq<Listener>, l: Listener)
    ensures RemoveListener(RemoveListener(ls, l), l) == RemoveListener(ls, l)
    ensures Occurrences(RemoveListener(ls, l), l) == 0
  {
    NoOccurrencesWhenAbsent(RemoveListener(ls, l), l);
  }

  /** A listener that is absent does not occur. */
  lemma {:induction false} NoOccurrencesWhenAbsent(ls: seq<Listener>, l: Listener)
    requires l !in ls
    ensures Occurrences(ls, l) == 0
  {
    if ls != [] {
      assert l !in ls[1..] by {
        forall i | 0 <= i < |ls[1..]| ensures ls[1..][i] != l {
          assert ls[1..][i] == ls[i + 1];
        }
      }
      NoOccurrencesWhenAbsent(ls[1..], l);
    }
  }

  /** The observable state of a cell. */
  datatype CellView = CellView(
    key: string,
    kind: BackendKind,
    state: Value,
    listeners: seq<Listener>,
    notified: seq<Listener>)

  /** Creation: the starting state and the area afterwards, or the parse error
      getItem throws. A key that is present (even as "undefined") is adopted
      without a write; an absent key takes the initial state and writes it. */
  function Created(json: Codec, area: StorageArea, key: string, initialState: Value)
    : (r: Result<(Value, StorageArea)>)
    ensures r.Failure? <==> GetItemFrom(json, area, key).Failure?
    ensures r.Success? ==> r.value.1.Keys == area.Keys + {key}
    ensures r.Success? ==> (r.value.1 == area <==> key in area)
    ensures r.Success? && key !in area ==> r.value.0 == initialState
  {
    match GetItemFrom(json, area, key)
    case Failure(e) => Failure(e)
    case Success(stored) =>
      if IsItemIn(area, key) then Success((stored, area))
      else Success((initialState, SetItemTo(json, area, key, initialState)))
  }

  /** The cell's in-memory state is the last value written to or read from
      its key: the key is stored, and its text is the text written for the
      state or the text the state was decoded from. */
  ghost predicate Coherent(json: Codec, area: StorageArea, cell: CellView)
  {
    cell.key in area &&
    (area[cell.key] == ItemText(json, cell.state) || GetItemFrom(json, area, cell.key) == Success(cell.state))
  }

  /** A coherent cell whose state is representable (or `undefined`) reads back
      from storage exactly as its snapshot. */
  lemma CoherentReadsBack(json: Codec, area: StorageArea, cell: CellView)
    requires Coherent(json, area, cell)
    ensures Lawful(json) && (Representable(cell.state) || cell.state == Undefined) ==>
              GetItemFrom(json, area, cell.key) == Success(cell.state)
  {
    if Lawful(json) && (Representable(cell.state) || cell.state == Undefined)
       && area[cell.key] == ItemText(json, cell.state) {
      SetThenGet(json, area, cell.key, cell.state);
      assert SetItemTo(json, area, cell.key, cell.state) == area;
    }
  }

  /** Creation with the key absent: the snapshot is the initial state, and the
      area afterwards holds its text for the key and nothing else new. */
  lemma CreateAbsent(json: Codec, area: StorageArea, key: string, initialState: Value, kind: BackendKind)
    requires Lawful(json)
    requires key !in area
    ensures Created(json, area, key, initialState)
              == Success((initialState, SetItemTo(json, area, key, initialState)))
    ensures Coherent(json, SetItemTo(json, area, key, initialState), CellView(key, kind, initialState, [], []))
  {
    MissingReadsNull(json, area, key);
  }

  /** Creation with the key present: the snapshot is the decoded stored value,
      the area is unchanged, and an error only comes from malformed text. */
  lemma CreatePresent(json: Codec, area: StorageArea, key: string, initialState: Value)
    requires key in area
    ensures (Created(json, area, key, initialState).Failure?
             <==> GetItemFrom(json, area, key).Failure?)
    ensures Created(json, area, key, initialState).Success? ==>
              Created(json, area, key, initialState)
                == Success((GetItemFrom(json, area, key).value, area))
  {
  }

  /** A stored "undefined" counts as present: the cell adopts `undefined`,
      not the initial state. */
  lemma CreateFromSentinel(json: Codec, area: StorageArea, key: string, initialState: Value)
    requires key in area && area[key] == Sentinel
    ensures Created(json, area, key, initialState) == Success((Undefined, area))
  {
  }

  /** updateState: the new state, every listener called once more, same listeners. */
  function UpdatedCell(cell: CellView, newState: Value): (r: CellView)
    ensures r.key == cell.key && r.kind == cell.kind && r.listeners == cell.listeners
    ensures r.state == newState
    ensures NoDup(cell.listeners) ==>
              forall l :: Occurrences(r.notified, l) == Occurrences(cell.notified, l) + (if l in cell.listeners then 1 else 0)
  {
    var r := cell.(state := newState, notified := cell.notified + cell.listeners);
    assert NoDup(cell.listeners) ==>
      forall l :: Occurrences(r.notified, l) == Occurrences(cell.notified, l) + (if l in cell.listeners then 1 else 0) by {
      if NoDup(cell.listeners) {
        forall l ensures Occurrences(r.notified, l) == Occurrences(cell.notified, l) + (if l in cell.listeners then 1 else 0) {
          OccurrencesAppend(cell.notified, cell.listeners, l);
          OccursAtMostOnce(cell.listeners, l);
        }
      }
    }
    r
  }

  /** An update keeps the cell coherent with the area written for it. */
  lemma UpdateKeepsCoherent(json: Codec, area: StorageArea, cell: CellView, newState: Value)
    ensures Coherent(json, SetItemTo(json, area, cell.key, newState), UpdatedCell(cell, newState))
  {
  }

  /** A cell of the registry: the closure `createStateInStorage` returns,
      over `state`, `listeners` and the storage helpers, with the log of
      listener calls. */
  class StateCell {
    const key: string
    const kind: BackendKind
    const window: Window
    var state: Value
    var listeners: seq<Listener>
    var notified: seq<Listener>

    function View(): CellView
      reads this
    {
      CellView(key, kind, state, listeners, notified)
    }

    /** The listener set has set semantics, and the state agrees with storage. */
    ghost predicate Valid()
      reads this, window
    {
      NoDup(listeners) && Coherent(window.json, window.Area(kind), View())
    }

    constructor (window: Window, key: string, kind: BackendKind, state: Value)
      ensures this.window == window && this.key == key && this.kind == kind
      ensures this.state == state && listeners == [] && notified == []
    {
      this.window := window;
      this.key := key;
      this.kind := kind;
      this.state := state;
      listeners := [];
      notified := [];
    }

    /** getSnapShot: the current state, which is what the storage holds for
      the key (read back exactly when the state is storable). */
    function GetSnapShot(): (v: Value)
      requires Valid()
      reads this, window
      ensures key in window.Area(kind)
      ensures Lawful(window.json) && (Representable(v) || v == Undefined) ==>
                GetItemFrom(window.json, window.Area(kind), key) == Success(v)
    {
      CoherentReadsBack(window.json, window.Area(kind), View());
      state
    }

    /** subscribe: add the listener; the result stands for the returned unsubscribe function. */
    method Subscribe(l: Listener) returns (unsubscribe: Listener)
      requires Valid()
      modifies this`listeners
      ensures Valid()
      ensures listeners == AddListener(old(listeners), l)
      ensures unsubscribe == l
    {
      listeners := AddListener(listeners, l);
      unsubscribe := l;
    }

    /** The unsubscribe function subscribe returns: delete that listener,
      answering whether it was subscribed, as Set.prototype.delete does. */
    method Unsubscribe(l: Listener) returns (removed: bool)
      requires Valid()
      modifies this`listeners
      ensures Valid()
      ensures listeners == RemoveListener(old(listeners), l)
      ensures removed <==> l in old(listeners)
    {
      removed := l in listeners;
      listeners := RemoveListener(listeners, l);
    }

    /** Calling one listener: its call is recorded. */
    method Invoke(l: Listener)
      modifies this`notified
      ensures notified == old(notified) + [l]
    {
      notified := notified + [l];
    }

    /** updateState: assign, write through, then call every listener in the
      set, in insertion order; no comparison with the old state. */
    method UpdateState(newState: Value)
      requires Valid()
      modifies this`state, this`notified, window
      ensures Valid()
      ensures View() == UpdatedCell(old(View()), newState)
      ensures window.Area(kind) == SetItemTo(window.json, old(window.Area(kind)), key, newState)
      ensures window.Area(Other(kind)) == old(window.Area(Other(kind)))
    {
      state := newState;
      window.SetItem(kind, key, newState);
      var i := 0;
      while i < |listeners|
        invariant 0 <= i <= |listeners|
        invariant notified == old(notified) + listeners[..i]
        modifies this`notified
      {
        Invoke(listeners[i]);
        i := i + 1;
      }
      assert listeners[..i] == listeners;
    }
  }

  /** createStateInStorage: read the key (throwing on malformed text), then
      adopt the stored value or write the initial state. */
  method CreateStateInStorage(window: Window, storageKey: string, initialState: Value, kind: BackendKind)
    returns (r: Result<StateCell>)
    modifies window
    ensures var c := Created(window.json, old(window.Area(kind)), storageKey, initialState);
            && (r.Failure? <==> c.Failure?)
            && (r.Failure? ==> r.error == c.error && window.Area(kind) == old(window.Area(kind)))
            && (r.Success? ==>
                  && fresh(r.value) && r.value.window == window && r.value.Valid()
                  && r.value.View() == CellView(storageKey, kind, c.value.0, [], [])
                  && window.Area(kind) == c.value.1)
    ensures window.Area(Other(kind)) == old(window.Area(Other(kind)))
  {
    var storedState := GetItemFrom(window.json, window.Area(kind), storageKey);
    if storedState.Failure? {
      return Failure(storedState.error);
    }
    var present := IsItemIn(window.Area(kind), storageKey);
    var cell := new StateCell(window, storageKey, kind, if present then storedState.value else initialState);
    if !present {
      window.SetItem(kind, storageKey, initialState);
    }
    r := Success(cell);
  }
}
