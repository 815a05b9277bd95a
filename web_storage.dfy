/** The two browser storage areas (localStorage and sessionStorage, section 12
    of the WHATWG HTML Living Standard) as string maps, and the storage helpers
    of index.js that read, write and test one key through the JSON codec. */
module WebStorage {
  import opened Json

  /** The key/value list of one storage area. */
  type StorageArea = map<string, string>

  /** Which area a binding persists to: localStorage or sessionStorage. */
  datatype BackendKind = Local | Session

  function Other(kind: BackendKind): (r: BackendKind)
    ensures r != kind
  {
    if kind == Local then Session else Local
  }

  /** Storage.getItem: the stored text, or null for a missing key. */
  datatype RawItem = Missing | Text(text: string)

  function RawGetItem(area: StorageArea, key: string): (r: RawItem)
    ensures r.Text? <==> key in area
    ensures r.Text? ==> r.text == area[key]
  {
    if key in area then Text(area[key]) else Missing
  }

  /** `key in storage`: the key is one of the area's stored keys (names the
      Storage object inherits are not modelled). */
  predicate InOperator(area: StorageArea, key: string): (r: bool)
    ensures r <==> RawGetItem(area, key).Text?
  {
    key in area
  }

  /** The text Storage.setItem keeps for JSON.stringify(value): the string
      conversion turns the `undefined` that stringify returns into "undefined". */
  function ItemText(json: Codec, value: Value): (t: string)
    ensures Lawful(json) && Representable(value) ==> json.parse(t) == Success(value)
    ensures Lawful(json) && (Representable(value) || value == Undefined) ==> (t == Sentinel <==> value == Undefined)
  {
    if value == Undefined then Sentinel else json.stringify(value)
  }

  /** getItemFromLocalStorage / getItemFromSessionStorage over one area. */
  function GetItemFrom(json: Codec, area: StorageArea, key: string): (r: Result<Value>)
    ensures Lawful(json) ==> (r == Success(Undefined) <==> key in area && area[key] == Sentinel)
    ensures Lawful(json) && key !in area ==> r == Success(Null)
  {
    match RawGetItem(area, key)
    case Text(item) => if item != Sentinel then json.parse(item) else Success(Undefined)
    case Missing => json.parse(NullText)
  }

  /** setItemToLocalStorage / setItemToSessionStorage over one area. */
  function SetItemTo(json: Codec, area: StorageArea, key: string, value: Value): (r: StorageArea)
    ensures r.Keys == area.Keys + {key}
    ensures r[key] == ItemText(json, value)
    ensures forall k :: k in area && k != key ==> r[k] == area[k]
  {
    area[key := ItemText(json, value)]
  }

  /** isItemInLocalStorage / isItemInSessionStorage over one area: true exactly
      when the key is stored, whatever its text (also "undefined"). */
  predicate IsItemIn(area: StorageArea, key: string): (r: bool)
    ensures r <==> key in area
  {
    InOperator(area, key) && RawGetItem(area, key) != Missing
  }

  /** Writing a value and reading it back gives the value, for every
      representable value and for `undefined`. */
  lemma SetThenGet(json: Codec, area: StorageArea, key: string, value: Value)
    requires Lawful(json)
    requires Representable(value) || value == Undefined
    ensures IsItemIn(SetItemTo(json, area, key, value), key)
    ensures GetItemFrom(json, SetItemTo(json, area, key, value), key) == Success(value)
  {
    if value != Undefined {
      StringifyAvoidsSentinel(json, value);
    }
  }

  /** A missing key reads as null (JSON.parse(null)) and never fails. */
  lemma MissingReadsNull(json: Codec, area: StorageArea, key: string)
    requires Lawful(json)
    requires key !in area
    ensures !IsItemIn(area, key)
    ensures GetItemFrom(json, area, key) == Success(Null)
  {
    ParseNullText(json);
  }

  /** Writing one key changes nothing that can be observed at another key. */
  lemma SetLeavesOtherKeys(json: Codec, area: StorageArea, key: string, value: Value, other: string)
    requires other != key
    ensures IsItemIn(SetItemTo(json, area, key, value), other) == IsItemIn(area, other)
    ensures GetItemFrom(json, SetItemTo(json, area, key, value), other) == GetItemFrom(json, area, other)
  {
  }

  /** The last write to a key wins: writing twice is writing the second value. */
  lemma SetOverwrites(json: Codec, area: StorageArea, key: string, first: Value, second: Value)
    ensures SetItemTo(json, SetItemTo(json, area, key, first), key, second) == SetItemTo(json, area, key, second)
  {
    assert SetItemTo(json, area, key, first)[key := ItemText(json, second)] == area[key := ItemText(json, second)];
  }

  /** The global object's storage areas and its JSON codec. */
  class Window {
    const json: Codec
    var localStorage: StorageArea
    var sessionStorage: StorageArea

    constructor (json: Codec, localStorage: StorageArea, sessionStorage: StorageArea)
      ensures this.json == json
      ensures this.localStorage == localStorage && this.sessionStorage == sessionStorage
    {
      this.json := json;
      this.localStorage := localStorage;
      this.sessionStorage := sessionStorage;
    }

    /** The area a backend kind stands for. */
    function Area(kind: BackendKind): StorageArea
      reads this
    {
      match kind
      case Local => localStorage
      case Session => sessionStorage
    }

    /** setItemToLocalStorage / setItemToSessionStorage on the global areas. */
    method SetItem(kind: BackendKind, key: string, value: Value)
      modifies this
      ensures Area(kind) == SetItemTo(json, old(Area(kind)), key, value)
      ensures Area(Other(kind)) == old(Area(Other(kind)))
    {
      match kind
      case Local => localStorage := SetItemTo(json, localStorage, key, value);
      case Session => sessionStorage := SetItemTo(json, sessionStorage, key, value);
    }
  }
}
