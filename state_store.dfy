/** The persisted "last seen" state: `load_state`, `save_state` and the startup defaulting. */
module StateStore {
  import opened Wrappers

  /** The state's only source key. */
  const MarkerKey: string := "COD"

  /** A JSON value as `json.load` returns it; `Other` stands for numbers, booleans and arrays. */
  datatype Json = Null | Str(s: string) | Obj(fields: map<string, Json>) | Other

  /** The state file `last_seen.json` as startup finds it. */
  datatype StateFile =
    | Absent                  // `os.path.exists` is false
    | Unopenable              // it exists, but `open` raises (a directory, no permission)
    | Stored(content: Decoded)

  /** What `json.load` makes of the file's bytes. */
  datatype Decoded = Parsed(doc: Json) | Undecodable

  /** The exceptions that end startup. */
  datatype StartupError =
    | OpenFailed    // raised by `open`, outside the `try` of `load_state`
    | NotAnObject   // `state.setdefault` on a value that is not a dict

  /** `state.get("COD")`: the marker, with a missing key read as `None`. */
  function LastSeen(state: map<string, Json>): (r: Json)
    ensures r != Null ==> MarkerKey in state && state[MarkerKey] == r
    ensures MarkerKey in state ==> r == state[MarkerKey]
    ensures MarkerKey !in state ==> r == Null
  {
    if MarkerKey in state then state[MarkerKey] else Null
  }

  /** `load_state()`: a missing or undecodable file gives `{}`; an unopenable one raises. */
  function LoadState(file: StateFile): (r: Result<Json, StartupError>)
    ensures (file.Absent? || file == Stored(Undecodable)) ==> r == Success(Obj(map[]))
    ensures r.Failure? <==> file.Unopenable?
    ensures file.Unopenable? ==> r == Failure(OpenFailed)
    ensures file.Stored? && file.content.Parsed? ==> r == Success(file.content.doc)
  {
    match file
    case Absent => Success(Obj(map[]))
    case Unopenable => Failure(OpenFailed)
    case Stored(Undecodable) => Success(Obj(map[]))
    case Stored(Parsed(doc)) => Success(doc)
  }

  /** `m.setdefault(key, default)` as a value: the key is added only when it is absent. */
  function WithDefault(m: map<string, Json>, key: string, default: Json): (r: map<string, Json>)
    ensures key in r && r.Keys == m.Keys + {key}
    ensures forall k :: k in m ==> r[k] == m[k]
    ensures key !in m ==> r[key] == default
  {
    if key in m then m else m[key := default]
  }

  /** The file holds a JSON object. */
  predicate HoldsObject(file: StateFile) {
    file.Stored? && file.content.Parsed? && file.content.doc.Obj?
  }

  /** The state the bot starts with: `load_state()` followed by `setdefault("COD", None)`. */
  function Startup(file: StateFile): (r: Result<map<string, Json>, StartupError>)
    ensures r.Success? ==> MarkerKey in r.value
    // `open` raising is not caught
    ensures file.Unopenable? ==> r == Failure(OpenFailed)
    // only the marker key can be added
    ensures HoldsObject(file) ==> r.Success? && r.value.Keys == file.content.doc.fields.Keys + {MarkerKey}
    // the defaulting keeps every value the file held
    ensures HoldsObject(file) ==>
      var fields := file.content.doc.fields;
      r.Success? && forall k :: k in fields ==> k in r.value && r.value[k] == fields[k]
    // the marker is None only where the file did not hold one, or held None
    ensures r.Success? && r.value[MarkerKey] == Null ==>
      file.Absent? || file == Stored(Undecodable) ||
      (HoldsObject(file) && LastSeen(file.content.doc.fields) == Null)
    ensures file.Absent? || file == Stored(Undecodable) ==> r == Success(map[MarkerKey := Null])
    ensures r == Failure(NotAnObject) <==> file.Stored? && file.content.Parsed? && !HoldsObject(file)
  {
    match LoadState(file)
    case Failure(e) => Failure(e)
    case Success(doc) =>
      if doc.Obj? then Success(WithDefault(doc.fields, MarkerKey, Null)) else Failure(NotAnObject)
  }

  /**
   * Persistence round trip: a state written by `save_state` after a marker was set, read
   * back at the next start (`json.dump` then `json.load` giving back the same object), is
   * the same mapping.
   */
  lemma ReloadSavedState(saved: map<string, Json>)
    requires LastSeen(saved).Str?
    ensures Startup(Stored(Parsed(Obj(saved)))) == Success(saved)
  {
  }
}
