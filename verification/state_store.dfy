/**
 * The state store: `state_<COUNTRY_CODE>.json`, read once at the start of a
 * run and overwritten at the end. Reading the file and JSON text
 * (de)serialisation are not modelled; the file is given as what `json.loads`
 * made of it.
 */
module StateStore {
  import opened Wrappers
  import opened Json

  /** The state file as `load_previous_state` finds it. */
  datatype StateFile =
    | Missing                         // `state_file.exists()` is false
    | Present(parsed: Option<Value>)  // None: reading or `json.loads` raised

  /**
   * `load_previous_state` as written: a missing or unreadable file gives `{}`,
   * but any document that parses is returned as is, dict or not.
   */
  function LoadAsWritten(file: StateFile): (v: Value)
    ensures file.Missing? ==> v == Object(map[])
    ensures file.Present? && file.parsed.None? ==> v == Object(map[])
    ensures file.Present? && file.parsed.Some? ==> v == file.parsed.value
  {
    match file
    case Missing => Object(map[])
    case Present(parsed) => parsed.GetOr(Object(map[]))
  }

  /**
   * `load_previous_state` as intended: the previous state is always a dict;
   * a file that is missing, unreadable, or holds anything but a JSON object
   * gives the empty state.
   */
  function Load(file: StateFile): (state: map<string, Value>)
    ensures LoadAsWritten(file).Object? ==> state == LoadAsWritten(file).fields
    ensures !LoadAsWritten(file).Object? ==> state == map[]
    ensures file.Missing? || file.parsed.None? ==> state == map[]
  {
    match file
    case Present(Some(Object(fields))) => fields
    case _ => map[]
  }

  /** `save_state`: the file is overwritten with the whole state, which the next load returns. */
  function Save(state: map<string, Value>): (file: StateFile)
    ensures Load(file) == state
    ensures LoadAsWritten(file) == Object(state)
  {
    Present(Some(Object(state)))
  }
}
