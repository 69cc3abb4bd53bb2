/**
 * The Streamlit session state: one mutable dictionary from key to value that
 * every callback reads and updates in place.
 */
module Session {

  /** One generated document kept in the session history. */
  datatype HistoryEntry = HistoryEntry(title: string, content: string, timestamp: string)

  /** The kinds of Python value the callbacks store in the session. */
  datatype Value =
    | Str(s: string)
    | Lst(items: seq<string>)
    | Bool(b: bool)
    | NoneVal
    | History(entries: seq<HistoryEntry>)

  /** Python truthiness (`if value:`). */
  predicate Truthy(v: Value) {
    match v
    case Str(s) => s != ""
    case Lst(items) => items != []
    case Bool(b) => b
    case NoneVal => false
    case History(entries) => entries != []
  }

  type State = map<string, Value>

  /** `st.session_state`. */
  class SessionState {
    var state: State
  }

  /** The key holding the chosen category of a hierarchical field (`f"{key}_cat"`). */
  function CatKey(key: string): string {
    key + "_cat"
  }

  /** The key holding the chosen item of a hierarchical field (`f"{key}_sel"`). */
  function SelKey(key: string): string {
    key + "_sel"
  }

  /** `m[k]` exists and is a string. */
  predicate HoldsStr(m: State, k: string) {
    k in m && m[k].Str?
  }

  /** `m[k]` exists and is a list of strings. */
  predicate HoldsList(m: State, k: string) {
    k in m && m[k].Lst?
  }
}
