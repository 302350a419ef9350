/**
 * The browser's local key-value store, reduced to what the todo adapter
 * observes: the value under each key, seen through JSON.parse, and which of
 * setItem, getItem and removeItem throw for which key.
 */
module WebStorage {
  import opened TodoTypes

  /**
   * A stored string as JSON.parse sees it: the empty string, text that is not
   * JSON (a SyntaxError), JSON that is not an array, or an array of todos.
   */
  datatype Stored = EmptyString | NotJson | JsonNonArray | JsonArray(elements: seq<Todo>)

  /** What setItem throws: a DOMException (its name and legacy numeric code) or any other error. */
  datatype SetFault = DomException(name: string, code: int) | OtherError

  /** The outcome of getItem: the stored value (None for null) or an exception. */
  datatype Read = Value(stored: Option<Stored>) | ReadThrew

  /** The value under `key`, None when the key is absent (getItem's null). */
  function Lookup(items: map<string, Stored>, key: string): Option<Stored> {
    if key in items then Some(items[key]) else None
  }

  class LocalStorage {
    var items: map<string, Stored>
    /** The keys whose setItem throws, with the exception thrown. */
    const setFaults: map<string, SetFault>
    /** The keys whose getItem throws. */
    const getFaults: set<string>
    /** The keys whose removeItem throws. */
    const removeFaults: set<string>

    constructor (items: map<string, Stored>, setFaults: map<string, SetFault>,
                 getFaults: set<string>, removeFaults: set<string>)
      ensures this.items == items && this.setFaults == setFaults
      ensures this.getFaults == getFaults && this.removeFaults == removeFaults
    {
      this.items := items;
      this.setFaults := setFaults;
      this.getFaults := getFaults;
      this.removeFaults := removeFaults;
    }

    /** Writes `value` under `key`, or throws and writes nothing. */
    method SetItem(key: string, value: Stored) returns (thrown: Option<SetFault>)
      modifies this
      ensures key in setFaults ==> thrown == Some(setFaults[key]) && items == old(items)
      ensures key !in setFaults ==> thrown == None && items == old(items)[key := value]
    {
      if key in setFaults {
        thrown := Some(setFaults[key]);
      } else {
        thrown := None;
        items := items[key := value];
      }
    }

    function GetItem(key: string): Read
      reads this
    {
      if key in getFaults then ReadThrew else Value(Lookup(items, key))
    }

    /** Deletes `key` (a missing key is not an error), or throws and deletes nothing. */
    method RemoveItem(key: string) returns (threw: bool)
      modifies this
      ensures threw == (key in removeFaults)
      ensures items == if threw then old(items) else old(items) - {key}
    {
      threw := key in removeFaults;
      if !threw {
        items := items - {key};
      }
    }
  }
}
