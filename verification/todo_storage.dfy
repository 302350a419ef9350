/**
 * The storage adapter: the whole todo collection lives under one key of the
 * local store. Saving classifies failures into typed errors, loading never
 * fails, clearing swallows errors and the availability probe never throws.
 */
module TodoStorage {
  import opened TodoTypes
  import opened WebStorage

  datatype StorageErrorCode = Unavailable | QuotaExceeded | SaveError | LoadError

  /** The StorageError exception: a message and a code. */
  datatype StorageError = StorageError(message: string, code: StorageErrorCode)

  /** What saveTodos does: return normally, or throw a StorageError. */
  datatype SaveResult = Saved | SaveFailed(error: StorageError)

  /** The fixed user-facing message of each code: always a full sentence. */
  function ErrorMessage(code: StorageErrorCode): (m: string)
    ensures |m| > 0 && m[|m| - 1] == '.'
  {
    match code
    case Unavailable => "Storage is not available. Your todos will not be saved."
    case QuotaExceeded => "Storage limit reached. Please delete some todos to free up space."
    case SaveError => "Failed to save your changes. Please try again."
    case LoadError => "Failed to load your todos. Please refresh the page."
  }

  lemma ErrorMessageTable()
    ensures ErrorMessage(Unavailable) == "Storage is not available. Your todos will not be saved."
    ensures ErrorMessage(QuotaExceeded) == "Storage limit reached. Please delete some todos to free up space."
    ensures ErrorMessage(SaveError) == "Failed to save your changes. Please try again."
    ensures ErrorMessage(LoadError) == "Failed to load your todos. Please refresh the page."
  {
  }

  /** A message names its code: no two codes share a message. */
  lemma ErrorMessagesDistinct(a: StorageErrorCode, b: StorageErrorCode)
    ensures ErrorMessage(a) == ErrorMessage(b) ==> a == b
  {
  }

  /** The key the availability probe writes and removes, and the text it writes ('test', not JSON). */
  const ProbeKey: string := "__storage_test__"
  const ProbeValue: Stored := NotJson

  /** A DOMException named QuotaExceededError or carrying the legacy code 22. */
  predicate IsQuotaError(f: SetFault): (quota: bool)
    ensures f.DomException? && f.name == "QuotaExceededError" ==> quota
    ensures f.DomException? && f.code == 22 ==> quota
    ensures f.OtherError? ==> !quota
  {
    f.DomException? && (f.name == "QuotaExceededError" || f.code == 22)
  }

  /**
   * Only those two forms are recognised: a DOMException with any other name
   * and code, such as the NS_ERROR_DOM_QUOTA_REACHED / 1014 pair, is not a
   * quota error, and a failed save is classified by the probe instead.
   */
  lemma OtherDomExceptionNotQuota(name: string, code: int, s: LocalStorage, key: string)
    requires name != "QuotaExceededError" && code != 22
    requires key in s.setFaults && s.setFaults[key] == DomException(name, code)
    ensures !IsQuotaError(DomException(name, code))
    ensures SaveFailureCode(s, key) == (if ProbeSucceeds(s) then SaveError else Unavailable)
  {
  }

  /** Whether the probe's write and removal of ProbeKey both go through. */
  predicate ProbeSucceeds(storage: LocalStorage) {
    ProbeKey !in storage.setFaults && ProbeKey !in storage.removeFaults
  }

  /** The store contents after the probe has run on contents `items`. */
  function AfterProbe(storage: LocalStorage, items: map<string, Stored>): (r: map<string, Stored>)
    ensures forall k :: k != ProbeKey ==> Lookup(r, k) == Lookup(items, k)
    ensures ProbeSucceeds(storage) ==> ProbeKey !in r
    ensures ProbeKey in storage.setFaults ==> r == items
  {
    if ProbeKey in storage.setFaults then items
    else if ProbeKey in storage.removeFaults then items[ProbeKey := ProbeValue]
    else items - {ProbeKey}
  }

  /** isStorageAvailable: never throws; true iff the probe write and removal both succeed. */
  method IsStorageAvailable(storage: LocalStorage) returns (available: bool)
    modifies storage
    ensures available <==> ProbeSucceeds(storage)
    ensures storage.items == AfterProbe(storage, old(storage.items))
  {
    var thrown := storage.SetItem(ProbeKey, ProbeValue);
    if thrown.Some? {
      return false;
    }
    var threw := storage.RemoveItem(ProbeKey);
    available := !threw;
  }

  /** The code of a failed save: quota first, then availability, then the generic save error. */
  function SaveFailureCode(storage: LocalStorage, key: string): (code: StorageErrorCode)
    requires key in storage.setFaults
    ensures code != LoadError
    ensures code == QuotaExceeded <==> IsQuotaError(storage.setFaults[key])
    ensures code == SaveError <==> !IsQuotaError(storage.setFaults[key]) && ProbeSucceeds(storage)
    ensures code == Unavailable <==> !IsQuotaError(storage.setFaults[key]) && !ProbeSucceeds(storage)
    ensures key == ProbeKey ==> code != SaveError
  {
    if IsQuotaError(storage.setFaults[key]) then QuotaExceeded
    else if !ProbeSucceeds(storage) then Unavailable
    else SaveError
  }

  /** loadTodos: never throws; the stored array verbatim, otherwise the empty list. */
  function LoadTodos(storage: LocalStorage, key: string): (r: seq<Todo>)
    reads storage
    ensures key !in storage.getFaults && Lookup(storage.items, key).Some?
            && Lookup(storage.items, key).value.JsonArray?
            ==> r == Lookup(storage.items, key).value.elements
    ensures r != [] ==> key !in storage.getFaults && Lookup(storage.items, key) == Some(JsonArray(r))
  {
    match storage.GetItem(key)
    case ReadThrew => []
    case Value(None) => []
    case Value(Some(stored)) =>
      match stored
      case EmptyString => []
      case NotJson => []
      case JsonNonArray => []
      case JsonArray(todos) => todos
  }

  /**
   * The whole store after `saveTodos(candidate)` on `items`: the key holds the
   * candidate if the write goes through; a quota fault leaves everything as it
   * was; any other fault leaves only the availability probe's trace.
   */
  function StoreAfterSave(storage: LocalStorage, items: map<string, Stored>, key: string,
                          candidate: seq<Todo>): (r: map<string, Stored>)
    ensures key !in storage.setFaults ==> Lookup(r, key) == Some(JsonArray(candidate))
    ensures key in storage.setFaults ==> Lookup(r, key) == Lookup(items, key)
    ensures forall k :: k != key && k != ProbeKey ==> Lookup(r, k) == Lookup(items, k)
  {
    if key !in storage.setFaults then items[key := JsonArray(candidate)]
    else if IsQuotaError(storage.setFaults[key]) then items
    else AfterProbe(storage, items)
  }

  /**
   * saveTodos: on success the key holds exactly `todos` and nothing else
   * changed; on failure the value under the key is untouched and the thrown
   * error carries the classified code and that code's fixed message.
   */
  method SaveTodos(storage: LocalStorage, todos: seq<Todo>, key: string) returns (result: SaveResult)
    modifies storage
    ensures result.Saved? <==> key !in storage.setFaults
    ensures result.Saved? ==> storage.items == old(storage.items)[key := JsonArray(todos)]
    ensures result.Saved? && key !in storage.getFaults ==> LoadTodos(storage, key) == todos
    ensures result.SaveFailed? ==>
              var code := SaveFailureCode(storage, key);
              result.error == StorageError(ErrorMessage(code), code)
    ensures result.SaveFailed? ==> Lookup(storage.items, key) == Lookup(old(storage.items), key)
    ensures storage.items == StoreAfterSave(storage, old(storage.items), key, todos)
  {
    var thrown := storage.SetItem(key, JsonArray(todos));
    if thrown == None {
      return Saved;
    }
    var fault := thrown.value;
    if IsQuotaError(fault) {
      return SaveFailed(StorageError(ErrorMessage(QuotaExceeded), QuotaExceeded));
    }
    var available := IsStorageAvailable(storage);
    if !available {
      return SaveFailed(StorageError(ErrorMessage(Unavailable), Unavailable));
    }
    return SaveFailed(StorageError(ErrorMessage(SaveError), SaveError));
  }

  /** clearTodos: removes only `key`; a failing removal is swallowed and changes nothing. */
  method ClearTodos(storage: LocalStorage, key: string)
    modifies storage
    ensures key !in storage.removeFaults ==> storage.items == old(storage.items) - {key}
    ensures key in storage.removeFaults ==> storage.items == old(storage.items)
  {
    var _ := storage.RemoveItem(key);
  }
}
