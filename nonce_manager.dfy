/** The persistent global nonce of the signing service: a one-field state
    machine whose every change is written back to its store. */
module NonceManagement {
  import opened Wrappers

  /** What loading finds in the nonce file. */
  datatype StoredNonce =
    | NoFile                      // the file does not exist
    | Unreadable                  // an I/O error, or text that is not JSON
    | NotAnObject                 // valid JSON whose top level is not an object
    | Record(nonce: Option<int>)  // a JSON object, with or without a "nonce" field

  datatype NonceError =
    | EmptyPath       // ValueError("nonce_file_path is required")
    | NoDirectory     // os.makedirs("") fails: the path names no directory
    | NotADictionary  // AttributeError from `.get` on a non-object JSON document

  /** `os.path.dirname(path)` is empty exactly when the path has no '/'. */
  predicate HasDirectory(path: string) {
    exists i :: 0 <= i < |path| && path[i] == '/'
  }

  /** The value `_load_nonce` leaves in `current_nonce`, or the exception it lets escape. */
  function LoadedNonce(stored: StoredNonce): (r: Result<int, NonceError>)
    ensures r.Err? <==> stored.NotAnObject?
    ensures r.Ok? && r.value != 0 ==> stored.Record? && stored.nonce == Some(r.value)
    ensures stored.Record? && stored.nonce.Some? ==> r == Ok(stored.nonce.value)
    ensures stored.NoFile? || stored.Unreadable? || stored == Record(None) ==> r == Ok(0)
  {
    match stored
    case NoFile => Ok(0)
    case Unreadable => Ok(0)
    case NotAnObject => Err(NotADictionary)
    case Record(n) => Ok(if n.Some? then n.value else 0)
  }

  /** The file content after loading: a missing file is created holding nonce 0. */
  function StoredAfterLoad(stored: StoredNonce): StoredNonce {
    if stored.NoFile? then Record(Some(0)) else stored
  }

  class NonceManager {
    const path: string
    var currentNonce: int
    /** The nonce file as it is on disk. */
    var stored: StoredNonce

    /** `__init__` once the path has been checked: load from the store. */
    constructor (path: string, stored: StoredNonce)
      requires path != [] && HasDirectory(path) && LoadedNonce(stored).Ok?
      ensures this.path == path
      ensures currentNonce == LoadedNonce(stored).value
      ensures this.stored == StoredAfterLoad(stored)
    {
      this.path := path;
      match stored {
        case Record(n) =>
          currentNonce := if n.Some? then n.value else 0;
          this.stored := stored;
        case NoFile =>
          currentNonce := 0;
          this.stored := Record(Some(0));
        case Unreadable =>
          currentNonce := 0;
          this.stored := stored;
      }
    }

    /** `get_next_nonce`: increment, persist, return the new value. */
    method GetNextNonce() returns (n: int)
      modifies this
      ensures currentNonce == old(currentNonce) + 1
      ensures n == currentNonce
      ensures stored == Record(Some(n))
    {
      currentNonce := currentNonce + 1;
      stored := Record(Some(currentNonce));
      n := currentNonce;
    }

    /** `get_current_nonce`: read without changing anything. */
    method GetCurrentNonce() returns (n: int)
      ensures n == currentNonce
    {
      n := currentNonce;
    }
  }

  /** `NonceManager(nonce_file_path)`, with the constructor's failure modes. */
  method NewNonceManager(path: string, stored: StoredNonce) returns (r: Result<NonceManager, NonceError>)
    ensures path == [] ==> r == Err(EmptyPath)
    ensures path != [] && !HasDirectory(path) ==> r == Err(NoDirectory)
    ensures path != [] && HasDirectory(path) && stored.NotAnObject? ==> r == Err(NotADictionary)
    ensures r.Ok? <==> path != [] && HasDirectory(path) && !stored.NotAnObject?
    ensures r.Ok? ==> fresh(r.value) && r.value.path == path
                      && r.value.currentNonce == LoadedNonce(stored).value
                      && r.value.stored == StoredAfterLoad(stored)
  {
    if path == [] {
      return Err(EmptyPath);
    }
    if !HasDirectory(path) {
      return Err(NoDirectory);
    }
    if stored.NotAnObject? {
      return Err(NotADictionary);
    }
    var m := new NonceManager(path, stored);
    r := Ok(m);
  }

  /** A manager started on a missing, unreadable or nonce-less store issues 1 first. */
  method FirstNonceFromEmptyStore(path: string, stored: StoredNonce) returns (n: int)
    requires path != [] && HasDirectory(path)
    requires stored.NoFile? || stored.Unreadable? || stored == Record(None)
    ensures n == 1
  {
    var m := new NonceManager(path, stored);
    n := m.GetNextNonce();
  }

  /** A restart resumes where the last run stopped: a manager started on the
      store an issued nonce left behind issues the next value, so no nonce
      is issued twice across a restart. */
  method RestartResumes(m: NonceManager) returns (before: int, after: int)
    requires m.path != [] && HasDirectory(m.path)
    modifies m
    ensures after == before + 1
  {
    before := m.GetNextNonce();
    var restarted := new NonceManager(m.path, m.stored);
    after := restarted.GetNextNonce();
  }

  /** `k` successive `get_next_nonce` calls return consecutive, strictly
      increasing values, and the store always holds the last one returned. */
  method IssueNonces(m: NonceManager, k: nat) returns (issued: seq<int>)
    modifies m
    ensures |issued| == k
    ensures forall i :: 0 <= i < k ==> issued[i] == old(m.currentNonce) + i + 1
    ensures forall i, j :: 0 <= i < j < k ==> issued[i] < issued[j]
    ensures m.currentNonce == old(m.currentNonce) + k
    ensures k > 0 ==> m.stored == Record(Some(issued[k - 1]))
    ensures k == 0 ==> m.stored == old(m.stored)
  {
    issued := [];
    while |issued| < k
      invariant |issued| <= k
      invariant forall i :: 0 <= i < |issued| ==> issued[i] == old(m.currentNonce) + i + 1
      invariant m.currentNonce == old(m.currentNonce) + |issued|
      invariant |issued| > 0 ==> m.stored == Record(Some(issued[|issued| - 1]))
      invariant |issued| == 0 ==> m.stored == old(m.stored)
    {
      var n := m.GetNextNonce();
      issued := issued + [n];
    }
  }
}
