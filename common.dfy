/**
 * Shared vocabulary of the supervision model: optional values, the faults the
 * Python code raises, the cells of caches and output rows, the sentinel pid of
 * the system dispatcher, and the thread handle that carries `should_exit`.
 */
module Common {

  datatype Option<T> = None | Some(value: T)

  /** The Python exceptions the modelled code raises or catches. */
  datatype Fault =
    | NotFound        // one of PSUTIL_NOTFOUND_ERRORS: the process is gone or unreadable
    | ValueError      // to_human_readable with an unsupported base
    | ModuleNotFound  // no tracer module could be imported
    | AttributeError  // getattr on a module that lacks the name, or an unset attribute
    | KeyError        // a dict lookup of an absent key
    | IndexError      // indexing an empty list

  datatype Result<T> = Ok(value: T) | Err(fault: Fault)

  /** DEFAULT_SYSTEM_INDICATOR_PID: the key of the system dispatcher. */
  const SYSTEM_PID: int := -1

  /** The text a cache field holds before its first sample. */
  const NA: string := "NA"

  /**
   * One field of a frontend cache or one column of an output row.  Integers and
   * names are kept as their exact text; real numbers are kept as values because
   * `str(round(x, 2))` is not modelled.
   */
  datatype Cell =
    | Text(s: string)                 // a string, or the exact str() of an integer
    | Num(x: real)                    // str(x) or str(round(x, 2)) of a float
    | Percent(x: real)                // str(round(x, 2)) + "%"
    | Scaled(x: real, unit: string)   // to_human_readable: str(round(x, 2)) + unit

  type Row = seq<Cell>

  /** A row made of header names. */
  function HeaderRow(names: seq<string>): (r: Row)
    ensures |r| == |names|
    ensures forall i :: 0 <= i < |names| ==> r[i] == Text(names[i])
  {
    if names == [] then [] else [Text(names[0])] + HeaderRow(names[1..])
  }

  /**
   * The part of `threading.Thread` the supervision code relies on: the class
   * name that keys a dispatcher's pool, and the cooperative `should_exit` flag.
   */
  class Thread {
    const className: string
    var shouldExit: bool

    constructor (className: string)
      ensures this.className == className && !shouldExit
    {
      this.className := className;
      shouldExit := false;
    }
  }

  /** A non-empty set of pids has a member to pick. */
  lemma NonEmptyHasMember(s: set<int>)
    requires s != {}
    ensures exists x :: x in s
  {
    assert (forall x :: x !in s) ==> s == {};
  }
}
