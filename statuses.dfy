/** Status values, status lists, and how a `status` argument is resolved against a list. */
module Statuses {
  import opened Errors

  /** A named, coded state value. */
  datatype Status = Status(name: string, code: string)

  /** The fields of a status list: its name, its ordered statuses and the entity type it is for. */
  datatype StatusListRecord = StatusListRecord(name: string, statuses: seq<Status>, targetEntityType: string)

  /** A status list always holds at least one status. */
  type StatusList = l: StatusListRecord | |l.statuses| > 0
    witness StatusListRecord("", [Status("", "")], "")

  /** What may be given as `status`, to the constructor or to the setter. */
  datatype StatusArg =
    | NoStatus          // None
    | Index(i: int)     // an integer index into the list
    | Value(s: Status)  // a Status instance
    | NotAStatus        // anything else: a string, a float, a list, a dict, ...

  /**
   * The Status that `arg` selects from `l`, or the exception it raises:
   * None picks the first status, an index must lie in [0, |statuses|), a Status
   * must belong to the list, and any other kind of argument is a TypeError.
   */
  function ResolveStatus(l: StatusList, arg: StatusArg): (r: Result<Status, ErrorKind>)
    // whatever is accepted is one of the list's statuses
    ensures r.Ok? ==> r.value in l.statuses
    // the arguments that are refused, and with which kind of error
    ensures r.Err? <==> arg.NotAStatus? || (arg.Index? && !(0 <= arg.i < |l.statuses|)) || (arg.Value? && arg.s !in l.statuses)
    ensures r.Err? ==> (r.error == TypeError <==> arg.NotAStatus?)
    // what the accepted arguments select
    ensures arg.NoStatus? ==> r == Ok(l.statuses[0])
    ensures arg.Index? && 0 <= arg.i < |l.statuses| ==> r == Ok(l.statuses[arg.i])
    ensures arg.Value? && arg.s in l.statuses ==> r == Ok(arg.s)
  {
    match arg
    case NoStatus => Ok(l.statuses[0])
    case Index(i) => if 0 <= i < |l.statuses| then Ok(l.statuses[i]) else Err(ValueError)
    case Value(s) => if s in l.statuses then Ok(s) else Err(ValueError)
    case NotAStatus => Err(TypeError)
  }

  /** The position of the first occurrence of `s` in `statuses`. */
  function IndexOf(statuses: seq<Status>, s: Status): (i: nat)
    requires s in statuses
    ensures i < |statuses| && statuses[i] == s
    ensures forall j :: 0 <= j < i ==> statuses[j] != s
  {
    if statuses[0] == s then 0 else 1 + IndexOf(statuses[1..], s)
  }

  /** Assigning back the status just read is accepted and changes nothing. */
  lemma ReassignIsIdempotent(l: StatusList, arg: StatusArg)
    requires ResolveStatus(l, arg).Ok?
    ensures ResolveStatus(l, Value(ResolveStatus(l, arg).value)) == ResolveStatus(l, arg)
  {
  }

  /** Every status of the list can be selected by its index as well as by value. */
  lemma IndexOfSelects(l: StatusList, s: Status)
    requires s in l.statuses
    ensures ResolveStatus(l, Index(IndexOf(l.statuses, s))) == ResolveStatus(l, Value(s)) == Ok(s)
  {
  }

  /** Selecting by an in-range index and by the status at that index agree. */
  lemma IndexAndValueAgree(l: StatusList, i: int)
    requires 0 <= i < |l.statuses|
    ensures ResolveStatus(l, Index(i)) == ResolveStatus(l, Value(l.statuses[i]))
  {
  }
}
