/**
 * The status capability mixed into persisted entities: an entity of a given type
 * holds a StatusList meant for that type and a current Status taken from it.
 */
module StatusMixin {
  import opened Errors
  import opened Statuses
  import opened Registry

  /** What may be given as `status_list`. */
  datatype ListValue =
    | NoList            // None
    | List(l: StatusList)
    | NotAStatusList    // anything else: an int, a string, a float, a dict, ...

  /** The `status_list` argument of the constructor, which may be left out. */
  datatype ListArg = Omitted | Passed(v: ListValue)

  /**
   * The check made on every `status_list` given explicitly: it must be a StatusList
   * (None is refused too) whose target entity type is the entity's own type name.
   */
  function ValidateStatusList(typeName: string, v: ListValue): (r: Result<StatusList, ErrorKind>)
    ensures r.Ok? <==> v.List? && v.l.targetEntityType == typeName
    ensures r.Ok? ==> r.value == v.l
    ensures r.Err? ==> r.error == TypeError
  {
    match v
    case List(l) => if l.targetEntityType == typeName then Ok(l) else Err(TypeError)
    case _ => Err(TypeError)
  }

  /**
   * The list a new entity of type `typeName` adopts: the one passed, once validated,
   * or, when the argument is left out, the one persisted for the type in `store`.
   */
  function ResolveListArg(typeName: string, arg: ListArg, store: seq<StatusList>): (r: Result<StatusList, ErrorKind>)
    ensures r.Ok? ==> r.value.targetEntityType == typeName
    ensures r.Err? ==> r.error == TypeError
    ensures arg.Passed? ==> r == ValidateStatusList(typeName, arg.v)
    ensures arg.Omitted? ==> (r.Ok? <==> HasListFor(store, typeName))
    ensures arg.Omitted? && r.Ok? ==> r.value in store && r.value == Lookup(store, typeName).value
  {
    match arg
    case Passed(v) => ValidateStatusList(typeName, v)
    case Omitted =>
      match Lookup(store, typeName)
      case Some(l) => Ok(l)
      case None => Err(TypeError)
  }

  /**
   * What constructing an entity of type `typeName` yields: the list is settled first,
   * then the status is resolved against it, so a bad list is reported whatever the
   * status argument is.
   */
  function Construct(typeName: string, listArg: ListArg, statusArg: StatusArg, store: seq<StatusList>)
    : (r: Result<(StatusList, Status), ErrorKind>)
    // a constructed entity satisfies the capability's invariant
    ensures r.Ok? ==> r.value.0.targetEntityType == typeName && r.value.1 in r.value.0.statuses
    // construction succeeds exactly when both arguments are accepted
    ensures r.Ok? <==> ResolveListArg(typeName, listArg, store).Ok? &&
                       ResolveStatus(ResolveListArg(typeName, listArg, store).value, statusArg).Ok?
    ensures r.Ok? ==> r.value.0 == ResolveListArg(typeName, listArg, store).value &&
                      r.value.1 == ResolveStatus(r.value.0, statusArg).value
    // an unusable list is a TypeError; only the status argument can cause a ValueError
    ensures ResolveListArg(typeName, listArg, store).Err? ==> r == Err(TypeError)
    ensures r == Err(ValueError) ==> statusArg.Index? || statusArg.Value?
    // once the list is accepted, a refused status is refused with the error ResolveStatus gives
    ensures ResolveListArg(typeName, listArg, store).Ok? && r.Err? ==>
              r.error == ResolveStatus(ResolveListArg(typeName, listArg, store).value, statusArg).error
  {
    match ResolveListArg(typeName, listArg, store)
    case Err(e) => Err(e)
    case Ok(l) =>
      match ResolveStatus(l, statusArg)
      case Err(e) => Err(e)
      case Ok(s) => Ok((l, s))
  }

  /** An entity that carries the status capability. */
  class StatusEntity {
    /** The entity's class name, which its status list must target. */
    const typeName: string
    var statusList: StatusList
    var status: Status

    /** The list held is always meant for this entity's type. */
    ghost predicate Valid()
      reads this
    {
      statusList.targetEntityType == typeName
    }

    /** The current status is one of the list's statuses. */
    ghost predicate StatusInList()
      reads this
    {
      status in statusList.statuses
    }

    constructor (typeName: string, statusList: StatusList, status: Status)
      requires statusList.targetEntityType == typeName && status in statusList.statuses
      ensures Valid() && StatusInList()
      ensures this.typeName == typeName && this.statusList == statusList && this.status == status
    {
      this.typeName := typeName;
      this.statusList := statusList;
      this.status := status;
    }

    /**
     * Assigning `status_list`. Nothing is promised about `status` afterwards, nor
     * about the state after a refused assignment.
     */
    method SetStatusList(v: ListValue) returns (r: Outcome<ErrorKind>)
      requires Valid()
      modifies this
      ensures Valid()
      ensures r.Pass? <==> ValidateStatusList(typeName, v).Ok?
      ensures r.Pass? ==> statusList == v.l
      ensures r.Fail? ==> r.error == TypeError
    {
      var checked := ValidateStatusList(typeName, v);
      if checked.Ok? {
        statusList := checked.value;
        r := Pass;
      } else {
        r := Fail(checked.error);
      }
    }

    /** Assigning `status`: the same rules as the constructor's `status` argument. */
    method SetStatus(arg: StatusArg) returns (r: Outcome<ErrorKind>)
      requires Valid()
      modifies this`status
      ensures Valid()
      ensures r.Pass? <==> ResolveStatus(statusList, arg).Ok?
      ensures r.Pass? ==> status == ResolveStatus(statusList, arg).value && StatusInList()
      ensures r.Fail? ==> r.error == ResolveStatus(statusList, arg).error
    {
      var resolved := ResolveStatus(statusList, arg);
      if resolved.Ok? {
        status := resolved.value;
        r := Pass;
      } else {
        r := Fail(resolved.error);
      }
    }
  }

  /** Constructing an entity of type `typeName`, falling back on `store` for its list. */
  method Create(typeName: string, listArg: ListArg, statusArg: StatusArg, store: seq<StatusList>)
    returns (r: Result<StatusEntity, ErrorKind>)
    ensures r.Ok? <==> Construct(typeName, listArg, statusArg, store).Ok?
    ensures r.Err? ==> r.error == Construct(typeName, listArg, statusArg, store).error
    ensures r.Ok? ==> fresh(r.value) && r.value.Valid() && r.value.StatusInList() &&
                      r.value.typeName == typeName &&
                      (r.value.statusList, r.value.status) == Construct(typeName, listArg, statusArg, store).value
  {
    var c := Construct(typeName, listArg, statusArg, store);
    if c.Ok? {
      var e := new StatusEntity(typeName, c.value.0, c.value.1);
      r := Ok(e);
    } else {
      r := Err(c.error);
    }
  }

  /** A list given explicitly that is not a usable StatusList makes construction fail. */
  lemma ConstructRefusesNonList(typeName: string, v: ListValue, statusArg: StatusArg, store: seq<StatusList>)
    requires !v.List? || v.l.targetEntityType != typeName
    ensures Construct(typeName, Passed(v), statusArg, store) == Err(TypeError)
  {
  }

  /**
   * Leaving the list out: the entity adopts the first list persisted for its type, and
   * fails with a TypeError when there is none, whatever other types have.
   */
  lemma ConstructFallsBackOnStore(typeName: string, statusArg: StatusArg, store: seq<StatusList>)
    ensures !HasListFor(store, typeName) ==> Construct(typeName, Omitted, statusArg, store) == Err(TypeError)
    ensures HasListFor(store, typeName) && statusArg.NoStatus? ==>
              Construct(typeName, Omitted, statusArg, store) ==
              Ok((Lookup(store, typeName).value, Lookup(store, typeName).value.statuses[0]))
  {
  }

  /**
   * Persisting a list for one entity type lets that type be built without a list
   * when nothing was persisted for it before.
   */
  lemma {:induction false} PersistEnablesFallback(store: seq<StatusList>, l: StatusList, statusArg: StatusArg)
    requires !HasListFor(store, l.targetEntityType)
    ensures Construct(l.targetEntityType, Omitted, statusArg, store + [l]) ==
            Construct(l.targetEntityType, Passed(List(l)), statusArg, [])
  {
    LookupAfterPersist(store, l, l.targetEntityType);
  }

  /** Persisting a list for one entity type leaves building every other type as it was. */
  lemma {:induction false} PersistLeavesOtherTypes(store: seq<StatusList>, l: StatusList, typeName: string, statusArg: StatusArg)
    requires typeName != l.targetEntityType
    ensures Construct(typeName, Omitted, statusArg, store + [l]) == Construct(typeName, Omitted, statusArg, store)
  {
    LookupAfterPersist(store, l, typeName);
  }
}
