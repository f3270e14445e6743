/** The convenience functions `ExterminateGlobals.startCollecting` and
    `ExterminateGlobals.collect`: a single slot that holds at most one
    collector, so that only one session runs at a time. A call that throws in
    the source returns a `Failure` here and leaves the state as it was. */
module Facade {
  import opened Wrappers
  import opened Keys
  import C = Collector

  /** The two ways of calling the convenience functions out of order. */
  datatype FacadeError = AlreadyActive | NotActive

  /** The slot `helperGlobalCollector` and the shared storage cell. */
  datatype State = State(slot: Option<C.Collector>, store: Option<string>)

  /** Every collector the facade holds satisfies the collector invariant and
      has saving switched off: nothing reachable through the facade turns it on. */
  ghost predicate Inv(f: State) {
    f.slot.Some? ==> C.Valid(f.slot.value) && !f.slot.value.saveUnwanted
  }

  /** `startCollecting(ignoreKeys, monitoredObject)` while the object has `keys`. */
  function StartCollecting(f: State, ignoreKeys: Option<seq<Key>>, monitoredObject: Option<C.HostObject>,
                           keys: seq<Key>): (r: Result<State, FacadeError>)
    ensures r.Failure? <==> f.slot.Some?
    ensures r.Failure? ==> r.error == AlreadyActive
    ensures r.Success? ==>
      && r.value.slot.Some?
      && r.value.slot.value.ignoreKeys == C.IgnoreList(ignoreKeys)
      && r.value.slot.value.monitoredObject == monitoredObject.GetOr(C.Window)
      && r.value.slot.value.startGlobals == Without(keys, r.value.slot.value.ignoreKeys)
      && r.value.slot.value.unwantedGlobals == []
      && r.value.store == f.store
      && Inv(r.value)
  {
    if f.slot.Some? then Failure(AlreadyActive)
    else Success(f.(slot := Some(C.StartCollecting(C.New(ignoreKeys, monitoredObject), keys))))
  }

  /** `collect(printMode)` while the object has `keys`: collect on the held
      collector, then empty the slot. The report goes to the console only. */
  function Collect(f: State, keys: seq<Key>): (r: Result<State, FacadeError>)
    ensures r.Failure? <==> f.slot.None?
    ensures r.Failure? ==> r.error == NotActive
    ensures r.Success? ==>
      && r.value.slot.None?
      && r.value.store == C.Collect(f.slot.value, keys, f.store).store
    ensures r.Success? ==> Inv(r.value)
  {
    if f.slot.None? then Failure(NotActive)
    else
      var step := C.Collect(f.slot.value, keys, f.store);
      Success(State(None, step.store))
  }

  /** A second start without a collect in between fails with `AlreadyActive`
      and keeps the running session. */
  lemma StartTwiceFails(f: State, ignoreKeys: Option<seq<Key>>, monitoredObject: Option<C.HostObject>,
                        keys: seq<Key>, ignoreKeys': Option<seq<Key>>,
                        monitoredObject': Option<C.HostObject>, keys': seq<Key>)
    requires f.slot.None?
    ensures var first := StartCollecting(f, ignoreKeys, monitoredObject, keys);
      && first.Success?
      && StartCollecting(first.value, ignoreKeys', monitoredObject', keys') == Failure(AlreadyActive)
  {
  }

  /** A start, a collect and another start all succeed: a completed session
      leaves the facade idle. */
  lemma SessionCycle(f: State, ignoreKeys: Option<seq<Key>>, monitoredObject: Option<C.HostObject>,
                     before: seq<Key>, after: seq<Key>)
    requires f.slot.None?
    ensures var started := StartCollecting(f, ignoreKeys, monitoredObject, before);
      && started.Success?
      && Collect(started.value, after).Success?
      && Collect(started.value, after).value.slot.None?
      && StartCollecting(Collect(started.value, after).value, ignoreKeys, monitoredObject, before).Success?
  {
  }

  /** The facade never writes the storage cell: the collectors it creates
      never have saving switched on. */
  lemma FacadeLeavesStoreAlone(f: State, keys: seq<Key>)
    requires Inv(f)
    ensures var r := Collect(f, keys);
      r.Success? ==> r.value.store == f.store
  {
  }
}
