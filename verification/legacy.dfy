/** The older root script ExterminateGlobals.js: the same snapshot and diff as
    `GlobalsCollector`, kept in module-level variables and reported by
    `app.stop`. Only the computed figures are modelled, not the console text.
    (`app.start` pushes the sentinel into the caller's own array; value
    semantics cannot express that aliasing, so the caller's list is simply
    copied here.) */
module Legacy {
  import opened Wrappers
  import opened Keys
  import C = Collector

  /** The variables `_ignoreKeys`, `_monitorObject` and `_startGlobals` after
      `app.start`. Before the first start there is no session. */
  datatype Session = Session(ignoreKeys: seq<Key>, monitorObject: C.HostObject, startGlobals: seq<Key>)

  /** `app.stop` before any `app.start` enumerates `undefined` and throws. */
  datatype LegacyError = NotStarted

  /** What `app.stop` reports: no unknown globals, or the count it prints and
      the list of unknown keys. */
  datatype StopReport = NothingFound | Found(count: int, unknown: seq<Key>)

  /** `ignoreKeys || ['ExterminateGlobals']`, then the sentinel appended when
      missing. This is the same list the newer constructor builds. */
  function IgnoreList(ignoreKeys: Option<seq<Key>>): (r: seq<Key>)
    ensures ignoreKeys.None? ==> r == [Sentinel]
    ensures r == C.IgnoreList(ignoreKeys)
  {
    var given := ignoreKeys.GetOr([Sentinel]);
    if Sentinel in given then given else given + [Sentinel]
  }

  /** `app.start(ignoreKeys, monitorObject)` while the object has `keys`. */
  function Start(ignoreKeys: Option<seq<Key>>, monitorObject: Option<C.HostObject>, keys: seq<Key>): (s: Session)
    ensures Sentinel in s.ignoreKeys
    ensures forall k :: k in s.startGlobals <==> k in keys && k !in s.ignoreKeys
    ensures IsSubsequence(s.startGlobals, keys)
    ensures Distinct(keys) ==> Distinct(s.startGlobals)
  {
    var ignore := IgnoreList(ignoreKeys);
    WithoutIsSubsequence(keys, ignore);
    Session(ignore, monitorObject.GetOr(C.Window), Without(keys, ignore))
  }

  /** `app.stop()` while the object has `keys`. The count is the difference of
      the snapshot lengths, so it is negative when keys have vanished. */
  function Stop(s: Option<Session>, keys: seq<Key>): (r: Result<StopReport, LegacyError>)
    ensures r.Failure? <==> s.None?
    ensures s.Some? ==>
      var start := s.value.startGlobals;
      var end := Without(keys, s.value.ignoreKeys);
      && (r.value.NothingFound? <==> |end| == |start|)
      && (r.value.Found? ==>
            && r.value.count == |end| - |start|
            && (forall k :: k in r.value.unknown <==> k in end && k !in start)
            && IsSubsequence(r.value.unknown, end))
  {
    if s.None? then Failure(NotStarted)
    else
      var end := Without(keys, s.value.ignoreKeys);
      var count := |end| - |s.value.startGlobals|;
      if count == 0 then Success(NothingFound)
      else
        WithoutIsSubsequence(end, s.value.startGlobals);
        Success(Found(count, Without(end, s.value.startGlobals)))
  }

  /** When no non-ignored baseline key has vanished and keys are distinct, the printed
      count is the length of the printed list, and both are positive. */
  lemma CountMatchesList(ignoreKeys: Option<seq<Key>>, monitorObject: Option<C.HostObject>,
                         before: seq<Key>, after: seq<Key>)
    requires Distinct(before) && Distinct(after)
    requires forall k :: k in before && k !in IgnoreList(ignoreKeys) ==> k in after
    ensures var r := Stop(Some(Start(ignoreKeys, monitorObject, before)), after);
      r.Success? && (r.value.Found? ==> 0 < r.value.count == |r.value.unknown|)
  {
    var s := Start(ignoreKeys, monitorObject, before);
    var end := Without(after, s.ignoreKeys);
    WithoutLength(end, s.startGlobals);
  }

  /** The root script and `GlobalsCollector` agree: same ignore list, same
      baseline, and whenever `app.stop` finds something its list is what
      `collect` returns; when it finds nothing, `collect` returns `[]` too. */
  lemma AgreesWithCollector(ignoreKeys: Option<seq<Key>>, monitorObject: Option<C.HostObject>,
                            before: seq<Key>, after: seq<Key>, store: Option<string>)
    ensures var s := Start(ignoreKeys, monitorObject, before);
      var c := C.StartCollecting(C.New(ignoreKeys, monitorObject), before);
      var r := Stop(Some(s), after);
      var report := C.Collect(c, after, store).report;
      && s.ignoreKeys == c.ignoreKeys
      && s.startGlobals == c.startGlobals
      && s.monitorObject == c.monitoredObject
      && r.Success?
      && (r.value.NothingFound? ==> report == [])
      && (r.value.Found? ==> r.value.unknown == report)
  {
  }
}
