/** The `GlobalsCollector` class of src/ExterminateGlobals.js as an immutable
    record with pure transitions. The host object is not stored: each
    operation that enumerates it receives the `Object.keys` list of that
    moment. The `localStorage` entry `GlobalsCollector_unwanted_globals` is a
    single `Option<string>` cell that the operations take and return. */
module Collector {
  import opened Wrappers
  import opened Keys

  /** Identity of the monitored object; `Window` is the default. */
  datatype HostObject = Window | Object(id: nat)

  datatype Collector = Collector(
    ignoreKeys: seq<Key>,
    monitoredObject: HostObject,
    startGlobals: seq<Key>,
    unwantedGlobals: seq<Key>,
    saveUnwanted: bool)

  /** What `collect` hands back: the collector afterwards, the returned list,
      and the storage cell afterwards. */
  datatype CollectStep = CollectStep(collector: Collector, report: seq<Key>, store: Option<string>)

  /** The separator `_storeUnwantedGlobals` joins the saved keys with. */
  const Separator: string := ","

  /** State every collector keeps: its own global is ignored, the baseline
      holds no ignored key, and reported keys are neither ignored nor in the
      baseline. */
  ghost predicate Valid(c: Collector) {
    && Sentinel in c.ignoreKeys
    && (forall k :: k in c.startGlobals ==> k !in c.ignoreKeys)
    && (forall k :: k in c.unwantedGlobals ==> k !in c.ignoreKeys && k !in c.startGlobals)
  }

  /** JavaScript's `Array.prototype.join`. */
  function Join(parts: seq<string>, sep: string): string
  {
    if parts == [] then ""
    else if |parts| == 1 then parts[0]
    else parts[0] + sep + Join(parts[1..], sep)
  }

  /** The ignore list the constructor builds: a copy of the caller's list
      (empty when `null`), with the sentinel appended when it is missing. */
  function IgnoreList(ignoreKeys: Option<seq<Key>>): (r: seq<Key>)
    ensures var given := ignoreKeys.GetOr([]);
      && |given| <= |r| <= |given| + 1
      && r[..|given|] == given
      && (|r| == |given| <==> Sentinel in given)
    ensures Sentinel in r
  {
    var given := ignoreKeys.GetOr([]);
    if Sentinel in given then given else given + [Sentinel]
  }

  /** `new GlobalsCollector(ignoreKeys, monitoredObject)`. */
  function New(ignoreKeys: Option<seq<Key>>, monitoredObject: Option<HostObject>): (c: Collector)
    ensures c.ignoreKeys == IgnoreList(ignoreKeys)
    ensures c.monitoredObject == if monitoredObject.Some? then monitoredObject.value else Window
    ensures c.startGlobals == [] && c.unwantedGlobals == []
    ensures !c.saveUnwanted
    ensures Valid(c)
  {
    Collector(IgnoreList(ignoreKeys), monitoredObject.GetOr(Window), [], [], false)
  }

  /** `saveUnwantedGlobals(doSave)`: only the flag changes. */
  function SaveUnwantedGlobals(c: Collector, doSave: bool): (r: Collector)
    ensures r.saveUnwanted == doSave
    ensures r.ignoreKeys == c.ignoreKeys && r.monitoredObject == c.monitoredObject
    ensures r.startGlobals == c.startGlobals && r.unwantedGlobals == c.unwantedGlobals
    ensures Valid(c) ==> Valid(r)
  {
    c.(saveUnwanted := doSave)
  }

  /** `clearSavedUnwantedGlobals()`: removes the saved entry whatever the flag. */
  function ClearSavedUnwantedGlobals(c: Collector, store: Option<string>): (r: Option<string>)
    ensures r.None?
  {
    None
  }

  /** `startCollecting()`: forget the previous report and take the baseline
      snapshot of the object's current keys. */
  function StartCollecting(c: Collector, keys: seq<Key>): (r: Collector)
    ensures forall k :: k in r.startGlobals <==> k in keys && k !in c.ignoreKeys
    ensures r.startGlobals == Without(keys, c.ignoreKeys)
    ensures Distinct(keys) ==> Distinct(r.startGlobals)
    ensures r.unwantedGlobals == []
    ensures r.ignoreKeys == c.ignoreKeys && r.monitoredObject == c.monitoredObject
    ensures r.saveUnwanted == c.saveUnwanted
    ensures Valid(c) ==> Valid(r)
  {
    c.(startGlobals := Without(keys, c.ignoreKeys), unwantedGlobals := [])
  }

  /** `_storeUnwantedGlobals()`: the cell after a non-trivial `collect`. It is
      written only when saving is on, and then holds the comma-joined report. */
  function StoreUnwantedGlobals(c: Collector, store: Option<string>): (r: Option<string>)
    ensures !c.saveUnwanted ==> r == store
    ensures c.saveUnwanted ==> r == Some(Join(c.unwantedGlobals, Separator))
    ensures c.saveUnwanted && |c.unwantedGlobals| == 1 ==> r == Some(c.unwantedGlobals[0])
  {
    if !c.saveUnwanted then store else Some(Join(c.unwantedGlobals, Separator))
  }

  /** `collect()`: snapshot again and report the keys absent from the
      baseline. When the new snapshot is as long as the baseline the call
      returns `[]` at once, leaving the collector and the cell alone. */
  function Collect(c: Collector, keys: seq<Key>, store: Option<string>): (r: CollectStep)
    ensures r.collector.ignoreKeys == c.ignoreKeys && r.collector.monitoredObject == c.monitoredObject
    ensures r.collector.startGlobals == c.startGlobals && r.collector.saveUnwanted == c.saveUnwanted
    ensures |Without(keys, c.ignoreKeys)| == |c.startGlobals| ==>
      r.report == [] && r.collector == c && r.store == store
    ensures |Without(keys, c.ignoreKeys)| != |c.startGlobals| ==>
      && r.collector.unwantedGlobals == r.report
      && (forall k :: k in r.report <==> k in keys && k !in c.ignoreKeys && k !in c.startGlobals)
      && IsSubsequence(r.report, keys)
      && (Distinct(keys) ==> Distinct(r.report))
      && r.store == if c.saveUnwanted then Some(Join(r.report, Separator)) else store
    ensures Valid(c) ==> Valid(r.collector)
  {
    var end := Without(keys, c.ignoreKeys);
    if |end| - |c.startGlobals| == 0 then
      CollectStep(c, [], store)
    else
      var unwanted := Without(end, c.startGlobals);
      WithoutWithout(keys, c.ignoreKeys, c.startGlobals);
      WithoutIsSubsequence(keys, c.ignoreKeys + c.startGlobals);
      var c' := c.(unwantedGlobals := unwanted);
      CollectStep(c', unwanted, StoreUnwantedGlobals(c', store))
  }

  /** `getMonitoredObject()`: the object this collector watches. */
  function GetMonitoredObject(c: Collector): (r: HostObject)
    ensures r == c.monitoredObject
  {
    c.monitoredObject
  }

  /** `getIgnoredKeys()`: a copy of the ignore list, which always holds the
      tool's own global. */
  function GetIgnoredKeys(c: Collector): (r: seq<Key>)
    ensures Valid(c) ==> Sentinel in r
  {
    c.ignoreKeys
  }

  /** `getUnwantedGlobals()`: a copy of the last report, none of whose keys is
      ignored. */
  function GetUnwantedGlobals(c: Collector): (r: seq<Key>)
    ensures Valid(c) ==> forall k :: k in r ==> k !in c.ignoreKeys
  {
    c.unwantedGlobals
  }

  /** If no baseline key has vanished, the equal-length shortcut is harmless:
      `collect` reports every key added since `startCollecting` that is not
      ignored, once each, in the object's enumeration order, and nothing else. */
  lemma CollectReportsAddedKeys(c: Collector, before: seq<Key>, after: seq<Key>, store: Option<string>)
    requires Distinct(before) && Distinct(after)
    requires forall k :: k in before && k !in c.ignoreKeys ==> k in after
    ensures var r := Collect(StartCollecting(c, before), after, store).report;
      && (forall k :: k in r <==> k in after && k !in before && k !in c.ignoreKeys)
      && Distinct(r)
      && IsSubsequence(r, after)
  {
    var s := StartCollecting(c, before);
    var end := Without(after, c.ignoreKeys);
    if |end| == |s.startGlobals| {
      WithoutLength(end, s.startGlobals);
      assert Without(end, s.startGlobals) == [];
    }
  }

  /** Without that premise the shortcut hides an added key: a key swapped for
      another leaves the length unchanged and `collect` reports nothing. */
  lemma SwappedKeyGoesUnreported()
    ensures var s := StartCollecting(New(None, None), ["a"]);
      && "b" in Without(["b"], s.ignoreKeys) && "b" !in s.startGlobals
      && Collect(s, ["b"], None).report == []
  {
  }

  /** `collect` does not move the baseline: a second call on an unchanged
      object returns the same list and leaves collector and cell as the first
      call left them. */
  lemma CollectTwiceSameResult(c: Collector, keys: seq<Key>, store: Option<string>)
    ensures var first := Collect(c, keys, store);
      var second := Collect(first.collector, keys, first.store);
      second == first
  {
  }

  /** A collect straight after `startCollecting` on an unchanged object
      reports nothing. */
  lemma NothingAddedNothingReported(c: Collector, keys: seq<Key>, store: Option<string>)
    ensures var r := Collect(StartCollecting(c, keys), keys, store);
      r.report == [] && r.store == store
  {
  }

  /** The constructor cases the repository's tests check: no list gives just
      the sentinel; `['foo', 'bar']` gets the sentinel appended; a list that
      already holds it is kept as given. A new collector has no report. */
  lemma ConstructorExamples()
    ensures New(None, None).ignoreKeys == [Sentinel]
    ensures New(Some(["foo", "bar"]), None).ignoreKeys == ["foo", "bar", Sentinel]
    ensures New(Some([Sentinel, "foo"]), None).ignoreKeys == [Sentinel, "foo"]
    ensures GetUnwantedGlobals(New(None, None)) == []
  {
  }

  /** The getters right after construction: the object given (or the window),
      an ignore list holding the sentinel after the caller's keys, no report. */
  lemma GettersAfterNew(ignoreKeys: Option<seq<Key>>, monitoredObject: HostObject)
    ensures var c := New(ignoreKeys, Some(monitoredObject));
      && GetMonitoredObject(c) == monitoredObject
      && GetMonitoredObject(New(ignoreKeys, None)) == Window
      && Sentinel in GetIgnoredKeys(c)
      && GetIgnoredKeys(c)[..|ignoreKeys.GetOr([])|] == ignoreKeys.GetOr([])
      && GetUnwantedGlobals(c) == []
  {
  }

  /** No operation of a session changes the monitored object: after
      construction, a save toggle, a start and a collect, the getter still
      returns the object given to the constructor (or the window). */
  lemma MonitoredObjectFixed(ignoreKeys: Option<seq<Key>>, monitoredObject: Option<HostObject>, doSave: bool,
                             before: seq<Key>, after: seq<Key>, store: Option<string>)
    ensures var c := StartCollecting(SaveUnwantedGlobals(New(ignoreKeys, monitoredObject), doSave), before);
      GetMonitoredObject(Collect(c, after, store).collector) == monitoredObject.GetOr(Window)
  {
  }

  /** With saving on, a session on `{foo}` that gains `bla` reports `['bla']`
      and saves `"bla"`; clearing then empties the cell. */
  lemma SaveAndClearExample(store: Option<string>)
    ensures var c := StartCollecting(SaveUnwantedGlobals(New(Some([]), Some(Object(1))), true), ["foo"]);
      var r := Collect(c, ["foo", "bla"], store);
      && r.report == ["bla"]
      && r.store == Some("bla")
      && ClearSavedUnwantedGlobals(r.collector, r.store) == None
  {
  }
}
