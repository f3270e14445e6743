/** Key lists of a monitored object and the one filter the program is built on:
    keep the keys of a list that do not occur in another list, in order. Both
    the snapshot (`collectMembers`) and the diff (`collect`, `app.stop`) are this
    filter. */
module Keys {

  /** A property name as returned by `Object.keys`. */
  type Key = string

  /** The tool's own global, always ignored so that it never reports itself. */
  const Sentinel: Key := "ExterminateGlobals"

  /** No key occurs twice; `Object.keys` always yields such a list. */
  predicate Distinct(s: seq<Key>) {
    forall i, j :: 0 <= i < j < |s| ==> s[i] != s[j]
  }

  ghost function Elems(s: seq<Key>): set<Key> {
    set k | k in s
  }

  /** `r` can be obtained from `s` by deleting elements, without reordering.
      Greedy matching decides this. */
  predicate IsSubsequence(r: seq<Key>, s: seq<Key>)
    decreases s
  {
    if r == [] then true
    else if s == [] then false
    else if r[0] == s[0] then IsSubsequence(r[1..], s[1..])
    else IsSubsequence(r, s[1..])
  }

  /** The keys of `keys` that do not occur in `exclude`, in the order of `keys`:
      JavaScript's `keys.filter(k => exclude.indexOf(k) === -1)`. */
  function Without(keys: seq<Key>, exclude: seq<Key>): (r: seq<Key>)
    ensures |r| <= |keys|
    ensures forall k :: k in r <==> k in keys && k !in exclude
    ensures Distinct(keys) ==> Distinct(r)
  {
    if keys == [] then []
    else if keys[0] in exclude then Without(keys[1..], exclude)
    else [keys[0]] + Without(keys[1..], exclude)
  }

  /** The filter keeps the keys of `keys` in their original relative order. */
  lemma {:induction false} WithoutIsSubsequence(keys: seq<Key>, exclude: seq<Key>)
    ensures IsSubsequence(Without(keys, exclude), keys)
  {
    if keys != [] {
      WithoutIsSubsequence(keys[1..], exclude);
      var r := Without(keys, exclude);
      if keys[0] !in exclude {
        assert r[1..] == Without(keys[1..], exclude);
      } else if r != [] {
        assert r[0] in r;
      }
    }
  }

  /** Every key that is not excluded keeps all of its occurrences; every
      excluded key loses all of them. */
  lemma {:induction false} WithoutCounts(keys: seq<Key>, exclude: seq<Key>)
    ensures forall k :: multiset(Without(keys, exclude))[k]
                        == if k in exclude then 0 else multiset(keys)[k]
  {
    if keys != [] {
      WithoutCounts(keys[1..], exclude);
      assert keys == [keys[0]] + keys[1..];
      assert multiset(keys) == multiset([keys[0]]) + multiset(keys[1..]);
    }
  }

  /** Filtering distributes over concatenation: a left-to-right scan may emit
      its output one key at a time. */
  lemma {:induction false} WithoutAppend(a: seq<Key>, b: seq<Key>, exclude: seq<Key>)
    ensures Without(a + b, exclude) == Without(a, exclude) + Without(b, exclude)
  {
    if a == [] {
      assert a + b == b;
    } else {
      assert (a + b)[0] == a[0];
      assert (a + b)[1..] == a[1..] + b;
      WithoutAppend(a[1..], b, exclude);
    }
  }

  /** Filtering twice is filtering once by both lists. */
  lemma {:induction false} WithoutWithout(keys: seq<Key>, first: seq<Key>, second: seq<Key>)
    ensures Without(Without(keys, first), second) == Without(keys, first + second)
  {
    if keys != [] {
      WithoutWithout(keys[1..], first, second);
    }
  }

  /** A list without repetitions has as many distinct keys as elements. */
  lemma {:induction false} DistinctCardinality(s: seq<Key>)
    requires Distinct(s)
    ensures |Elems(s)| == |s|
  {
    if s != [] {
      assert Elems(s) == {s[0]} + Elems(s[1..]);
      assert s[0] !in Elems(s[1..]);
      assert Distinct(s[1..]) by {
        forall i, j | 0 <= i < j < |s[1..]| ensures s[1..][i] != s[1..][j] {
          assert s[1..][i] == s[i + 1] && s[1..][j] == s[j + 1];
        }
      }
      DistinctCardinality(s[1..]);
    }
  }

  /** When every key of `exclude` still occurs in `keys` and neither list
      repeats a key, the filter drops exactly |exclude| keys. */
  lemma WithoutLength(keys: seq<Key>, exclude: seq<Key>)
    requires Distinct(keys) && Distinct(exclude)
    requires forall k :: k in exclude ==> k in keys
    ensures |Without(keys, exclude)| == |keys| - |exclude|
  {
    var r := Without(keys, exclude);
    DistinctCardinality(keys);
    DistinctCardinality(exclude);
    DistinctCardinality(r);
    assert Elems(r) == Elems(keys) - Elems(exclude);
    assert Elems(keys) == Elems(r) + Elems(exclude);
    assert Elems(r) !! Elems(exclude);
  }

  /** Extending the scanned prefix by one key extends the filtered prefix by
      that key exactly when it is not excluded. */
  lemma WithoutStep(keys: seq<Key>, i: nat, exclude: seq<Key>)
    requires i < |keys|
    ensures Without(keys[..i + 1], exclude)
         == Without(keys[..i], exclude) + (if keys[i] in exclude then [] else [keys[i]])
  {
    assert keys[..i + 1] == keys[..i] + [keys[i]];
    WithoutAppend(keys[..i], [keys[i]], exclude);
    assert [keys[i]][1..] == [];
  }

  /** The snapshot primitive `collectMembers`: one pass over the member keys,
      appending each key that is not ignored. */
  method CollectMembers(ignoreKeys: seq<Key>, memberKeys: seq<Key>) returns (kept: seq<Key>)
    ensures kept == Without(memberKeys, ignoreKeys)
  {
    kept := [];
    var i := 0;
    while i < |memberKeys|
      invariant 0 <= i <= |memberKeys|
      invariant kept == Without(memberKeys[..i], ignoreKeys)
    {
      var key := memberKeys[i];
      WithoutStep(memberKeys, i, ignoreKeys);
      if key !in ignoreKeys {
        kept := kept + [key];
      }
      i := i + 1;
    }
    assert memberKeys[..i] == memberKeys;
  }
}
