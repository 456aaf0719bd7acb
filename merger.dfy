/** The label merger (`merge_labels`): the derived labels are laid over the
    asset's existing labels, five deprecated keys are dropped, and a map that
    is still over the 64-label limit sheds its lexicographically smallest
    empty-valued keys, but only when it has more of them than it is over. */
module Merger {
  import opened LabelTypes
  import opened Text

  /** Legacy keys superseded by `network{i}` / `subnet{i}`, always removed. */
  const DeprecatedKeys: seq<string> := ["vpc", "network", "subnet", "data_center", "device_type"]

  /** The platform's limit on the number of labels of one resource. */
  const MaxLabels: nat := 64

  /** `v in [None, '']` */
  predicate IsEmptyValue(v: Option<string>) {
    v == None || v == Some("")
  }

  /** The existing labels (`None` read as `{}`) overlaid by the derived ones,
      minus the deprecated keys: the map `merge_labels` has before the cap. */
  function Overlay(metadata: LabelMap, current: Option<LabelMap>): (r: LabelMap)
    ensures forall k :: k in r <==> ((k in metadata || (current.Some? && k in current.value))
                                    && k !in DeprecatedKeys)
    ensures forall k :: k in r ==> r[k] == if k in metadata then metadata[k] else current.value[k]
  {
    (current.GetOr(map[]) + metadata) - (set k | k in DeprecatedKeys)
  }

  /** The keys of `m` whose value is missing or empty. */
  function EmptyKeys(m: LabelMap): set<string> {
    set k | k in m && IsEmptyValue(m[k])
  }

  /** `labels_with_values` */
  function WithValues(m: LabelMap): LabelMap {
    map k | k in m && !IsEmptyValue(m[k]) :: m[k]
  }

  /** `labels_without_values` */
  function WithoutValues(m: LabelMap): LabelMap {
    map k | k in m && IsEmptyValue(m[k]) :: m[k]
  }

  // ---------------------------------------------------------------------------
  // Python's sorted() on a set of keys
  // ---------------------------------------------------------------------------

  predicate StrictlySorted(s: seq<string>) {
    forall i, j :: 0 <= i < j < |s| ==> Less(s[i], s[j])
  }

  /** Puts `x` in its place in a strictly sorted sequence that lacks it. */
  function Insert(s: seq<string>, x: string): (r: seq<string>)
    requires StrictlySorted(s) && x !in s
    ensures StrictlySorted(r)
    ensures |r| == |s| + 1
    ensures forall y :: y in r <==> y in s || y == x
  {
    if s == [] then [x]
    else if Less(x, s[0]) then
      assert StrictlySorted([x] + s) by {
        forall j | 0 < j < |s| ensures Less(x, s[j]) {
          LessTransitive(x, s[0], s[j]);
        }
      }
      [x] + s
    else
      var rest := Insert(s[1..], x);
      assert forall y :: y in rest ==> Less(s[0], y) by {
        forall y | y in rest ensures Less(s[0], y) {
          if y == x {
            LessTotal(x, s[0]);
          } else {
            var j :| 0 <= j < |s[1..]| && s[1..][j] == y;
            assert s[j + 1] == y;
          }
        }
      }
      [s[0]] + rest
  }

  /** Python's `sorted(keys)`: the keys in increasing order, each once. */
  method SortKeys(keys: set<string>) returns (sorted: seq<string>)
    ensures StrictlySorted(sorted)
    ensures |sorted| == |keys|
    ensures forall k :: k in sorted <==> k in keys
  {
    sorted := [];
    var rest := keys;
    while rest != {}
      invariant rest <= keys
      invariant StrictlySorted(sorted)
      invariant forall k :: k in sorted <==> k in keys && k !in rest
      invariant |sorted| + |rest| == |keys|
      decreases |rest|
    {
      var x :| x in rest;
      sorted := Insert(sorted, x);
      rest := rest - {x};
    }
  }

  /** The keys at the first `n` positions of `s`. */
  function Prefix(s: seq<string>, n: nat): set<string>
    requires n <= |s|
  {
    set j | 0 <= j < n :: s[j]
  }

  lemma PrefixSnoc(s: seq<string>, n: nat)
    requires n < |s|
    ensures Prefix(s, n + 1) == Prefix(s, n) + {s[n]}
  {
  }

  /** A strictly sorted sequence repeats nothing, so its first `n` positions
      hold `n` different keys. */
  lemma {:induction false} PrefixCard(s: seq<string>, n: nat)
    requires StrictlySorted(s) && n <= |s|
    ensures |Prefix(s, n)| == n
  {
    if n > 0 {
      PrefixCard(s, n - 1);
      assert Prefix(s, n) == Prefix(s, n - 1) + {s[n - 1]};
      if s[n - 1] in Prefix(s, n - 1) {
        var j :| 0 <= j < n - 1 && s[j] == s[n - 1];
        LessIrreflexive(s[j]);
      }
    }
  }

  /** The two comprehensions of `merge_labels` split a map in two, and
      joining the halves again gives the map back. */
  lemma SplitRejoin(m: LabelMap)
    ensures WithValues(m).Keys !! WithoutValues(m).Keys
    ensures WithValues(m) + WithoutValues(m) == m
  {
  }

  // ---------------------------------------------------------------------------
  // The cap
  // ---------------------------------------------------------------------------

  /** What the eviction branch promises: `r` keeps 64 of the labels of `o`
      with their values, every value-bearing label among them, and the
      labels it drops are empty-valued ones that come before every
      empty-valued label it keeps. */
  predicate EvictsSmallestEmpty(o: LabelMap, r: LabelMap) {
    && r.Keys <= o.Keys
    && (forall k :: k in r ==> r[k] == o[k])
    && |r| == MaxLabels
    && (forall k :: k in o && !IsEmptyValue(o[k]) ==> k in r)
    && (forall k, j :: k in o && k !in r && j in r && IsEmptyValue(o[j]) ==> Less(k, j))
  }

  /** Dropping the first `excess` keys of the sorted empty-valued keys and
      putting the two halves back together meets the eviction promise. */
  lemma EvictionCorrect(o: LabelMap, sorted: seq<string>, excess: nat)
    requires |o| > MaxLabels && excess == |o| - MaxLabels
    requires StrictlySorted(sorted) && (forall k :: k in sorted <==> k in EmptyKeys(o))
    requires excess < |sorted|
    ensures EvictsSmallestEmpty(o, WithValues(o) + (WithoutValues(o) - Prefix(sorted, excess)))
  {
    var evicted := Prefix(sorted, excess);
    var valued, empty := WithValues(o), WithoutValues(o);
    var r := valued + (empty - evicted);
    EvictedCount(o, sorted, excess);
    forall k | k in evicted
      ensures k in empty
    {
      var a :| 0 <= a < excess && sorted[a] == k;
      assert k in sorted;
    }
    forall k, j | k in o && k !in r && j in r && IsEmptyValue(o[j])
      ensures Less(k, j)
    {
      assert k in evicted;
      var a :| 0 <= a < excess && sorted[a] == k;
      assert j in sorted;
      var b :| 0 <= b < |sorted| && sorted[b] == j;
      assert j !in evicted;
      assert a < b;
    }
  }

  /** Exactly `excess` labels go, which leaves 64. */
  lemma EvictedCount(o: LabelMap, sorted: seq<string>, excess: nat)
    requires |o| > MaxLabels && excess == |o| - MaxLabels
    requires StrictlySorted(sorted) && (forall k :: k in sorted <==> k in EmptyKeys(o))
    requires excess < |sorted|
    ensures |WithValues(o) + (WithoutValues(o) - Prefix(sorted, excess))| == MaxLabels
  {
    var evicted := Prefix(sorted, excess);
    var valued, empty := WithValues(o), WithoutValues(o);
    var r := valued + (empty - evicted);
    assert empty.Keys == EmptyKeys(o);
    assert valued.Keys !! empty.Keys;
    assert o.Keys == valued.Keys + empty.Keys;
    assert |o| == |valued| + |empty| by {
      assert |o.Keys| == |valued.Keys| + |empty.Keys|;
    }
    PrefixCard(sorted, excess);
    assert evicted <= empty.Keys;
    assert |(empty - evicted).Keys| == |empty.Keys| - |evicted| by {
      assert (empty - evicted).Keys == empty.Keys - evicted;
    }
    assert r.Keys == valued.Keys + (empty.Keys - evicted);
    assert |r.Keys| == |valued.Keys| + |empty.Keys - evicted|;
  }

  /** The 64-label cap of `merge_labels` on the overlaid map `resultant`.
      Over the limit with more empty-valued labels than the excess, the
      `excess` smallest empty-valued keys go; over the limit with no more
      empty-valued labels than that, nothing goes and the result stays over
      the limit. */
  method CapLabels(resultant: LabelMap) returns (result: LabelMap)
    ensures |resultant| <= MaxLabels ==> result == resultant
    ensures |resultant| > MaxLabels && |EmptyKeys(resultant)| > |resultant| - MaxLabels
            ==> EvictsSmallestEmpty(resultant, result)
    ensures |resultant| > MaxLabels && |EmptyKeys(resultant)| <= |resultant| - MaxLabels
            ==> result == resultant
    ensures forall k :: k in resultant && !IsEmptyValue(resultant[k]) ==> k in result && result[k] == resultant[k]
  {
    result := resultant;
    var total := |resultant|;
    if total > MaxLabels {
      var withValues := WithValues(resultant);
      var withoutValues := WithoutValues(resultant);
      var excess := total - MaxLabels;
      assert withoutValues.Keys == EmptyKeys(resultant);
      if |withoutValues| > excess {
        var sortedKeys := SortKeys(withoutValues.Keys);
        for i := 0 to excess
          invariant withoutValues == WithoutValues(resultant) - Prefix(sortedKeys, i)
        {
          PrefixSnoc(sortedKeys, i);
          withoutValues := withoutValues - {sortedKeys[i]};
          assert withoutValues == WithoutValues(resultant) - Prefix(sortedKeys, i + 1);
        }
        EvictionCorrect(resultant, sortedKeys, excess);
      }
      SplitRejoin(resultant);
      result := withValues + withoutValues;
    }
  }

  /** The `pop` loop: each deprecated key is removed if present; every other
      label stays as it was. */
  method DropDeprecated(labels: LabelMap) returns (resultant: LabelMap)
    ensures forall k :: k in resultant <==> k in labels && k !in DeprecatedKeys
    ensures forall k :: k in resultant ==> resultant[k] == labels[k]
  {
    resultant := labels;
    for i := 0 to |DeprecatedKeys|
      invariant resultant == labels - (set j | 0 <= j < i :: DeprecatedKeys[j])
    {
      resultant := resultant - {DeprecatedKeys[i]};
    }
    assert (set j | 0 <= j < |DeprecatedKeys| :: DeprecatedKeys[j]) == (set k | k in DeprecatedKeys);
  }

  /** The overlay followed by the `pop` loop is `Overlay`. */
  lemma DroppedIsOverlay(metadata: LabelMap, current: Option<LabelMap>, resultant: LabelMap)
    requires var labels := current.GetOr(map[]) + metadata;
      && (forall k :: k in resultant <==> k in labels && k !in DeprecatedKeys)
      && (forall k :: k in resultant ==> resultant[k] == labels[k])
    ensures resultant == Overlay(metadata, current)
  {
  }

  /** `merge_labels`: overlay, strip the deprecated keys, cap. */
  method MergeLabels(metadata: LabelMap, current: Option<LabelMap>) returns (result: LabelMap)
    ensures forall k :: k in DeprecatedKeys ==> k !in result
    ensures |Overlay(metadata, current)| <= MaxLabels ==> result == Overlay(metadata, current)
    ensures var o := Overlay(metadata, current);
      |o| > MaxLabels && |EmptyKeys(o)| > |o| - MaxLabels ==> EvictsSmallestEmpty(o, result)
    ensures var o := Overlay(metadata, current);
      |o| > MaxLabels && |EmptyKeys(o)| <= |o| - MaxLabels ==> result == o
    ensures forall k :: k in metadata && k !in DeprecatedKeys && !IsEmptyValue(metadata[k])
              ==> k in result && result[k] == metadata[k]
  {
    var currentLabels := if current.None? then map[] else current.value;
    var resultant := DropDeprecated(currentLabels + metadata);
    DroppedIsOverlay(metadata, current, resultant);
    result := CapLabels(resultant);
    forall k | k in metadata && k !in DeprecatedKeys && !IsEmptyValue(metadata[k])
      ensures k in result && result[k] == metadata[k]
    {
      assert k in resultant && resultant[k] == metadata[k];
    }
  }
}
