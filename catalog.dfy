/** The fixed table `sensors` of (metric name, Sensor) pairs, sorted by name, and the
    `std::lower_bound` search followed by a `strcmp` equality test that every operation
    of the cache uses to resolve a metric name to a sensor slot. */
module Catalog {
  import opened Wrappers
  import opened StringOrder

  /** Ordinal of a `Sensor` enumerator; it indexes the value store. */
  type Sensor = nat

  datatype CatalogEntry = CatalogEntry(name: string, sensor: Sensor)

  /** Strictly ascending by name, hence names are unique. */
  ghost predicate Sorted(c: seq<CatalogEntry>) {
    forall j, k :: 0 <= j < k < |c| ==> Less(c[j].name, c[k].name)
  }

  /** The catalog is sorted and every sensor it names has a slot in a store of `sensorCount` values. */
  ghost predicate WellFormed(c: seq<CatalogEntry>, sensorCount: nat) {
    Sorted(c) && forall k :: 0 <= k < |c| ==> c[k].sensor < sensorCount
  }

  /** The set of names in the catalog. */
  function Names(c: seq<CatalogEntry>): (r: set<string>)
    ensures forall k :: 0 <= k < |c| ==> c[k].name in r
    ensures forall n :: n in r ==> exists k :: 0 <= k < |c| && c[k].name == n
  {
    if c == [] then {} else Names(c[..|c| - 1]) + {c[|c| - 1].name}
  }

  lemma SortedBelow(c: seq<CatalogEntry>, name: string, mid: nat)
    requires Sorted(c) && mid < |c| && Less(c[mid].name, name)
    ensures forall k :: 0 <= k <= mid ==> Less(c[k].name, name)
  {
    forall k | 0 <= k < mid
      ensures Less(c[k].name, name)
    {
      LessTransitive(c[k].name, c[mid].name, name);
    }
  }

  lemma SortedAbove(c: seq<CatalogEntry>, name: string, mid: nat)
    requires Sorted(c) && mid < |c| && !Less(c[mid].name, name)
    ensures forall k :: mid <= k < |c| ==> !Less(c[k].name, name)
  {
    forall k | mid < k < |c|
      ensures !Less(c[k].name, name)
    {
      if Less(c[k].name, name) {
        LessTransitive(c[mid].name, c[k].name, name);
      }
    }
  }

  /** `std::lower_bound` over `c[lo..hi]`: the first position whose name is not below `name`.
      Everything before the result is below `name`, nothing from the result on is. */
  function LowerBound(c: seq<CatalogEntry>, name: string, lo: nat, hi: nat): (r: nat)
    requires Sorted(c) && lo <= hi <= |c|
    requires forall k :: 0 <= k < lo ==> Less(c[k].name, name)
    requires forall k :: hi <= k < |c| ==> !Less(c[k].name, name)
    ensures lo <= r <= hi
    ensures forall k :: 0 <= k < r ==> Less(c[k].name, name)
    ensures forall k :: r <= k < |c| ==> !Less(c[k].name, name)
    decreases hi - lo
  {
    if lo == hi then lo
    else
      var mid := lo + (hi - lo) / 2;
      if Less(c[mid].name, name) then
        SortedBelow(c, name, mid);
        LowerBound(c, name, mid + 1, hi)
      else
        SortedAbove(c, name, mid);
        LowerBound(c, name, lo, mid)
  }

  /** In a sorted catalog the lower bound is the only position that can hold `name`. */
  lemma LowerBoundIsOnlyCandidate(c: seq<CatalogEntry>, name: string, i: nat)
    requires Sorted(c) && i <= |c|
    requires forall k :: 0 <= k < i ==> Less(c[k].name, name)
    requires forall k :: i <= k < |c| ==> !Less(c[k].name, name)
    ensures forall k :: 0 <= k < |c| && c[k].name == name ==> k == i
  {
    forall k | 0 <= k < |c|
      ensures c[k].name == name ==> k == i
    {
      if k > i {
        assert Less(c[i].name, c[k].name);
      }
    }
  }

  /** Lower bound plus the `strcmp(...) == 0` test: the sensor paired with `name`, if any. */
  function Lookup(c: seq<CatalogEntry>, name: string): (r: Option<Sensor>)
    requires Sorted(c)
    ensures r.None? <==> forall k :: 0 <= k < |c| ==> c[k].name != name
    ensures forall k :: 0 <= k < |c| && c[k].name == name ==> r == Some(c[k].sensor)
    ensures r.Some? ==> exists k :: 0 <= k < |c| && c[k] == CatalogEntry(name, r.value)
  {
    var i := LowerBound(c, name, 0, |c|);
    LowerBoundIsOnlyCandidate(c, name, i);
    if i < |c| && c[i].name == name then Some(c[i].sensor) else None
  }

  predicate InCatalog(c: seq<CatalogEntry>, name: string)
    requires Sorted(c)
  {
    Lookup(c, name).Some?
  }

  /** A sorted catalog has as many distinct names as entries. */
  lemma {:induction false} NamesCount(c: seq<CatalogEntry>)
    requires Sorted(c)
    ensures |Names(c)| == |c|
  {
    if c != [] {
      var init := c[..|c| - 1];
      var last := c[|c| - 1].name;
      assert Sorted(init);
      NamesCount(init);
      forall k | 0 <= k < |init|
        ensures init[k].name != last
      {
        assert Less(c[k].name, c[|c| - 1].name);
      }
    }
  }
}
