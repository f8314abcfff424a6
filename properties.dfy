/** What the transitions of the cache guarantee beyond a single call: the early exit of
    `enableMetrics` only reports success once every catalog sensor is subscribed (when the
    registry's names are unique), enabling twice is enabling once, disabling undoes enabling,
    and a stored update survives the subscription attempt that `GetValue` makes. */
module SensorProperties {
  import opened Wrappers
  import opened Catalog
  import opened Metrics
  import opened SensorModel
  import opened StringOrder

  /** The flag claims nothing the store does not show: while `allMetricsEnabled` is set,
      every catalog sensor's slot is enabled. */
  ghost predicate Coherent(c: seq<CatalogEntry>, st: State)
    requires WellFormed(c, |st.values|)
  {
    st.allMetricsEnabled ==> forall k :: 0 <= k < |c| ==> st.values[c[k].sensor].attribute.enabled
  }

  /** Two registries whose records carry the same names, position by position. */
  ghost predicate SameNames(a: seq<Metric>, b: seq<Metric>) {
    |a| == |b| && forall i :: 0 <= i < |a| ==> a[i].name == b[i].name
  }

  /** The catalog names matched by the first `i + 1` records: those of the first `i`, plus metric `i`'s. */
  lemma MatchedNamesStep(c: seq<CatalogEntry>, ms: seq<Metric>, i: nat)
    requires Sorted(c) && i < |ms|
    ensures MatchedNames(c, ms[..i + 1]) ==
      MatchedNames(c, ms[..i]) + if InCatalog(c, ms[i].name) then {ms[i].name} else {}
  {
  }

  /** With unique registry names, the match count is the number of distinct catalog names matched. */
  lemma {:induction false} MatchedNamesCount(c: seq<CatalogEntry>, ms: seq<Metric>, n: nat)
    requires Sorted(c) && UniqueNames(ms) && n <= |ms|
    ensures |MatchedNames(c, ms[..n])| == MatchCount(c, ms[..n])
  {
    if n > 0 {
      var prefix := ms[..n - 1];
      MatchedNamesCount(c, ms, n - 1);
      MatchedNamesStep(c, ms, n - 1);
      assert ms[..n][..n - 1] == prefix;
      assert MatchCount(c, ms[..n]) == MatchCount(c, prefix) + (if InCatalog(c, ms[n - 1].name) then 1 else 0);
      assert ms[n - 1].name !in MatchedNames(c, prefix) by {
        forall j | 0 <= j < n - 1
          ensures prefix[j].name != ms[n - 1].name
        {
          assert prefix[j] == ms[j];
        }
      }
    }
  }

  /** Every matched name is a catalog name. */
  lemma MatchedNamesInCatalog(c: seq<CatalogEntry>, ms: seq<Metric>)
    requires Sorted(c)
    ensures MatchedNames(c, ms) <= Names(c)
  {
  }

  /** A subset as large as its superset is the superset. */
  lemma {:induction false} SubsetOfSameSize(a: set<string>, b: set<string>)
    requires a <= b && |a| == |b|
    ensures a == b
  {
    var d := b - a;
    assert b == a + d;
    assert a * d == {};
    assert |a + d| == |a| + |d|;
  }

  /** The pigeonhole step behind the early exit: when unique registry names make the count
      reach the catalog size, every catalog sensor has been matched. */
  lemma {:induction false} FullCountMatchesCatalog(c: seq<CatalogEntry>, ms: seq<Metric>, n: nat)
    requires Sorted(c) && UniqueNames(ms) && n <= |ms|
    requires MatchCount(c, ms[..n]) == |c|
    ensures forall k :: 0 <= k < |c| ==> c[k].sensor in MatchedSensors(c, ms[..n])
  {
    MatchedNamesCount(c, ms, n);
    NamesCount(c);
    MatchedNamesInCatalog(c, ms[..n]);
    SubsetOfSameSize(MatchedNames(c, ms[..n]), Names(c));
    forall k | 0 <= k < |c|
      ensures c[k].sensor in MatchedSensors(c, ms[..n])
    {
      assert c[k].name in MatchedNames(c, ms[..n]);
      var i :| 0 <= i < n && InCatalog(c, ms[..n][i].name) && ms[..n][i].name == c[k].name;
      assert Lookup(c, ms[..n][i].name).value == c[k].sensor;
    }
  }

  /** `enableMetrics` keeps the flag honest when registry names are unique: a `true` result
      means every catalog sensor's slot is enabled. */
  lemma {:induction false} EnableKeepsCoherent(c: seq<CatalogEntry>, handlers: seq<Handler>, st: State)
    requires WellFormed(c, |st.values|) && UniqueNames(st.metrics) && Coherent(c, st)
    ensures var r := EnableStep(c, handlers, st);
      |r.1.values| == |st.values| && Coherent(c, r.1) &&
      (r.0 ==> forall k :: 0 <= k < |c| ==> r.1.values[c[k].sensor].attribute.enabled)
  {
    EnableStepEffects(c, handlers, st);
    if !st.allMetricsEnabled && FindHandler(handlers, InfoScreenHandler).Some? && ScanCompletes(c, st.metrics) {
      FullCountMatchesCatalog(c, st.metrics, ScanLength(c, st.metrics));
    }
  }

  /** `disableMetrics` keeps the flag honest: it either changes nothing or drops the flag. */
  lemma DisableKeepsCoherent(c: seq<CatalogEntry>, handlers: seq<Handler>, st: State)
    requires WellFormed(c, |st.values|) && Coherent(c, st)
    ensures |DisableStep(c, handlers, st).values| == |st.values| && Coherent(c, DisableStep(c, handlers, st))
  {
  }

  /** Storing an update never touches an `enabled` flag, so it keeps the flag honest. */
  lemma NewDataKeepsCoherent(c: seq<CatalogEntry>, st: State, p: Point)
    requires WellFormed(c, |st.values|) && Coherent(c, st)
    ensures var vs := NewDataStep(c, st.values, p);
      |vs| == |st.values| &&
      (forall s :: 0 <= s < |vs| ==> vs[s].attribute.enabled == st.values[s].attribute.enabled) &&
      Coherent(c, st.(values := vs))
  {
  }

  /** The match counts of two registries with the same names agree. */
  lemma {:induction false} SameNamesMatchCount(c: seq<CatalogEntry>, a: seq<Metric>, b: seq<Metric>)
    requires Sorted(c) && SameNames(a, b)
    ensures MatchCount(c, a) == MatchCount(c, b)
  {
    if a != [] {
      SameNamesMatchCount(c, a[..|a| - 1], b[..|b| - 1]);
    }
  }

  /** Registries with the same names scan alike: the same stopping point, the same outcome,
      the same matched sensors. */
  lemma {:induction false} SameNamesSameScan(c: seq<CatalogEntry>, a: seq<Metric>, b: seq<Metric>)
    requires Sorted(c) && SameNames(a, b)
    ensures ScanLength(c, a) == ScanLength(c, b)
    ensures ScanCompletes(c, a) == ScanCompletes(c, b)
    ensures forall n :: 0 <= n <= |a| ==> MatchedSensors(c, a[..n]) == MatchedSensors(c, b[..n])
  {
    forall j | 0 <= j <= |a|
      ensures MatchCount(c, a[..j]) == MatchCount(c, b[..j])
    {
      SameNamesMatchCount(c, a[..j], b[..j]);
    }
    forall n | 0 <= n <= |a|
      ensures MatchedSensors(c, a[..n]) == MatchedSensors(c, b[..n])
    {
      assert forall i :: 0 <= i < n ==> a[..n][i].name == b[..n][i].name;
    }
  }

  /** Calling `enableMetrics` again right away changes nothing and returns the same result. */
  lemma {:induction false} EnableIdempotent(c: seq<CatalogEntry>, handlers: seq<Handler>, st: State)
    requires WellFormed(c, |st.values|)
    ensures |EnableStep(c, handlers, st).1.values| == |st.values|
    ensures EnableStep(c, handlers, EnableStep(c, handlers, st).1) == EnableStep(c, handlers, st)
  {
    var r := EnableStep(c, handlers, st);
    EnableStepEffects(c, handlers, st);
    if !st.allMetricsEnabled && FindHandler(handlers, InfoScreenHandler).Some? && !r.0 {
      var bit := FindHandler(handlers, InfoScreenHandler).value.identifier;
      var n := ScanLength(c, st.metrics);
      SetHandlerBitsEffects(c, st.metrics, bit, n, true);
      SameNamesSameScan(c, st.metrics, r.1.metrics);
      assert SetHandlerBits(c, r.1.metrics, bit, n, true) == r.1.metrics;
      var S := MatchedSensors(c, st.metrics[..n]);
      assert EnableSlots(r.1.values, S) == r.1.values;
    }
  }

  /** Clearing a set of slots after enabling some of them is clearing them. */
  lemma ClearAfterEnable(vs: seq<Value>, enabled: set<Sensor>, cleared: set<Sensor>)
    requires enabled <= cleared
    ensures ClearSlots(EnableSlots(vs, enabled), cleared) == ClearSlots(vs, cleared)
  {
  }

  /** Clearing the bit in every catalog record after setting it in some is clearing it. */
  lemma {:induction false} ClearBitsAfterSet(c: seq<CatalogEntry>, ms: seq<Metric>, bit: BitIndex, n: nat)
    requires Sorted(c) && n <= |ms|
    ensures SetHandlerBits(c, SetHandlerBits(c, ms, bit, n, true), bit, |ms|, false) ==
            SetHandlerBits(c, ms, bit, |ms|, false)
  {
    var set1 := SetHandlerBits(c, ms, bit, n, true);
    SetHandlerBitsEffects(c, ms, bit, n, true);
    forall i | 0 <= i < |ms|
      ensures SetHandlerBits(c, set1, bit, |ms|, false)[i] == SetHandlerBits(c, ms, bit, |ms|, false)[i]
    {
      if InCatalog(c, ms[i].name) {
        assert (ms[i].enabledHandlers + {bit}) - {bit} == ms[i].enabledHandlers - {bit};
      }
    }
  }

  /** The sensors a prefix of the registry resolves to are among those the whole registry does. */
  lemma MatchedSensorsOfPrefix(c: seq<CatalogEntry>, ms: seq<Metric>, n: nat)
    requires Sorted(c) && n <= |ms|
    ensures MatchedSensors(c, ms[..n]) <= MatchedSensors(c, ms)
  {
  }

  /** `disableMetrics` undoes `enableMetrics`: disabling after enabling leaves exactly the
      state disabling alone would have left. */
  lemma {:induction false} DisableUndoesEnable(c: seq<CatalogEntry>, handlers: seq<Handler>, st: State)
    requires WellFormed(c, |st.values|)
    ensures |EnableStep(c, handlers, st).1.values| == |st.values|
    ensures DisableStep(c, handlers, EnableStep(c, handlers, st).1) == DisableStep(c, handlers, st)
  {
    var r := EnableStep(c, handlers, st);
    EnableStepEffects(c, handlers, st);
    if !st.allMetricsEnabled && FindHandler(handlers, InfoScreenHandler).Some? {
      var bit := FindHandler(handlers, InfoScreenHandler).value.identifier;
      var n := ScanLength(c, st.metrics);
      SameNamesSameScan(c, st.metrics, r.1.metrics);
      assert st.metrics[..|st.metrics|] == st.metrics;
      assert r.1.metrics[..|st.metrics|] == r.1.metrics;
      MatchedSensorsOfPrefix(c, st.metrics, n);
      ClearBitsAfterSet(c, st.metrics, bit, n);
      ClearAfterEnable(st.values, MatchedSensors(c, st.metrics[..n]), MatchedSensors(c, st.metrics));
    }
  }

  /** No prefix of the registry up to and including record `i` holds as many catalog
      matches as the catalog has entries. */
  ghost predicate BelowFullCount(c: seq<CatalogEntry>, ms: seq<Metric>, i: nat)
    requires Sorted(c) && i < |ms|
  {
    forall j :: 0 < j <= i ==> MatchCount(c, ms[..j]) != |c|
  }

  /** The early exit: `enableMetrics` touches a record only if it is a catalog metric and
      the count had not yet reached the catalog size before it, and it subscribes every such
      record (all catalog records when it returns false). */
  lemma {:induction false} EnableStopsAtFullCount(c: seq<CatalogEntry>, handlers: seq<Handler>, st: State)
    requires WellFormed(c, |st.values|) && !st.allMetricsEnabled
    requires FindHandler(handlers, InfoScreenHandler).Some?
    ensures var r := EnableStep(c, handlers, st);
      var bit := FindHandler(handlers, InfoScreenHandler).value.identifier;
      |r.1.metrics| == |st.metrics| && |r.1.values| == |st.values| &&
      (forall i :: 0 <= i < |st.metrics| && r.1.metrics[i] != st.metrics[i] ==>
        InCatalog(c, st.metrics[i].name) && BelowFullCount(c, st.metrics, i)) &&
      (forall i :: 0 <= i < |st.metrics| && InCatalog(c, st.metrics[i].name) &&
                   (!r.0 || BelowFullCount(c, st.metrics, i)) ==>
        bit in r.1.metrics[i].enabledHandlers &&
        Lookup(c, st.metrics[i].name).value < |st.values| &&
        r.1.values[Lookup(c, st.metrics[i].name).value].attribute.enabled)
  {
    var r := EnableStep(c, handlers, st);
    var bit := FindHandler(handlers, InfoScreenHandler).value.identifier;
    var ms := st.metrics;
    var n := ScanLength(c, ms);
    SetHandlerBitsEffects(c, ms, bit, n, true);
    forall i | 0 <= i < n && InCatalog(c, ms[i].name)
      ensures Lookup(c, ms[i].name).value in MatchedSensors(c, ms[..n])
    {
      assert ms[..n][i] == ms[i];
    }
  }

  /** The round trip of `GetValue`: after an update of a FLOAT or INTEGER catalog metric,
      the subscription attempt `GetValue` makes first leaves that sensor's slot valid, with
      the update's type and bits. */
  lemma ReadAfterNewData(c: seq<CatalogEntry>, handlers: seq<Handler>, st: State, p: Point, k: nat)
    requires WellFormed(c, |st.values|) && k < |c|
    requires c[k].name == p.metric.name && p.metric.mtype != OtherMetric
    ensures var st' := st.(values := NewDataStep(c, st.values, p));
      var v := EnableStep(c, handlers, st').1.values;
      |v| == |st.values| &&
      v[c[k].sensor].payload == p.value && v[c[k].sensor].attribute.valid &&
      v[c[k].sensor].attribute.vtype == TypeOf(p.metric.mtype)
  {
  }

  /** Reading after `disableMetrics`: a sensor that a registry record resolves to is
      cleared, and the subscription attempt `GetValue` makes first does not make it valid
      again, so the reading is not valid. */
  lemma ReadAfterDisable(c: seq<CatalogEntry>, handlers: seq<Handler>, st: State, i: nat)
    requires WellFormed(c, |st.values|) && i < |st.metrics| && InCatalog(c, st.metrics[i].name)
    requires FindHandler(handlers, InfoScreenHandler).Some?
    ensures var s := Lookup(c, st.metrics[i].name).value;
      var v := EnableStep(c, handlers, DisableStep(c, handlers, st)).1.values;
      s < |v| && !v[s].attribute.valid
  {
    DisableStepEffects(c, handlers, st);
    EnableStepEffects(c, handlers, DisableStep(c, handlers, st));
  }

  /** Unique registry names cannot be dropped from EnableKeepsCoherent: two records named
      "a" fill the count of a two-entry catalog, so `enableMetrics` reports success while
      sensor 1 ("b") stays unsubscribed. */
  lemma {:induction false} DuplicateNamesFillCount()
    ensures var c := [CatalogEntry("a", 0), CatalogEntry("b", 1)];
      var ms := [Metric("a", FloatMetric, {}), Metric("a", FloatMetric, {})];
      var st := State([InitialValue, InitialValue], false, ms);
      WellFormed(c, 2) && !UniqueNames(ms) &&
      var r := EnableStep(c, [Handler(InfoScreenHandler, 0)], st);
      r.0 && |r.1.values| == 2 && !r.1.values[1].attribute.enabled
  {
    var c := [CatalogEntry("a", 0), CatalogEntry("b", 1)];
    var ms := [Metric("a", FloatMetric, {}), Metric("a", FloatMetric, {})];
    assert Less("a", "b");
    assert Lookup(c, "a") == Some(0);
    assert ms[..1] == [ms[0]] && ms[..2] == ms;
    assert MatchCount(c, ms[..1]) == 1;
    assert MatchCount(c, ms[..2]) == 2;
    assert ScanLength(c, ms) == 2;
    assert MatchedSensors(c, ms[..2]) == {0};
  }
}
