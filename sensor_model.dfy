/** The cache as values: a slot per sensor, the `allMetricsEnabled` flag and the registry's
    metric records, with the pure transitions that `enableMetrics`, `disableMetrics` and the
    member `HandleNewData` perform on them. The class in module SensorData is proved to
    perform exactly these transitions. */
module SensorModel {
  import opened Wrappers
  import opened Catalog
  import opened Metrics

  datatype ValueType = FloatType | IntType

  /** The raw 32 bits of the float/int union; the cache copies them without interpreting them. */
  type Payload = bv32

  datatype Attribute = Attribute(valid: bool, enabled: bool, vtype: ValueType)

  datatype Value = Value(payload: Payload, attribute: Attribute)

  /** A slot that was never written and is not subscribed. */
  const InitialValue: Value := Value(0, Attribute(false, false, FloatType))

  /** A metric update: the metric record it belongs to and its value bits. */
  datatype Point = Point(metric: Metric, value: Payload)

  /** The value store, the flag, and the registry's metric records. */
  datatype State = State(values: seq<Value>, allMetricsEnabled: bool, metrics: seq<Metric>)

  /** A freshly constructed cache, before it subscribes anything. */
  function InitialState(sensorCount: nat, metrics: seq<Metric>): State {
    State(seq(sensorCount, _ => InitialValue), false, metrics)
  }

  function Enabled(v: Value): Value {
    v.(attribute := v.attribute.(enabled := true))
  }

  function Cleared(v: Value): Value {
    v.(attribute := v.attribute.(enabled := false, valid := false))
  }

  function TypeOf(t: MetricType): ValueType {
    if t == FloatMetric then FloatType else IntType
  }

  /** How many metric records have a name in the catalog. */
  function MatchCount(c: seq<CatalogEntry>, ms: seq<Metric>): nat
    requires Sorted(c)
  {
    if ms == [] then 0
    else MatchCount(c, ms[..|ms| - 1]) + (if InCatalog(c, ms[|ms| - 1].name) then 1 else 0)
  }

  /** The sensors that the metric records resolve to. */
  function MatchedSensors(c: seq<CatalogEntry>, ms: seq<Metric>): set<Sensor>
    requires Sorted(c)
  {
    set i | 0 <= i < |ms| && InCatalog(c, ms[i].name) :: Lookup(c, ms[i].name).value
  }

  /** The catalog names that occur among the metric records. */
  function MatchedNames(c: seq<CatalogEntry>, ms: seq<Metric>): set<string>
    requires Sorted(c)
  {
    set i | 0 <= i < |ms| && InCatalog(c, ms[i].name) :: ms[i].name
  }

  /** Where the enable scan stops when it is about to visit metric `k`: right after the first
      metric at which the match count reaches the catalog size, or at the end. */
  function ScanFrom(c: seq<CatalogEntry>, ms: seq<Metric>, k: nat): (r: nat)
    requires Sorted(c) && k < |ms|
    ensures k < r <= |ms|
    ensures forall j :: k < j < r ==> MatchCount(c, ms[..j]) != |c|
    ensures r < |ms| ==> MatchCount(c, ms[..r]) == |c|
    decreases |ms| - k
  {
    if k + 1 == |ms| || MatchCount(c, ms[..k + 1]) == |c| then k + 1 else ScanFrom(c, ms, k + 1)
  }

  /** How many metric records the enable scan visits. */
  function ScanLength(c: seq<CatalogEntry>, ms: seq<Metric>): (r: nat)
    requires Sorted(c)
    ensures r <= |ms| && (|ms| > 0 ==> r > 0)
    ensures forall j :: 0 < j < r ==> MatchCount(c, ms[..j]) != |c|
    ensures r < |ms| ==> MatchCount(c, ms[..r]) == |c|
  {
    if |ms| == 0 then 0 else ScanFrom(c, ms, 0)
  }

  /** The enable scan reaches a match count equal to the catalog size. */
  predicate ScanCompletes(c: seq<CatalogEntry>, ms: seq<Metric>)
    requires Sorted(c)
  {
    0 < |ms| && MatchCount(c, ms[..ScanLength(c, ms)]) == |c|
  }

  /** The records with handler bit `bit` set (`on`) or cleared in every catalog metric among the first `k`. */
  function SetHandlerBits(c: seq<CatalogEntry>, ms: seq<Metric>, bit: BitIndex, k: nat, on: bool): seq<Metric>
    requires Sorted(c) && k <= |ms|
  {
    seq(|ms|, i requires 0 <= i < |ms| =>
      if i < k && InCatalog(c, ms[i].name) then WithHandlerBit(ms[i], bit, on) else ms[i])
  }

  /** Only bit `bit` of the catalog metrics among the first `k` changes; names and types never do. */
  lemma SetHandlerBitsEffects(c: seq<CatalogEntry>, ms: seq<Metric>, bit: BitIndex, k: nat, on: bool)
    requires Sorted(c) && k <= |ms|
    ensures var r := SetHandlerBits(c, ms, bit, k, on);
      |r| == |ms| &&
      (forall i :: 0 <= i < |ms| ==> r[i].name == ms[i].name && r[i].mtype == ms[i].mtype) &&
      (forall i, b: BitIndex :: 0 <= i < |ms| && b != bit ==>
        (b in r[i].enabledHandlers <==> b in ms[i].enabledHandlers)) &&
      (forall i :: 0 <= i < |ms| ==>
        (bit in r[i].enabledHandlers <==> if i < k && InCatalog(c, ms[i].name) then on else bit in ms[i].enabledHandlers))
  {
  }

  function EnableSlots(vs: seq<Value>, sensors: set<Sensor>): seq<Value> {
    seq(|vs|, s requires 0 <= s < |vs| => if s in sensors then Enabled(vs[s]) else vs[s])
  }

  function ClearSlots(vs: seq<Value>, sensors: set<Sensor>): seq<Value> {
    seq(|vs|, s requires 0 <= s < |vs| => if s in sensors then Cleared(vs[s]) else vs[s])
  }

  /** Enabling one more sensor changes only its slot. */
  lemma EnableSlotsAdd(vs: seq<Value>, sensors: set<Sensor>, s: Sensor)
    requires s < |vs|
    ensures EnableSlots(vs, sensors + {s}) == EnableSlots(vs, sensors)[s := Enabled(EnableSlots(vs, sensors)[s])]
  {
  }

  /** Clearing one more sensor changes only its slot. */
  lemma ClearSlotsAdd(vs: seq<Value>, sensors: set<Sensor>, s: Sensor)
    requires s < |vs|
    ensures ClearSlots(vs, sensors + {s}) == ClearSlots(vs, sensors)[s := Cleared(ClearSlots(vs, sensors)[s])]
  {
  }

  /** Extending the handled prefix by metric `i` changes only record `i`. */
  lemma SetHandlerBitsStep(c: seq<CatalogEntry>, ms: seq<Metric>, bit: BitIndex, i: nat, on: bool)
    requires Sorted(c) && i < |ms|
    ensures SetHandlerBits(c, ms, bit, i + 1, on) ==
      SetHandlerBits(c, ms, bit, i, on)[i := if InCatalog(c, ms[i].name) then WithHandlerBit(ms[i], bit, on) else ms[i]]
  {
  }

  /** The sensors matched by the first `i + 1` records: those of the first `i`, plus metric `i`'s. */
  lemma MatchedSensorsStep(c: seq<CatalogEntry>, ms: seq<Metric>, i: nat)
    requires Sorted(c) && i < |ms|
    ensures MatchedSensors(c, ms[..i + 1]) ==
      MatchedSensors(c, ms[..i]) + if InCatalog(c, ms[i].name) then {Lookup(c, ms[i].name).value} else {}
  {
  }

  /** Where the enable scan stops, given that the count first reaches the catalog size after metric `i`. */
  lemma ScanStopsAfter(c: seq<CatalogEntry>, ms: seq<Metric>, i: nat)
    requires Sorted(c) && i < |ms|
    requires forall j :: 0 < j <= i ==> MatchCount(c, ms[..j]) != |c|
    requires MatchCount(c, ms[..i + 1]) == |c|
    ensures ScanLength(c, ms) == i + 1 && ScanCompletes(c, ms)
  {
  }

  /** Where the enable scan stops when the count never reaches the catalog size. */
  lemma ScanRunsToEnd(c: seq<CatalogEntry>, ms: seq<Metric>)
    requires Sorted(c)
    requires forall j :: 0 < j <= |ms| ==> MatchCount(c, ms[..j]) != |c|
    ensures ScanLength(c, ms) == |ms| && !ScanCompletes(c, ms)
  {
  }

  /** `enableMetrics`: the result it returns and the state it leaves. The result is the flag
      afterwards, and the store keeps its shape; EnableStepEffects, EnableStepStopsAfter and
      EnableStepRunsToEnd say what changes. */
  function EnableStep(c: seq<CatalogEntry>, handlers: seq<Handler>, st: State): (r: (bool, State))
    requires WellFormed(c, |st.values|)
    ensures r.0 == r.1.allMetricsEnabled
    ensures |r.1.values| == |st.values| && |r.1.metrics| == |st.metrics|
    ensures st.allMetricsEnabled ==> r == (true, st)
    ensures FindHandler(handlers, InfoScreenHandler).None? ==> r == (st.allMetricsEnabled, st)
  {
    if st.allMetricsEnabled then (true, st)
    else
      match FindHandler(handlers, InfoScreenHandler)
      case None => (false, st)
      case Some(h) =>
        var n := ScanLength(c, st.metrics);
        var done := ScanCompletes(c, st.metrics);
        (done, State(EnableSlots(st.values, MatchedSensors(c, st.metrics[..n])), done,
                     SetHandlerBits(c, st.metrics, h.identifier, n, true)))
  }

  /** One pass of the enable loop: visiting metric `i` sets its bit and enables its sensor's slot
      exactly when its name is in the catalog, and counts it then. */
  lemma {:induction false} EnableVisit(c: seq<CatalogEntry>, ms0: seq<Metric>, vs0: seq<Value>, bit: BitIndex, i: nat)
    requires WellFormed(c, |vs0|) && i < |ms0|
    ensures var ms := SetHandlerBits(c, ms0, bit, i, true);
      var vs := EnableSlots(vs0, MatchedSensors(c, ms0[..i]));
      var f := Lookup(c, ms[i].name);
      |ms| == |ms0| && |vs| == |vs0| && ms[i] == ms0[i] && (f.Some? ==> f.value < |vs0|) &&
      SetHandlerBits(c, ms0, bit, i + 1, true) ==
        (if f.Some? then ms[i := WithHandlerBit(ms[i], bit, true)] else ms) &&
      EnableSlots(vs0, MatchedSensors(c, ms0[..i + 1])) ==
        (if f.Some? then vs[f.value := Enabled(vs[f.value])] else vs) &&
      MatchCount(c, ms0[..i + 1]) == MatchCount(c, ms0[..i]) + (if f.Some? then 1 else 0)
  {
    assert ms0[..i + 1][..i] == ms0[..i];
    SetHandlerBitsStep(c, ms0, bit, i, true);
    MatchedSensorsStep(c, ms0, i);
    var f := Lookup(c, ms0[i].name);
    if f.Some? {
      EnableSlotsAdd(vs0, MatchedSensors(c, ms0[..i]), f.value);
    }
  }

  /** One pass of the disable loop: visiting metric `i` clears its bit and its sensor's slot
      exactly when its name is in the catalog. */
  lemma {:induction false} DisableVisit(c: seq<CatalogEntry>, ms0: seq<Metric>, vs0: seq<Value>, bit: BitIndex, i: nat)
    requires WellFormed(c, |vs0|) && i < |ms0|
    ensures var ms := SetHandlerBits(c, ms0, bit, i, false);
      var vs := ClearSlots(vs0, MatchedSensors(c, ms0[..i]));
      var f := Lookup(c, ms[i].name);
      |ms| == |ms0| && |vs| == |vs0| && ms[i] == ms0[i] && (f.Some? ==> f.value < |vs0|) &&
      SetHandlerBits(c, ms0, bit, i + 1, false) ==
        (if f.Some? then ms[i := WithHandlerBit(ms[i], bit, false)] else ms) &&
      ClearSlots(vs0, MatchedSensors(c, ms0[..i + 1])) ==
        (if f.Some? then vs[f.value := Cleared(vs[f.value])] else vs)
  {
    SetHandlerBitsStep(c, ms0, bit, i, false);
    MatchedSensorsStep(c, ms0, i);
    var f := Lookup(c, ms0[i].name);
    if f.Some? {
      ClearSlotsAdd(vs0, MatchedSensors(c, ms0[..i]), f.value);
    }
  }

  /** The outcome of `enableMetrics` when the count first reaches the catalog size after metric `i`. */
  lemma {:induction false} EnableStepStopsAfter(c: seq<CatalogEntry>, handlers: seq<Handler>, st: State, h: Handler, i: nat)
    requires WellFormed(c, |st.values|) && !st.allMetricsEnabled
    requires FindHandler(handlers, InfoScreenHandler) == Some(h) && i < |st.metrics|
    requires forall j :: 0 < j <= i ==> MatchCount(c, st.metrics[..j]) != |c|
    requires MatchCount(c, st.metrics[..i + 1]) == |c|
    ensures EnableStep(c, handlers, st) ==
      (true, State(EnableSlots(st.values, MatchedSensors(c, st.metrics[..i + 1])), true,
                   SetHandlerBits(c, st.metrics, h.identifier, i + 1, true)))
  {
    ScanStopsAfter(c, st.metrics, i);
  }

  /** The outcome of `enableMetrics` when the count never reaches the catalog size. */
  lemma {:induction false} EnableStepRunsToEnd(c: seq<CatalogEntry>, handlers: seq<Handler>, st: State, h: Handler)
    requires WellFormed(c, |st.values|) && !st.allMetricsEnabled
    requires FindHandler(handlers, InfoScreenHandler) == Some(h)
    requires forall j :: 0 < j <= |st.metrics| ==> MatchCount(c, st.metrics[..j]) != |c|
    ensures EnableStep(c, handlers, st) ==
      (false, State(EnableSlots(st.values, MatchedSensors(c, st.metrics)), false,
                    SetHandlerBits(c, st.metrics, h.identifier, |st.metrics|, true)))
  {
    ScanRunsToEnd(c, st.metrics);
    assert st.metrics[..|st.metrics|] == st.metrics;
  }

  /** What `enableMetrics` does: nothing when the flag is set or the handler is missing;
      otherwise it reports whether some prefix of the registry held as many catalog metrics
      as the catalog has entries, sets the handler's bit only in catalog metrics and leaves
      every other bit alone, and only
      turns on `enabled` flags, of sensors that registry metrics resolve to. */
  lemma {:induction false} EnableStepEffects(c: seq<CatalogEntry>, handlers: seq<Handler>, st: State)
    requires WellFormed(c, |st.values|)
    ensures var r := EnableStep(c, handlers, st);
      (st.allMetricsEnabled ==> r == (true, st)) &&
      (FindHandler(handlers, InfoScreenHandler).None? ==> r == (st.allMetricsEnabled, st)) &&
      r.0 == r.1.allMetricsEnabled &&
      (!st.allMetricsEnabled && FindHandler(handlers, InfoScreenHandler).Some? ==>
        (r.0 <==> exists n :: 0 < n <= |st.metrics| && MatchCount(c, st.metrics[..n]) == |c|)) &&
      |r.1.values| == |st.values| && |r.1.metrics| == |st.metrics| &&
      (forall s :: 0 <= s < |st.values| ==> r.1.values[s] == st.values[s] || r.1.values[s] == Enabled(st.values[s])) &&
      (forall s :: 0 <= s < |st.values| && r.1.values[s] != st.values[s] ==>
        exists i :: 0 <= i < |st.metrics| && Lookup(c, st.metrics[i].name) == Some(s)) &&
      (forall i :: 0 <= i < |st.metrics| ==>
        r.1.metrics[i].name == st.metrics[i].name && r.1.metrics[i].mtype == st.metrics[i].mtype) &&
      (forall i :: 0 <= i < |st.metrics| && !InCatalog(c, st.metrics[i].name) ==> r.1.metrics[i] == st.metrics[i]) &&
      (FindHandler(handlers, InfoScreenHandler).Some? ==>
        forall i, b: BitIndex :: 0 <= i < |st.metrics| && b != FindHandler(handlers, InfoScreenHandler).value.identifier ==>
          (b in r.1.metrics[i].enabledHandlers <==> b in st.metrics[i].enabledHandlers))
  {
    ScanCompletesIff(c, st.metrics);
    if FindHandler(handlers, InfoScreenHandler).Some? {
      SetHandlerBitsEffects(c, st.metrics, FindHandler(handlers, InfoScreenHandler).value.identifier, ScanLength(c, st.metrics), true);
    }
  }

  /** The scan completes exactly when some nonempty prefix of the registry holds as many
      catalog matches as the catalog has entries. */
  lemma ScanCompletesIff(c: seq<CatalogEntry>, ms: seq<Metric>)
    requires Sorted(c)
    ensures ScanCompletes(c, ms) <==> exists n :: 0 < n <= |ms| && MatchCount(c, ms[..n]) == |c|
  {
  }

  /** `disableMetrics`: the state it leaves. The store keeps its shape, and the flag drops
      unless the handler is missing; DisableStepEffects says what changes. */
  function DisableStep(c: seq<CatalogEntry>, handlers: seq<Handler>, st: State): (r: State)
    requires WellFormed(c, |st.values|)
    ensures |r.values| == |st.values| && |r.metrics| == |st.metrics|
    ensures FindHandler(handlers, InfoScreenHandler).None? ==> r == st
    ensures FindHandler(handlers, InfoScreenHandler).Some? ==> !r.allMetricsEnabled
  {
    match FindHandler(handlers, InfoScreenHandler)
    case None => st
    case Some(h) =>
      State(ClearSlots(st.values, MatchedSensors(c, st.metrics)), false,
            SetHandlerBits(c, st.metrics, h.identifier, |st.metrics|, false))
  }

  /** What `disableMetrics` does: nothing when the handler is missing; otherwise every
      catalog metric loses the handler's bit and its sensor's slot is cleared, no other
      bit, slot or record changes, and the flag drops. */
  lemma DisableStepEffects(c: seq<CatalogEntry>, handlers: seq<Handler>, st: State)
    requires WellFormed(c, |st.values|)
    ensures var r := DisableStep(c, handlers, st);
      (FindHandler(handlers, InfoScreenHandler).None? ==> r == st) &&
      (FindHandler(handlers, InfoScreenHandler).Some? ==> !r.allMetricsEnabled) &&
      |r.values| == |st.values| && |r.metrics| == |st.metrics| &&
      (FindHandler(handlers, InfoScreenHandler).Some? ==>
        forall i :: 0 <= i < |st.metrics| && InCatalog(c, st.metrics[i].name) ==>
          Lookup(c, st.metrics[i].name).value < |r.values| &&
          r.values[Lookup(c, st.metrics[i].name).value] == Cleared(st.values[Lookup(c, st.metrics[i].name).value]) &&
          FindHandler(handlers, InfoScreenHandler).value.identifier !in r.metrics[i].enabledHandlers) &&
      (forall s :: 0 <= s < |st.values| && r.values[s] != st.values[s] ==>
        r.values[s] == Cleared(st.values[s]) &&
        exists i :: 0 <= i < |st.metrics| && Lookup(c, st.metrics[i].name) == Some(s)) &&
      (forall i :: 0 <= i < |st.metrics| ==>
        r.metrics[i].name == st.metrics[i].name && r.metrics[i].mtype == st.metrics[i].mtype) &&
      (forall i :: 0 <= i < |st.metrics| && !InCatalog(c, st.metrics[i].name) ==> r.metrics[i] == st.metrics[i]) &&
      (FindHandler(handlers, InfoScreenHandler).Some? ==>
        forall i, b: BitIndex :: 0 <= i < |st.metrics| && b != FindHandler(handlers, InfoScreenHandler).value.identifier ==>
          (b in r.metrics[i].enabledHandlers <==> b in st.metrics[i].enabledHandlers))
  {
    if FindHandler(handlers, InfoScreenHandler).Some? {
      SetHandlerBitsEffects(c, st.metrics, FindHandler(handlers, InfoScreenHandler).value.identifier, |st.metrics|, false);
    }
  }

  /** The member `HandleNewData`: the value store after an update. */
  function NewDataStep(c: seq<CatalogEntry>, vs: seq<Value>, p: Point): (r: seq<Value>)
    requires WellFormed(c, |vs|)
    ensures |r| == |vs|
    ensures p.metric.mtype == OtherMetric ==> r == vs
    ensures (forall k :: 0 <= k < |c| ==> c[k].name != p.metric.name) ==> r == vs
    ensures p.metric.mtype != OtherMetric ==>
      forall k :: 0 <= k < |c| && c[k].name == p.metric.name ==>
        r[c[k].sensor] == Value(p.value, Attribute(true, vs[c[k].sensor].attribute.enabled, TypeOf(p.metric.mtype))) &&
        forall s :: 0 <= s < |vs| && s != c[k].sensor ==> r[s] == vs[s]
  {
    if p.metric.mtype == FloatMetric || p.metric.mtype == IntegerMetric then
      match Lookup(c, p.metric.name)
      case Some(s) =>
        vs[s := vs[s].(payload := p.value, attribute := vs[s].attribute.(valid := true, vtype := TypeOf(p.metric.mtype)))]
      case None => vs
    else vs
  }
}
