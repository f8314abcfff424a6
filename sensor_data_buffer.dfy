/** The cache object and the process-wide registration of it (namespace `SensorData`).
    Each method performs the transition module SensorModel gives for it, in place on the
    value-store array, the `allMetricsEnabled` field and the registry's metric array. */
module SensorData {
  import opened Wrappers
  import opened Catalog
  import opened Metrics
  import opened SensorModel

  class SensorDataBuffer {
    /** The sorted (name, Sensor) table the cache tracks. */
    const catalog: seq<CatalogEntry>
    /** One slot per `Sensor` ordinal. */
    const sensorValues: array<Value>
    var allMetricsEnabled: bool

    /** Fixed at construction: the catalog is sorted and all its sensors have a slot. */
    ghost predicate Valid() {
      WellFormed(catalog, sensorValues.Length)
    }

    /** The state this cache and the registry's metric array are in. */
    function Snapshot(metrics: array<Metric>): State
      reads this, sensorValues, metrics
    {
      State(sensorValues[..], allMetricsEnabled, metrics[..])
    }

    /** Registers the new cache, then tries to subscribe all catalog metrics. */
    constructor (catalog: seq<CatalogEntry>, sensorCount: nat, registry: Registry,
                 metrics: array<Metric>, handlers: seq<Handler>)
      requires WellFormed(catalog, sensorCount)
      requires registry.buffer == null
      modifies registry, metrics
      ensures Valid() && fresh(sensorValues) && this.catalog == catalog
      ensures registry.buffer == this
      ensures Snapshot(metrics) == EnableStep(catalog, handlers, InitialState(sensorCount, old(metrics[..]))).1
    {
      this.catalog := catalog;
      sensorValues := new Value[sensorCount](_ => InitialValue);
      allMetricsEnabled := false;
      new;
      registry.RegisterBuffer(this);
      var _ := EnableMetrics(metrics, handlers);
    }

    /** Unregisters the cache, then unsubscribes the catalog metrics (the destructor). */
    method Destroy(registry: Registry, metrics: array<Metric>, handlers: seq<Handler>)
      requires Valid()
      modifies registry, this, sensorValues, metrics
      ensures registry.buffer == null
      ensures Snapshot(metrics) == DisableStep(catalog, handlers, old(Snapshot(metrics)))
    {
      registry.UnregisterBuffer();
      DisableMetrics(metrics, handlers);
    }

    /** The first handler named "SENSOR_INFO_SCREEN" in the registry's handler list. */
    method GetHandler(handlers: seq<Handler>) returns (h: Option<Handler>)
      ensures h == FindHandler(handlers, InfoScreenHandler)
    {
      var i := 0;
      while i < |handlers|
        invariant 0 <= i <= |handlers|
        invariant FindHandler(handlers[i..], InfoScreenHandler) == FindHandler(handlers, InfoScreenHandler)
      {
        if handlers[i].name == InfoScreenHandler {
          return Some(handlers[i]);
        }
        assert handlers[i..][1..] == handlers[i + 1..];
        i := i + 1;
      }
      return None;
    }

    /** Sets the handler's bit in every catalog metric and marks its slot enabled, stopping as
        soon as as many metrics matched as the catalog has entries. */
    method EnableMetrics(metrics: array<Metric>, handlers: seq<Handler>) returns (ok: bool)
      requires Valid()
      modifies this, sensorValues, metrics
      ensures (ok, Snapshot(metrics)) == EnableStep(catalog, handlers, old(Snapshot(metrics)))
    {
      if allMetricsEnabled {
        return true;
      }
      var count := 0;
      var handler := GetHandler(handlers);
      if handler.None? {
        return false;
      }
      var bit := handler.value.identifier;
      ghost var st0 := Snapshot(metrics);
      ghost var ms0, vs0 := st0.metrics, st0.values;
      var i := 0;
      while i < metrics.Length
        invariant 0 <= i <= metrics.Length
        invariant !allMetricsEnabled
        invariant count == MatchCount(catalog, ms0[..i])
        invariant forall j :: 0 < j <= i ==> MatchCount(catalog, ms0[..j]) != |catalog|
        invariant metrics[..] == SetHandlerBits(catalog, ms0, bit, i, true)
        invariant sensorValues[..] == EnableSlots(vs0, MatchedSensors(catalog, ms0[..i]))
      {
        EnableVisit(catalog, ms0, vs0, bit, i);
        var found := Lookup(catalog, metrics[i].name);
        if found.Some? {
          count := count + 1;
          Subscribe(metrics, i, bit, found.value);
        }
        if count == |catalog| {
          EnableStepStopsAfter(catalog, handlers, st0, handler.value, i);
          allMetricsEnabled := true;
          return true;
        }
        i := i + 1;
      }
      assert ms0[..i] == ms0;
      EnableStepRunsToEnd(catalog, handlers, st0, handler.value);
      return false;
    }

    /** The body of the enable loop for a catalog metric: `enabled_handlers |= 1 << bit` on
        record `i`, and `enabled = true` on its sensor's slot. */
    method Subscribe(metrics: array<Metric>, i: nat, bit: BitIndex, s: Sensor)
      requires i < metrics.Length && s < sensorValues.Length
      modifies metrics, sensorValues
      ensures metrics[..] == old(metrics[..])[i := WithHandlerBit(old(metrics[i]), bit, true)]
      ensures sensorValues[..] == old(sensorValues[..])[s := Enabled(old(sensorValues[s]))]
    {
      metrics[i] := metrics[i].(enabledHandlers := metrics[i].enabledHandlers + {bit});
      sensorValues[s] := sensorValues[s].(attribute := sensorValues[s].attribute.(enabled := true));
    }

    /** The body of the disable loop for a catalog metric: `enabled_handlers &= ~(1 << bit)` on
        record `i`, then `enabled = false` and `valid = false` on its sensor's slot. */
    method Unsubscribe(metrics: array<Metric>, i: nat, bit: BitIndex, s: Sensor)
      requires i < metrics.Length && s < sensorValues.Length
      modifies metrics, sensorValues
      ensures metrics[..] == old(metrics[..])[i := WithHandlerBit(old(metrics[i]), bit, false)]
      ensures sensorValues[..] == old(sensorValues[..])[s := Cleared(old(sensorValues[s]))]
    {
      metrics[i] := metrics[i].(enabledHandlers := metrics[i].enabledHandlers - {bit});
      sensorValues[s] := sensorValues[s].(attribute := sensorValues[s].attribute.(enabled := false));
      sensorValues[s] := sensorValues[s].(attribute := sensorValues[s].attribute.(valid := false));
    }

    /** Clears the handler's bit in every catalog metric and marks its slot disabled and
        invalid, then drops the `allMetricsEnabled` flag. */
    method DisableMetrics(metrics: array<Metric>, handlers: seq<Handler>)
      requires Valid()
      modifies this, sensorValues, metrics
      ensures Snapshot(metrics) == DisableStep(catalog, handlers, old(Snapshot(metrics)))
    {
      var handler := GetHandler(handlers);
      if handler.None? {
        return;
      }
      var bit := handler.value.identifier;
      ghost var ms0 := metrics[..];
      ghost var vs0 := sensorValues[..];
      var i := 0;
      while i < metrics.Length
        invariant 0 <= i <= metrics.Length
        invariant allMetricsEnabled == old(allMetricsEnabled)
        invariant metrics[..] == SetHandlerBits(catalog, ms0, bit, i, false)
        invariant sensorValues[..] == ClearSlots(vs0, MatchedSensors(catalog, ms0[..i]))
      {
        DisableVisit(catalog, ms0, vs0, bit, i);
        var found := Lookup(catalog, metrics[i].name);
        if found.Some? {
          Unsubscribe(metrics, i, bit, found.value);
        }
        i := i + 1;
      }
      assert ms0[..i] == ms0;
      allMetricsEnabled := false;
    }

    /** Tries to subscribe first, then returns a copy of the sensor's slot. */
    method GetValue(sensor: Sensor, metrics: array<Metric>, handlers: seq<Handler>) returns (v: Value)
      requires Valid() && sensor < sensorValues.Length
      modifies this, sensorValues, metrics
      ensures Snapshot(metrics) == EnableStep(catalog, handlers, old(Snapshot(metrics))).1
      ensures v == sensorValues[sensor]
    {
      var _ := EnableMetrics(metrics, handlers);
      v := sensorValues[sensor];
    }

    /** Stores an update of a FLOAT or INTEGER catalog metric; ignores every other update. */
    method HandleNewData(p: Point)
      requires Valid()
      modifies sensorValues
      ensures sensorValues[..] == NewDataStep(catalog, old(sensorValues[..]), p)
    {
      if p.metric.mtype == FloatMetric || p.metric.mtype == IntegerMetric {
        var found := Lookup(catalog, p.metric.name);
        if found.Some? {
          var s := found.value;
          sensorValues[s] := sensorValues[s].(payload := p.value);
          sensorValues[s] := sensorValues[s].(attribute := sensorValues[s].attribute.(valid := true));
          sensorValues[s] := sensorValues[s].(attribute := sensorValues[s].attribute.(
            vtype := if p.metric.mtype == FloatMetric then FloatType else IntType));
        }
      }
    }
  }

  /** The global `buffer` pointer: at most one cache receives the metric updates. */
  class Registry {
    var buffer: SensorDataBuffer?

    ghost predicate Valid()
      reads this
    {
      buffer != null ==> buffer.Valid()
    }

    constructor ()
      ensures buffer == null && Valid()
    {
      buffer := null;
    }

    /** `RegisterBuffer`: the assertion that no cache is registered yet is the precondition. */
    method RegisterBuffer(b: SensorDataBuffer)
      requires buffer == null && b.Valid()
      modifies this
      ensures buffer == b && Valid()
    {
      buffer := b;
    }

    /** `UnregisterBuffer`: forgets whichever cache is registered. */
    method UnregisterBuffer()
      modifies this
      ensures buffer == null && Valid()
    {
      buffer := null;
    }

    /** The free `HandleNewData`: forwards the update to the registered cache, if any. */
    method HandleNewData(p: Point)
      requires Valid()
      modifies if buffer != null then {buffer.sensorValues} else {}
      ensures buffer != null ==> buffer.sensorValues[..] == NewDataStep(buffer.catalog, old(buffer.sensorValues[..]), p)
    {
      if buffer != null {
        buffer.HandleNewData(p);
      }
    }
  }
}
