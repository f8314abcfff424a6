/** A client of the cache: a two-sensor catalog, a registry holding one metric the catalog
    does not know, and the display handler at bit 3. An update of "bedTemp" is read back,
    an update of an unknown metric changes nothing, and a cache constructed after the first
    one is destroyed starts with no valid reading. */
module SensorScenario {
  import opened Wrappers
  import opened Catalog
  import opened Metrics
  import opened SensorModel
  import opened SensorData
  import opened SensorProperties
  import opened StringOrder

  const BedTemp: Sensor := 0
  const PrintFan: Sensor := 1

  /** The bits of the single-precision float 60.5. */
  const SixtyPointFive: Payload := 0x4272_0000

  /** Constructs a cache and subscribes it; the sensor of the first registry record is then
      enabled and no slot holds a valid reading yet. */
  method Start(registry: Registry, c: seq<CatalogEntry>, metrics: array<Metric>, handlers: seq<Handler>)
    returns (cache: SensorDataBuffer)
    requires registry.buffer == null && WellFormed(c, 2) && 0 < metrics.Length
    requires Lookup(c, metrics[0].name) == Some(BedTemp) && FindHandler(handlers, InfoScreenHandler).Some?
    modifies registry, metrics
    ensures registry.buffer == cache && cache.Valid() && fresh(cache.sensorValues)
    ensures cache.catalog == c && cache.sensorValues.Length == 2
    ensures cache.sensorValues[BedTemp].attribute.enabled
    ensures forall s :: 0 <= s < 2 ==> !cache.sensorValues[s].attribute.valid
    ensures forall i :: 0 <= i < metrics.Length ==>
      metrics[i].name == old(metrics[i].name) && metrics[i].mtype == old(metrics[i].mtype)
  {
    StartState(c, handlers, metrics[..]);
    cache := new SensorDataBuffer(c, 2, registry, metrics, handlers);
  }

  /** The state a new cache leaves: the first record's sensor enabled, no slot valid, and the
      records' names and types kept. */
  lemma StartState(c: seq<CatalogEntry>, handlers: seq<Handler>, ms: seq<Metric>)
    requires WellFormed(c, 2) && 0 < |ms| && Lookup(c, ms[0].name) == Some(BedTemp)
    requires FindHandler(handlers, InfoScreenHandler).Some?
    ensures var st := EnableStep(c, handlers, InitialState(2, ms)).1;
      st.values[BedTemp].attribute.enabled &&
      (forall s :: 0 <= s < 2 ==> !st.values[s].attribute.valid) &&
      (forall i :: 0 <= i < |ms| ==> st.metrics[i].name == ms[i].name && st.metrics[i].mtype == ms[i].mtype)
  {
    EnableStopsAtFullCount(c, handlers, InitialState(2, ms));
    EnableStepEffects(c, handlers, InitialState(2, ms));
  }

  /** Delivers a FLOAT update of registry record `i` through the registry, then reads its
      sensor back: the reading carries the update's bits, valid, enabled and float-typed. */
  method UpdateThenRead(registry: Registry, cache: SensorDataBuffer, metrics: array<Metric>,
                        handlers: seq<Handler>, i: nat, bits: Payload, s: Sensor)
    returns (reading: Value)
    requires registry.buffer == cache && cache.Valid() && i < metrics.Length
    requires metrics[i].mtype == FloatMetric && Lookup(cache.catalog, metrics[i].name) == Some(s)
    requires s < cache.sensorValues.Length && cache.sensorValues[s].attribute.enabled
    modifies cache, cache.sensorValues, metrics
    ensures reading == Value(bits, Attribute(true, true, FloatType))
    ensures forall j :: 0 <= j < metrics.Length ==>
      metrics[j].name == old(metrics[j].name) && metrics[j].mtype == old(metrics[j].mtype)
  {
    registry.HandleNewData(Point(metrics[i], bits));
    ghost var st := cache.Snapshot(metrics);
    reading := cache.GetValue(s, metrics, handlers);
    EnableStepEffects(cache.catalog, handlers, st);
  }

  /** Delivers an update of registry record `i`, whose name the catalog does not hold, and
      reports whether the value store is the same afterwards. */
  method UpdateUnknown(registry: Registry, cache: SensorDataBuffer, metrics: array<Metric>, i: nat, bits: Payload)
    returns (same: bool)
    requires registry.buffer == cache && cache.Valid() && i < metrics.Length
    requires Lookup(cache.catalog, metrics[i].name) == None
    modifies cache.sensorValues
    ensures same
  {
    var before := cache.sensorValues[..];
    registry.HandleNewData(Point(metrics[i], bits));
    same := cache.sensorValues[..] == before;
  }

  /** Destroys the cache and constructs a second one over the same catalog and registry; the
      second one's first reading of `s` is not valid. */
  method Restart(registry: Registry, cache: SensorDataBuffer, metrics: array<Metric>,
                 handlers: seq<Handler>, s: Sensor)
    returns (second: SensorDataBuffer, reading: Value)
    requires registry.buffer == cache && cache.Valid() && s < cache.sensorValues.Length
    modifies registry, cache, cache.sensorValues, metrics
    ensures registry.buffer == second
    ensures !reading.attribute.valid
  {
    cache.Destroy(registry, metrics, handlers);
    ghost var st0 := InitialState(cache.sensorValues.Length, metrics[..]);
    second := new SensorDataBuffer(cache.catalog, cache.sensorValues.Length, registry, metrics, handlers);
    EnableStepEffects(cache.catalog, handlers, st0);
    ghost var st1 := second.Snapshot(metrics);
    reading := second.GetValue(s, metrics, handlers);
    EnableStepEffects(cache.catalog, handlers, st1);
  }

  /** The whole run over a catalog of two names and a registry that also holds a third:
      the first name reads back the update's bits, the update of the third name is dropped,
      and after a restart the first name holds no valid reading. */
  method Run(bed: string, fan: string, unknown: string, bits: Payload)
    returns (reading: Value, unknownIgnored: bool, restarted: Value)
    requires Less(bed, fan) && unknown != bed && unknown != fan
    ensures reading == Value(bits, Attribute(true, true, FloatType))
    ensures unknownIgnored
    ensures !restarted.attribute.valid
  {
    var catalog := [CatalogEntry(bed, BedTemp), CatalogEntry(fan, PrintFan)];
    var registry := new Registry();
    var metrics := new Metric[3] [Metric(bed, FloatMetric, {}), Metric(unknown, FloatMetric, {}),
                                  Metric(fan, IntegerMetric, {})];
    var handlers := [Handler(InfoScreenHandler, 3)];
    var cache := Start(registry, catalog, metrics, handlers);
    reading := UpdateThenRead(registry, cache, metrics, handlers, 0, bits, BedTemp);
    unknownIgnored := UpdateUnknown(registry, cache, metrics, 1, 0x3f80_0000);
    var second;
    second, restarted := Restart(registry, cache, metrics, handlers, BedTemp);
  }

  /** The run with "bedTemp" and "printFan" in the catalog, "unknownSensor" outside it, and
      the update 60.5. */
  method Scenario() returns (reading: Value, unknownIgnored: bool, restarted: Value)
    ensures reading == Value(SixtyPointFive, Attribute(true, true, FloatType))
    ensures unknownIgnored
    ensures !restarted.attribute.valid
  {
    reading, unknownIgnored, restarted := Run("bedTemp", "printFan", "unknownSensor", SixtyPointFive);
  }
}
