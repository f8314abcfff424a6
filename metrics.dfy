/** The parts of the external metrics registry the cache touches: metric records with
    their `enabled_handlers` bitmask, and the list of handlers with their bit positions. */
module Metrics {
  import opened Wrappers

  /** The value type a metric declares; only FLOAT and INTEGER reach the cache. */
  datatype MetricType = FloatMetric | IntegerMetric | OtherMetric

  /** A metric record: its name, declared type and the `enabled_handlers` mask of the handlers
      it is sent to, given as the set of bit positions that are set in it. */
  datatype Metric = Metric(name: string, mtype: MetricType, enabledHandlers: set<BitIndex>)

  /** A handler identifier is a bit position in `enabled_handlers`. */
  type BitIndex = i: nat | i < 32

  datatype Handler = Handler(name: string, identifier: BitIndex)

  /** The name of the handler whose bit the cache toggles. */
  const InfoScreenHandler: string := "SENSOR_INFO_SCREEN"

  /** The first handler in the list named `name`, if there is one. */
  function FindHandler(handlers: seq<Handler>, name: string): (r: Option<Handler>)
    ensures r.None? <==> forall i :: 0 <= i < |handlers| ==> handlers[i].name != name
    ensures r.Some? ==> exists i :: 0 <= i < |handlers| && handlers[i] == r.value && r.value.name == name &&
                                    forall j :: 0 <= j < i ==> handlers[j].name != name
  {
    if handlers == [] then None
    else if handlers[0].name == name then Some(handlers[0])
    else
      FindHandler(handlers[1..], name)
  }

  /** No two metrics in the registry share a name. */
  predicate UniqueNames(ms: seq<Metric>) {
    forall i, j :: 0 <= i < j < |ms| ==> ms[i].name != ms[j].name
  }

  /** The record with bit `bit` of its mask set (`|= 1 << bit`) or cleared (`&= ~(1 << bit)`). */
  function WithHandlerBit(m: Metric, bit: BitIndex, on: bool): (r: Metric)
    ensures r.name == m.name && r.mtype == m.mtype
    ensures bit in r.enabledHandlers <==> on
    ensures forall b: BitIndex :: b != bit ==> (b in r.enabledHandlers <==> b in m.enabledHandlers)
  {
    m.(enabledHandlers := if on then m.enabledHandlers + {bit} else m.enabledHandlers - {bit})
  }
}
