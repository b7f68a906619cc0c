/** Rows of the traffic history tables. Columns with a non-negativity check have type `u63`. */
module TrafficTables {
  import opened Int64
  import opened Outcomes
  import opened Contributions

  type u63 = x: int | 0 <= x <= I64_MAX

  datatype Owner = Owner(router: int, iface: int)

  datatype Sample = Sample(
    id: nat, owner: Owner, start: i64, end: i64, duration: i64,
    down: u63, up: u63, downBps: real, upBps: real, exact: bool, source: string)

  datatype Rollup = Rollup(
    id: nat, owner: Owner, start: i64, end: i64, size: i64,
    exactDown: u63, exactUp: u63, estDown: u63, estUp: u63,
    exactMs: u63, estMs: u63, count: u63, source: string)

  datatype Gap = Gap(
    id: nat, router: int, iface: Option<int>, start: i64, end: i64,
    reason: string, details: Option<string>)

  datatype Checkpoint = Checkpoint(rx: string, tx: string, observedAt: i64, rebootMarker: Option<string>)

  const RAW_ROLLUP: string := "raw-rollup"

  /** The traffic part of the database: `interfaces` maps an interface to its router. */
  datatype Tables = Tables(
    routers: set<int>, interfaces: map<int, int>,
    samples: seq<Sample>, rollups: seq<Rollup>, gaps: seq<Gap>,
    checkpoints: map<Owner, Checkpoint>,
    nextSample: nat, nextRollup: nat, nextGap: nat)

  predicate OwnsInterface(t: Tables, o: Owner) {
    o.iface in t.interfaces && t.interfaces[o.iface] == o.router
  }

  predicate KnownInterface(t: Tables, o: Owner) {
    o.router in t.routers && OwnsInterface(t, o)
  }

  // ----- what a query sees

  function SampleRow(s: Sample): Contribution {
    if s.exact then Contribution(s.start, s.end, s.down, s.up, 0, 0, s.duration, 0, 1)
    else Contribution(s.start, s.end, 0, 0, s.down, s.up, 0, s.duration, 1)
  }

  function RollupRow(r: Rollup): Contribution {
    Contribution(r.start, r.end, r.exactDown, r.exactUp, r.estDown, r.estUp, r.exactMs, r.estMs, r.count)
  }

  function SampleRows(samples: seq<Sample>, o: Owner): seq<Contribution> {
    if samples == [] then []
    else if samples[0].owner == o then [SampleRow(samples[0])] + SampleRows(samples[1..], o)
    else SampleRows(samples[1..], o)
  }

  function RollupRows(rollups: seq<Rollup>, o: Owner): seq<Contribution> {
    if rollups == [] then []
    else if rollups[0].owner == o then [RollupRow(rollups[0])] + RollupRows(rollups[1..], o)
    else RollupRows(rollups[1..], o)
  }

  // ----- filtered sums

  /** Selects rows by owner and interval. */
  type Filter = (Owner, int, int) -> bool

  function SampleAmount(m: Metric, s: Sample): int {
    match m
    case Down => s.down
    case Up => s.up
    case Time => s.end - s.start
    case ExactDown => if s.exact then s.down else 0
    case ExactUp => if s.exact then s.up else 0
    case ExactTime => if s.exact then s.end - s.start else 0
  }

  function RollupAmount(m: Metric, r: Rollup): int {
    match m
    case Down => r.exactDown + r.estDown
    case Up => r.exactUp + r.estUp
    case Time => r.exactMs + r.estMs
    case ExactDown => r.exactDown
    case ExactUp => r.exactUp
    case ExactTime => r.exactMs
  }

  function SampleShare(m: Metric, f: Filter, s: Sample): int {
    if f(s.owner, s.start, s.end) then SampleAmount(m, s) else 0
  }

  function RollupShare(m: Metric, f: Filter, r: Rollup): int {
    if f(r.owner, r.start, r.end) then RollupAmount(m, r) else 0
  }

  function SumSamples(m: Metric, f: Filter, samples: seq<Sample>): int {
    if samples == [] then 0 else SampleShare(m, f, samples[0]) + SumSamples(m, f, samples[1..])
  }

  function SumRollups(m: Metric, f: Filter, rollups: seq<Rollup>): int {
    if rollups == [] then 0 else RollupShare(m, f, rollups[0]) + SumRollups(m, f, rollups[1..])
  }

  function Held(m: Metric, f: Filter, t: Tables): int {
    SumSamples(m, f, t.samples) + SumRollups(m, f, t.rollups)
  }

  // ----- samples by id

  ghost predicate UniqueSampleIds(samples: seq<Sample>) {
    forall i, j :: 0 <= i < j < |samples| ==> samples[i].id != samples[j].id
  }

  function Lookup(samples: seq<Sample>, id: nat): Option<Sample> {
    if samples == [] then None
    else if samples[0].id == id then Some(samples[0])
    else Lookup(samples[1..], id)
  }

  lemma {:induction false} LookupFinds(samples: seq<Sample>, s: Sample)
    requires UniqueSampleIds(samples) && s in samples
    ensures Lookup(samples, s.id) == Some(s)
  {
    if samples[0] != s {
      var i :| 0 <= i < |samples| && samples[i] == s;
      assert samples[0].id != samples[i].id;
      LookupFinds(samples[1..], s);
    }
  }
}
