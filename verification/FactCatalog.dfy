/** The closed catalogue of facts a measure can produce, and the operators rules may use on them. */
module FactCatalog {

  datatype FactType =
    | MAX | MIN | AVG | LAST | P50 | P90 | P95 | P99 | SPIKE_COUNT
    | DURATION | DELTA | GROWTH_RATE | MOVING_AVG | TREND | ZSCORE | BASELINE_DEV

  datatype Op = Ge | Gt | Le | Lt | Eq | Ne | TrendIs

  predicate HighSide(op: Op) { op == Ge || op == Gt }

  predicate LowSide(op: Op) { op == Le || op == Lt }

  predicate OpAllowed(t: FactType, op: Op) {
    match t
    case MAX | SPIKE_COUNT | DURATION | ZSCORE => HighSide(op)
    case MIN => LowSide(op) || op == Eq
    case LAST => HighSide(op) || LowSide(op) || op == Eq || op == Ne
    case DELTA => HighSide(op) || LowSide(op) || op == Ne
    case TREND => op == TrendIs
    case _ => HighSide(op) || LowSide(op)
  }

  /** Facts the engine evaluates today; the others are accepted by the schema and skipped. */
  predicate IsImplemented(t: FactType) {
    t in {MAX, MIN, AVG, LAST, P50, P90, P95, P99, SPIKE_COUNT}
  }

  lemma EqualitiesAllowed(t: FactType)
    ensures OpAllowed(t, Eq) <==> t == MIN || t == LAST
    ensures OpAllowed(t, Ne) <==> t == LAST || t == DELTA
    ensures OpAllowed(t, TrendIs) <==> t == TREND
  {
  }

  lemma HighSidesAllowed(t: FactType)
    ensures OpAllowed(t, Ge) <==> t != MIN && t != TREND
    ensures OpAllowed(t, Gt) <==> t != MIN && t != TREND
  {
  }

  lemma LowSidesAllowed(t: FactType)
    ensures OpAllowed(t, Le) <==> t !in {MAX, SPIKE_COUNT, DURATION, ZSCORE, TREND}
    ensures OpAllowed(t, Lt) <==> t !in {MAX, SPIKE_COUNT, DURATION, ZSCORE, TREND}
  {
  }

  /** The catalogue operator by operator. */
  lemma CatalogueByOperator(t: FactType)
    ensures OpAllowed(t, Eq) <==> t == MIN || t == LAST
    ensures OpAllowed(t, Ne) <==> t == LAST || t == DELTA
    ensures OpAllowed(t, TrendIs) <==> t == TREND
    ensures OpAllowed(t, Ge) <==> t != MIN && t != TREND
    ensures OpAllowed(t, Gt) <==> t != MIN && t != TREND
    ensures OpAllowed(t, Le) <==> t !in {MAX, SPIKE_COUNT, DURATION, ZSCORE, TREND}
    ensures OpAllowed(t, Lt) <==> t !in {MAX, SPIKE_COUNT, DURATION, ZSCORE, TREND}
  {
    hide *;
    EqualitiesAllowed(t);
    HighSidesAllowed(t);
    LowSidesAllowed(t);
  }

  /** Facts of later phases are the ones not evaluated. */
  lemma LaterPhases(t: FactType)
    ensures !IsImplemented(t) <==> t in {DURATION, DELTA, GROWTH_RATE, MOVING_AVG, TREND, ZSCORE, BASELINE_DEV}
  {
  }

  /** The name a rule writes after the dot of `measureId.type`. */
  function Name(t: FactType): string {
    match t
    case MAX => "max"
    case MIN => "min"
    case AVG => "avg"
    case LAST => "last"
    case P50 => "p50"
    case P90 => "p90"
    case P95 => "p95"
    case P99 => "p99"
    case SPIKE_COUNT => "spike_count"
    case DURATION => "duration"
    case DELTA => "delta"
    case GROWTH_RATE => "growth_rate"
    case MOVING_AVG => "moving_avg"
    case TREND => "trend"
    case ZSCORE => "zscore"
    case BASELINE_DEV => "baseline_dev"
  }

  /** No two facts share a name, so a reference denotes one fact at most. */
  lemma NamesDiffer(s: FactType, t: FactType)
    requires Name(s) == Name(t)
    ensures s == t
  {
    var a, b := Name(s), Name(t);
    assert |a| == |b| && a[0] == b[0] && a[1] == b[1] && a[2] == b[2];
  }
}
