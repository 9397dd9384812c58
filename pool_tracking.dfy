/**
 * The budget bucket that pool-tracking analytics events carry (`getBudgetRange`).
 */
module PoolTracking {
  import opened Wrappers

  datatype BudgetRange = Unknown | Under50k | From50kTo100k | From100kTo200k | From200kTo500k | Over500k

  /** The label sent with the event. */
  function Label(r: BudgetRange): string {
    match r
    case Unknown => "unknown"
    case Under50k => "under_50k"
    case From50kTo100k => "50k_100k"
    case From100kTo200k => "100k_200k"
    case From200kTo500k => "200k_500k"
    case Over500k => "over_500k"
  }

  /** The position of a bucket on the budget axis; `Unknown` sits below every real bucket. */
  function Rank(r: BudgetRange): nat {
    match r
    case Unknown => 0
    case Under50k => 1
    case From50kTo100k => 2
    case From100kTo200k => 3
    case From200kTo500k => 4
    case Over500k => 5
  }

  /** `!budget`: the budget is missing or zero. */
  predicate NoBudget(budget: Option<real>) {
    budget.None? || budget.value == 0.0
  }

  /**
   * `getBudgetRange`: a missing or zero budget is `Unknown`; any other budget, negative ones
   * included, lands in the bucket whose half-open interval holds it.
   */
  function GetBudgetRange(budget: Option<real>): (r: BudgetRange)
    ensures r.Unknown? <==> NoBudget(budget)
    ensures r.Under50k? <==> !NoBudget(budget) && budget.value < 50000.0
    ensures r.From50kTo100k? <==> !NoBudget(budget) && 50000.0 <= budget.value < 100000.0
    ensures r.From100kTo200k? <==> !NoBudget(budget) && 100000.0 <= budget.value < 200000.0
    ensures r.From200kTo500k? <==> !NoBudget(budget) && 200000.0 <= budget.value < 500000.0
    ensures r.Over500k? <==> !NoBudget(budget) && 500000.0 <= budget.value
  {
    if NoBudget(budget) then Unknown
    else if budget.value < 50000.0 then Under50k
    else if budget.value < 100000.0 then From50kTo100k
    else if budget.value < 200000.0 then From100kTo200k
    else if budget.value < 500000.0 then From200kTo500k
    else Over500k
  }

  /** The label is always one of the six, and distinct buckets have distinct labels. */
  lemma LabelsAreDistinct(a: BudgetRange, b: BudgetRange)
    ensures Label(a) in {"unknown", "under_50k", "50k_100k", "100k_200k", "200k_500k", "over_500k"}
    ensures Label(a) == Label(b) <==> a == b
  {
  }

  /** The bucket edges. */
  lemma BucketEdges()
    ensures GetBudgetRange(Some(49999.0)) == Under50k
    ensures GetBudgetRange(Some(50000.0)) == From50kTo100k
    ensures GetBudgetRange(Some(100000.0)) == From100kTo200k
    ensures GetBudgetRange(Some(200000.0)) == From200kTo500k
    ensures GetBudgetRange(Some(500000.0)) == Over500k
    ensures GetBudgetRange(None) == Unknown && GetBudgetRange(Some(0.0)) == Unknown
  {
  }

  /** A negative budget is not `Unknown`: it counts as under 50k. */
  lemma NegativeBudgetIsUnder50k(b: real)
    requires b < 0.0
    ensures GetBudgetRange(Some(b)) == Under50k
  {
  }

  /** A larger non-zero budget never lands in a lower bucket. */
  lemma BucketsAreMonotone(a: real, b: real)
    requires a <= b && a != 0.0 && b != 0.0
    ensures Rank(GetBudgetRange(Some(a))) <= Rank(GetBudgetRange(Some(b)))
  {
  }
}
