/**
 * `ProjectQueryHelpers`: read-only questions asked of a project's JSON documents.
 */
module ProjectQueryHelpers {
  import opened Wrappers
  import opened Seqs
  import opened Text
  import opened ProjectTypes
  import opened ProjectDataManager

  // ----- specification searches -----

  /** `searchByPoolType`: the pool shell contains `poolType`, ignoring case; false without a (non-empty) shell. */
  function SearchByPoolType(specifications: Option<PoolSpecifications>, poolType: string): (r: bool)
    ensures specifications.None? || specifications.value.materials.None? || specifications.value.materials.value.poolShell == "" ==> !r
    ensures r ==> exists i :: OccursAt(Lower(specifications.value.materials.value.poolShell), Lower(poolType), i)
    ensures specifications.Some? && specifications.value.materials.Some? && specifications.value.materials.value.poolShell != "" ==>
      forall i :: OccursAt(Lower(specifications.value.materials.value.poolShell), Lower(poolType), i) ==> r
  {
    if specifications.None? || specifications.value.materials.None? || specifications.value.materials.value.poolShell == "" then false
    else Includes(Lower(specifications.value.materials.value.poolShell), Lower(poolType))
  }

  /** The search ignores the case of ASCII letters, in the shell and in the search term alike. */
  lemma SearchByPoolTypeIgnoresCase(specifications: PoolSpecifications, shell: string, poolType: string, otherType: string)
    requires specifications.materials.Some?
    requires |shell| == |specifications.materials.value.poolShell|
    requires forall k :: 0 <= k < |shell| ==> SameIgnoringAsciiCase(shell[k], specifications.materials.value.poolShell[k])
    requires |poolType| == |otherType|
    requires forall k :: 0 <= k < |poolType| ==> SameIgnoringAsciiCase(poolType[k], otherType[k])
    ensures SearchByPoolType(Some(specifications.(materials := Some(specifications.materials.value.(poolShell := shell)))), poolType)
         == SearchByPoolType(Some(specifications), otherType)
  {
    LowerIgnoresAsciiCase(shell, specifications.materials.value.poolShell);
    LowerIgnoresAsciiCase(poolType, otherType);
  }

  /** `searchByEquipment`: some piece of equipment has a `type` containing `equipmentType`, ignoring case. */
  function SearchByEquipment(specifications: Option<PoolSpecifications>, equipmentType: string): (r: bool)
    ensures specifications.None? || specifications.value.equipment.None? ==> !r
    ensures r ==> exists name | name in specifications.value.equipment.value ::
                    specifications.value.equipment.value[name].itemType.Some?
                    && Includes(Lower(specifications.value.equipment.value[name].itemType.value), Lower(equipmentType))
  {
    if specifications.None? || specifications.value.equipment.None? then false
    else
      var equipment := specifications.value.equipment.value;
      exists name | name in equipment ::
        equipment[name].itemType.Some? && Includes(Lower(equipment[name].itemType.value), Lower(equipmentType))
  }

  /** The converse: one piece of equipment whose type matches is enough. */
  lemma EquipmentFound(specifications: PoolSpecifications, equipmentType: string, name: string)
    requires specifications.equipment.Some? && name in specifications.equipment.value
    requires specifications.equipment.value[name].itemType.Some?
    requires Includes(Lower(specifications.equipment.value[name].itemType.value), Lower(equipmentType))
    ensures SearchByEquipment(Some(specifications), equipmentType)
  {
  }

  /** JavaScript truthiness of a water-feature value: a zero count and `false` do not count. */
  predicate FeatureTruthy(v: FeatureValue) {
    match v
    case Count(n) => n != 0.0
    case Flag(b) => b
  }

  /** `hasWaterFeature`: some key contains `feature`, ignoring case, and its value is truthy. */
  function HasWaterFeature(specifications: Option<PoolSpecifications>, feature: string): (r: bool)
    ensures specifications.None? || specifications.value.waterFeatures.None? ==> !r
    ensures r ==> exists key | key in specifications.value.waterFeatures.value ::
                    FeatureTruthy(specifications.value.waterFeatures.value[key]) && Includes(Lower(key), Lower(feature))
  {
    if specifications.None? || specifications.value.waterFeatures.None? then false
    else
      var features := specifications.value.waterFeatures.value;
      exists key | key in features :: Includes(Lower(key), Lower(feature)) && FeatureTruthy(features[key])
  }

  /** The converse: one matching key with a truthy value is enough. */
  lemma WaterFeatureFound(specifications: PoolSpecifications, feature: string, key: string)
    requires specifications.waterFeatures.Some? && key in specifications.waterFeatures.value
    requires FeatureTruthy(specifications.waterFeatures.value[key]) && Includes(Lower(key), Lower(feature))
    ensures HasWaterFeature(Some(specifications), feature)
  {
  }

  /** A search term longer than the text cannot occur in it. */
  lemma LongerNeverIncluded(s: string, sub: string)
    requires |s| < |sub|
    ensures !Includes(s, sub)
  {
  }

  /** The spa example, first half: `{ spa: true, waterfalls: 0 }` has a spa. */
  lemma SpaIsFound(specifications: PoolSpecifications)
    requires specifications.waterFeatures == Some(map["spa" := Flag(true), "waterfalls" := Count(0.0)])
    ensures HasWaterFeature(Some(specifications), "spa")
  {
    var features := specifications.waterFeatures.value;
    LowerSpa();
    assert OccursAt("spa", "spa", 0);
    assert "spa" in features && FeatureTruthy(features["spa"]);
  }

  /**
   * The spa example, second half: a zero count is falsy, so `{ spa: true, waterfalls: 0 }` has
   * no waterfall (nor any other feature whose name is longer than `spa`).
   */
  lemma ZeroCountDoesNotCount(specifications: PoolSpecifications, feature: string)
    requires specifications.waterFeatures == Some(map["spa" := Flag(true), feature := Count(0.0)])
    requires 3 < |feature|
    ensures !HasWaterFeature(Some(specifications), feature)
  {
    var features := specifications.waterFeatures.value;
    LowerSpa();
    LongerNeverIncluded("spa", Lower(feature));
    assert forall key | key in features :: key == "spa" || key == feature;
  }

  lemma LowerSpa()
    ensures Lower("spa") == "spa"
  {
    var s := "spa";
    assert forall k :: 0 <= k < |s| ==> !IsAsciiUpper(s[k]) && !FoldsToAscii(s[k]);
  }

  // ----- progress -----

  /** The number of completed milestones. */
  function CompletedCount(ms: seq<Milestone>): (c: nat)
    ensures c <= |ms|
    ensures c == 0 <==> forall i :: 0 <= i < |ms| ==> ms[i].status != Completed
    ensures c == |ms| <==> forall i :: 0 <= i < |ms| ==> ms[i].status == Completed
  {
    if ms == [] then 0
    else (if ms[0].status == Completed then 1 else 0) + CompletedCount(ms[1..])
  }

  /**
   * `part / whole * 100`, rounded half up to an integer (`Math.round` on the exact quotient):
   * the result is the integer within one half of `100 * part / whole`, taking the upper one on a tie.
   */
  function RoundedPercent(part: nat, whole: nat): (r: int)
    requires 0 < whole && part <= whole
    ensures 0 <= r <= 100
    ensures (2 * r - 1) * whole <= 200 * part < (2 * r + 1) * whole
  {
    var q := (200 * part + whole) / (2 * whole);
    RoundingBounds(part, whole, q);
    q
  }

  /** Floor division brackets its numerator. */
  lemma DivBounds(a: nat, b: nat)
    requires 0 < b
    ensures b * (a / b) <= a < b * (a / b) + b
  {
  }

  /** Multiplying by a positive factor preserves strict and non-strict order. */
  lemma ProductBelow(a: int, b: int, n: int)
    requires 0 < n
    ensures a * n <= b * n ==> a <= b
    ensures a * n < b * n ==> a < b
  {
    if a > b {
      assert a * n - b * n == (a - b) * n;
    }
  }

  lemma RoundingBounds(part: nat, whole: nat, q: int)
    requires 0 < whole && part <= whole
    requires q == (200 * part + whole) / (2 * whole)
    ensures 0 <= q <= 100
    ensures (2 * q - 1) * whole <= 200 * part < (2 * q + 1) * whole
  {
    var a := 200 * part + whole;
    DivBounds(a, 2 * whole);
    assert 2 * whole * q <= a < 2 * whole * q + 2 * whole;
    assert (2 * q - 1) * whole == 2 * whole * q - whole;
    assert (2 * q + 1) * whole == 2 * whole * q + whole;
    assert 2 * whole * q == (2 * q) * whole;
    assert a <= 201 * whole;
    ProductBelow(2 * q, 202, whole);
    ProductBelow(-1, 2 * q + 1, whole);
  }

  /** `getProgressPercentage`: the rounded share of completed milestones; 0 without milestones. */
  function GetProgressPercentage(notes: Option<ProjectNotes>): (r: int)
    ensures 0 <= r <= 100
    ensures notes.None? || ListOf(notes.value.milestones) == [] ==> r == 0
    ensures notes.Some? && ListOf(notes.value.milestones) != [] ==>
      var n := |ListOf(notes.value.milestones)|;
      (2 * r - 1) * n <= 200 * CompletedCount(ListOf(notes.value.milestones)) < (2 * r + 1) * n
  {
    if notes.None? || ListOf(notes.value.milestones) == [] then 0
    else
      var ms := ListOf(notes.value.milestones);
      RoundedPercent(CompletedCount(ms), |ms|)
  }

  /** 100 when every milestone is completed, 0 when none is. */
  lemma ProgressExtremes(notes: ProjectNotes)
    requires ListOf(notes.milestones) != []
    ensures (forall i :: 0 <= i < |ListOf(notes.milestones)| ==> ListOf(notes.milestones)[i].status == Completed)
            ==> GetProgressPercentage(Some(notes)) == 100
    ensures (forall i :: 0 <= i < |ListOf(notes.milestones)| ==> ListOf(notes.milestones)[i].status != Completed)
            ==> GetProgressPercentage(Some(notes)) == 0
  {
    var ms := ListOf(notes.milestones);
    RoundedPercentExtremes(|ms|);
    assert GetProgressPercentage(Some(notes)) == RoundedPercent(CompletedCount(ms), |ms|);
  }

  /** All of `whole` is 100 percent and none of it is 0 percent. */
  lemma RoundedPercentExtremes(whole: nat)
    requires 0 < whole
    ensures RoundedPercent(whole, whole) == 100
    ensures RoundedPercent(0, whole) == 0
  {
    var r := RoundedPercent(whole, whole);
    ProductBelow(2 * r - 1, 200, whole);
    ProductBelow(200, 2 * r + 1, whole);
  }

  /** For a fixed number of milestones, more completed milestones never lower the percentage. */
  lemma RoundedPercentMonotone(c1: nat, c2: nat, n: nat)
    requires 0 < n && c1 <= c2 <= n
    ensures RoundedPercent(c1, n) <= RoundedPercent(c2, n)
  {
    var r1, r2 := RoundedPercent(c1, n), RoundedPercent(c2, n);
    assert (2 * r1 - 1) * n <= 200 * c1 <= 200 * c2 < (2 * r2 + 1) * n;
    ProductBelow(2 * r1 - 1, 2 * r2 + 1, n);
  }

  // ----- issues -----

  /** The number of issues that are `open` or `in_progress`. */
  function ActiveCount(issues: seq<Issue>): (c: nat)
    ensures c <= |issues|
    ensures c == 0 <==> forall i :: 0 <= i < |issues| ==> !IsActive(issues[i])
  {
    if issues == [] then 0
    else (if IsActive(issues[0]) then 1 else 0) + ActiveCount(issues[1..])
  }

  /** The number of active issues whose id is `issueId`. */
  function ActiveWithId(issues: seq<Issue>, issueId: string): (c: nat)
    ensures c <= ActiveCount(issues)
  {
    if issues == [] then 0
    else (if IsActive(issues[0]) && issues[0].id == issueId then 1 else 0) + ActiveWithId(issues[1..], issueId)
  }

  /** `getActiveIssuesCount`: 0 without issues. */
  function GetActiveIssuesCount(notes: Option<ProjectNotes>): (r: nat)
    ensures r <= |ListOf(notes.GetOr(NoNotes).issues)|
    ensures r == 0 <==> forall i :: 0 <= i < |ListOf(notes.GetOr(NoNotes).issues)| ==> !IsActive(ListOf(notes.GetOr(NoNotes).issues)[i])
  {
    if notes.None? then 0 else ActiveCount(ListOf(notes.value.issues))
  }

  /** Counting is additive over concatenation. */
  lemma {:induction false} ActiveCountAppend(a: seq<Issue>, b: seq<Issue>)
    ensures ActiveCount(a + b) == ActiveCount(a) + ActiveCount(b)
  {
    if a != [] {
      assert (a + b)[0] == a[0];
      assert (a + b)[1..] == a[1..] + b;
      ActiveCountAppend(a[1..], b);
    } else {
      assert a + b == b;
    }
  }

  /** Adding an issue raises the active count by one exactly when the new issue is active. */
  lemma AddIssueCount(notes: Option<ProjectNotes>, issue: Issue)
    ensures GetActiveIssuesCount(Some(AddIssue(notes, issue)))
         == GetActiveIssuesCount(notes) + (if IsActive(issue) then 1 else 0)
  {
    var before := ListOf(notes.GetOr(NoNotes).issues);
    ActiveCountAppend(before, [issue]);
    assert [issue][1..] == [];
  }

  /** Resolving lowers the active count by the number of matching issues that were active. */
  lemma {:induction false} ResolveMatchingCount(issues: seq<Issue>, issueId: string, resolution: string, resolvedBy: UserId, now: Timestamp)
    ensures ActiveCount(ResolveMatching(issues, issueId, resolution, resolvedBy, now))
         == ActiveCount(issues) - ActiveWithId(issues, issueId)
  {
    if issues != [] {
      var r := ResolveMatching(issues, issueId, resolution, resolvedBy, now);
      ResolveMatchingCount(issues[1..], issueId, resolution, resolvedBy, now);
      assert r[1..] == ResolveMatching(issues[1..], issueId, resolution, resolvedBy, now);
    }
  }

  /** `getActiveIssuesCount` after `resolveIssue` drops by the matching issues that were open or in progress. */
  lemma ResolveIssueCount(notes: Option<ProjectNotes>, issueId: string, resolution: string, resolvedBy: UserId, now: Timestamp)
    ensures GetActiveIssuesCount(ResolveIssue(notes, issueId, resolution, resolvedBy, now))
         == GetActiveIssuesCount(notes) - ActiveWithId(ListOf(notes.GetOr(NoNotes).issues), issueId)
  {
    if notes.Some? && notes.value.issues.Some? {
      ResolveMatchingCount(notes.value.issues.value, issueId, resolution, resolvedBy, now);
    }
  }

  // ----- upcoming milestones -----

  const MsPerDay: int := 86_400_000

  /** The clock reading `now` moved forward by `days` days (`cutoffDate.setDate(getDate() + days)`). */
  function Cutoff(now: int, days: int): int {
    now + days * MsPerDay
  }

  /** A pending milestone planned no later than `cutoff`. */
  predicate DueBy(m: Milestone, cutoff: int) {
    m.status == Pending && NotLaterThan(m.plannedDate, cutoff)
  }

  /**
   * `getUpcomingMilestones`: the pending milestones planned no later than `days` days after
   * `now`, in their stored order. There is no lower bound, so overdue milestones are included.
   */
  function GetUpcomingMilestones(notes: Option<ProjectNotes>, days: int, now: int): (r: seq<Milestone>)
    ensures notes.None? || notes.value.milestones.None? ==> r == []
    ensures forall i :: 0 <= i < |r| ==> DueBy(r[i], Cutoff(now, days))
    ensures var ms := ListOf(notes.GetOr(NoNotes).milestones);
      && SubsequenceOf(r, ms)
      && (forall i :: 0 <= i < |ms| && DueBy(ms[i], Cutoff(now, days)) ==> ms[i] in r)
      && (forall i :: 0 <= i < |ms| && DueBy(ms[i], Cutoff(now, days)) ==> multiset(r)[ms[i]] == multiset(ms)[ms[i]])
  {
    if notes.None? || notes.value.milestones.None? then []
    else
      var cutoff := Cutoff(now, days);
      var keep := (m: Milestone) => DueBy(m, cutoff);
      FilterKeepsCounts(notes.value.milestones.value, keep);
      Filter(notes.value.milestones.value, keep)
  }

  /** A pending milestone whose planned date has already passed is still reported as upcoming. */
  lemma OverdueIsUpcoming(notes: ProjectNotes, m: Milestone, days: nat, now: int)
    requires m in ListOf(notes.milestones)
    requires m.status == Pending && m.plannedDate.At? && m.plannedDate.ms < now
    ensures m in GetUpcomingMilestones(Some(notes), days, now)
  {
    var ms := ListOf(notes.milestones);
    var k :| 0 <= k < |ms| && ms[k] == m;
    assert DueBy(ms[k], Cutoff(now, days));
  }

  /** A pending milestone just added with a planned date up to `days` days ahead is among the upcoming ones. */
  lemma AddedMilestoneIsUpcoming(notes: Option<ProjectNotes>, m: Milestone, days: int, now: int)
    requires DueBy(m, Cutoff(now, days))
    ensures m in GetUpcomingMilestones(Some(AddMilestone(notes, m)), days, now)
  {
    var ms := ListOf(AddMilestone(notes, m).milestones);
    assert ms[|ms| - 1] == m;
  }
}
