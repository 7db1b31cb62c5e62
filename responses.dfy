/**
 * The `ResponseData` record the analytics engine consumes
 * (src/lib/analytics.ts), the per-response tests its filters apply, and the
 * engine's percentage rounding.
 *
 * Answers are kept as the strings the store hands over (`null` is `None`), not
 * as enum members: the engine compares them with `===` against the enum
 * strings, and a value outside the enum simply matches no member.
 */
module Responses {
  import opened Wrappers
  import opened Types

  datatype Response = Response(
    usesAI: bool,
    toolsUsed: seq<string>,
    customTools: seq<string>,
    tasksUsed: seq<string>,
    subscriptionType: Option<string>,
    entersSensitiveData: Option<string>,
    hasApproval: Option<string>,
    hasReceivedGuidance: bool,
    department: Option<string>)

  predicate UsesAI(r: Response) { r.usesAI }

  predicate HasGuidance(r: Response) { r.hasReceivedGuidance }

  predicate LacksGuidance(r: Response) { !r.hasReceivedGuidance }

  predicate EntersRegularly(r: Response) { r.entersSensitiveData == Some(DataEntryFrequency.Regularly.Value()) }

  predicate EntersOccasionally(r: Response) { r.entersSensitiveData == Some(DataEntryFrequency.Occasionally.Value()) }

  predicate EntersNever(r: Response) { r.entersSensitiveData == Some(DataEntryFrequency.Never.Value()) }

  predicate IsApproved(r: Response) { r.hasApproval == Some(ApprovalStatus.Yes.Value()) }

  predicate IsNotApproved(r: Response) { r.hasApproval == Some(ApprovalStatus.No.Value()) }

  predicate IsUnsure(r: Response) { r.hasApproval == Some(ApprovalStatus.Unsure.Value()) }

  /** `entersSensitiveData !== DataEntryFrequency.Never`: a missing answer counts as entering sensitive data. */
  predicate MayEnterSensitiveData(r: Response) { !EntersNever(r) }

  /** `hasApproval !== ApprovalStatus.Yes`: a missing answer counts as not approved. */
  predicate LacksApproval(r: Response) { !IsApproved(r) }

  /** The test of the high-severity "sensitive data into unapproved tools" flag. */
  predicate SensitiveAndUnapproved(r: Response) { MayEnterSensitiveData(r) && LacksApproval(r) }

  /** The three frequency buckets, and the three approval buckets, never share a response. */
  lemma BucketsExclusive(r: Response)
    ensures !(EntersRegularly(r) && EntersOccasionally(r))
    ensures !(EntersRegularly(r) && EntersNever(r))
    ensures !(EntersOccasionally(r) && EntersNever(r))
    ensures !(IsApproved(r) && IsNotApproved(r))
    ensures !(IsApproved(r) && IsUnsure(r))
    ensures !(IsNotApproved(r) && IsUnsure(r))
  {
    EnumValuesDistinct();
  }

  /**
   * `Math.round((part / whole) * 100)` computed exactly; 0 when there is
   * nothing to divide by, as every guarded call in the engine returns.
   */
  function Percent(part: nat, whole: nat): nat {
    if whole == 0 then 0 else (200 * part + whole) / (2 * whole)
  }

  /**
   * `Percent` is the integer nearest to 100 * part / whole, a half rounded
   * up: 100 * part / whole - 1/2 < p <= 100 * part / whole + 1/2.
   */
  lemma PercentIsNearest(part: nat, whole: nat)
    requires whole > 0
    ensures var p := Percent(part, whole);
      200 * part - whole < 2 * whole * p <= 200 * part + whole
  {
    var x, y := 200 * part + whole, 2 * whole;
    var q, m := x / y, x % y;
    assert x == y * q + m && 0 <= m < y;
  }

  /** A share of a whole is a percentage between 0 and 100. */
  lemma PercentAtMost100(part: nat, whole: nat)
    requires part <= whole
    ensures Percent(part, whole) <= 100
  {
    if whole > 0 {
      PercentIsNearest(part, whole);
      var p := Percent(part, whole);
      if p > 100 {
        MulMonotone(2 * whole, 101, p);
        assert false;
      }
    }
  }

  lemma MulMonotone(a: nat, b: nat, c: nat)
    requires b <= c
    ensures a * b <= a * c
  {
    assert a * c - a * b == a * (c - b);
  }
}
