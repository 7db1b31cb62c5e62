/**
 * `calculateAnalytics` and `getEmptyAnalytics` (src/lib/analytics.ts): the
 * whole result computed from a list of responses, as a specification
 * function (`Analytics`) and as the step-by-step method the engine runs
 * (`CalculateAnalytics`), proved equal; then the properties the result has.
 */
module Analytics {
  import opened Seqs
  import opened Types
  import opened Responses
  import opened CountTable
  import opened Usage
  import opened Departments
  import opened RiskFlags

  /** `getEmptyAnalytics`: every count and percentage 0, every list empty. */
  function EmptyAnalytics(): SurveyAnalytics {
    SurveyAnalytics(
      0,
      AIUsage(0, 0, 0),
      [],
      [],
      SensitiveDataExposure(0, 0, 0, 0),
      ApprovalSummary(0, 0, 0, 0),
      GuidanceGap(0, 0, 0),
      [],
      [])
  }

  predicate DoesNotUseAI(r: Response) { !r.usesAI }

  /** `responses.filter((r) => r.usesAI)` */
  function AIUsers(rs: seq<Response>): seq<Response> {
    Where(rs, UsesAI)
  }

  function SensitiveDataOf(aiUsers: seq<Response>): SensitiveDataExposure {
    var regularly, occasionally := |Where(aiUsers, EntersRegularly)|, |Where(aiUsers, EntersOccasionally)|;
    SensitiveDataExposure(
      regularly,
      occasionally,
      |Where(aiUsers, EntersNever)|,
      if |aiUsers| > 0 then Percent(regularly + occasionally, |aiUsers|) else 0)
  }

  function ApprovalOf(aiUsers: seq<Response>): ApprovalSummary {
    var notApproved, unsure := |Where(aiUsers, IsNotApproved)|, |Where(aiUsers, IsUnsure)|;
    ApprovalSummary(
      |Where(aiUsers, IsApproved)|,
      notApproved,
      unsure,
      if |aiUsers| > 0 then Percent(notApproved + unsure, |aiUsers|) else 0)
  }

  function GuidanceOf(rs: seq<Response>): GuidanceGap {
    var noGuidance := |Where(rs, LacksGuidance)|;
    GuidanceGap(|Where(rs, HasGuidance)|, noGuidance, Percent(noGuidance, |rs|))
  }

  /**
   * The analytics of a list of responses. The all-zero result comes back
   * exactly for the empty list, and `totalResponses` is always the number of
   * responses.
   */
  function Analytics(rs: seq<Response>): (a: SurveyAnalytics)
    ensures a.totalResponses == |rs|
    ensures a == EmptyAnalytics() <==> |rs| == 0
  {
    if |rs| == 0 then EmptyAnalytics()
    else
      var ai := AIUsers(rs);
      var approval := ApprovalOf(ai);
      var guidance := GuidanceOf(rs);
      var byDepartment := ByDepartment(rs);
      SurveyAnalytics(
        |rs|,
        AIUsage(|ai|, |rs| - |ai|, Percent(|ai|, |rs|)),
        ToolUsageOf(ai),
        TaskUsageOf(ai),
        SensitiveDataOf(ai),
        approval,
        guidance,
        byDepartment,
        RiskFlagsOf(ai, approval, guidance, byDepartment))
  }

  /** `calculateAnalytics` as the engine runs it. */
  method CalculateAnalytics(responses: seq<Response>) returns (a: SurveyAnalytics)
    ensures a == Analytics(responses)
  {
    var totalResponses := |responses|;
    if totalResponses == 0 {
      return EmptyAnalytics();
    }

    var aiUsers := Where(responses, UsesAI);
    var usesAI := AIUsage(|aiUsers|, totalResponses - |aiUsers|, Percent(|aiUsers|, totalResponses));

    var sensitiveData := SensitiveDataExposure(
      |Where(aiUsers, EntersRegularly)|, |Where(aiUsers, EntersOccasionally)|, |Where(aiUsers, EntersNever)|, 0);
    var atRisk := sensitiveData.regularly + sensitiveData.occasionally;
    sensitiveData := sensitiveData.(percentAtRisk := if |aiUsers| > 0 then Percent(atRisk, |aiUsers|) else 0);
    assert sensitiveData == SensitiveDataOf(aiUsers);

    var approval := ApprovalSummary(
      |Where(aiUsers, IsApproved)|, |Where(aiUsers, IsNotApproved)|, |Where(aiUsers, IsUnsure)|, 0);
    var unapproved := approval.notApproved + approval.unsure;
    approval := approval.(percentUnapproved := if |aiUsers| > 0 then Percent(unapproved, |aiUsers|) else 0);
    assert approval == ApprovalOf(aiUsers);

    var guidance := GuidanceGap(|Where(responses, HasGuidance)|, |Where(responses, LacksGuidance)|, 0);
    guidance := guidance.(percentNoGuidance := Percent(guidance.noGuidance, totalResponses));

    var toolCounts := CountTools(aiUsers);
    var toolUsage := SortDesc(ToolRows(toolCounts, |aiUsers|), ToolCount);

    var taskCounts := CountTasks(aiUsers);
    var taskUsage := SortDesc(TaskRows(taskCounts, |aiUsers|), TaskCount);

    var deptData := TallyDepartments(responses);
    var byDepartment := SortDesc(Rows(Where(deptData, IsKnown)), RowResponses);

    var riskFlags := GenerateRiskFlags(aiUsers, approval, guidance, byDepartment);

    a := SurveyAnalytics(
      totalResponses, usesAI, toolUsage, taskUsage, sensitiveData, approval, guidance, byDepartment, riskFlags);
  }

  // ---------------------------------------------------------------------------
  // properties of the result

  /**
   * AI users and the rest add up to the respondents, and so do those with
   * and without guidance.
   */
  lemma CountsAddUp(rs: seq<Response>)
    ensures var a := Analytics(rs);
      && a.usesAI.yes == |Where(rs, UsesAI)|
      && a.usesAI.no == |Where(rs, DoesNotUseAI)|
      && a.usesAI.yes + a.usesAI.no == a.totalResponses == |rs|
      && a.guidanceGap.hasGuidance + a.guidanceGap.noGuidance == a.totalResponses
  {
    WhereComplement(rs, UsesAI, DoesNotUseAI);
    WhereComplement(rs, HasGuidance, LacksGuidance);
  }

  /**
   * The frequency buckets never hold more than the AI users; they hold all
   * of them exactly when every AI user gave one of the recognised answers (a
   * missing or unknown answer lands in none); the share at risk is a
   * percentage.
   */
  lemma SensitiveDataBuckets(aiUsers: seq<Response>)
    ensures var s := SensitiveDataOf(aiUsers);
      && s.regularly + s.occasionally + s.never <= |aiUsers|
      && (s.regularly + s.occasionally + s.never == |aiUsers|
          <==> forall i :: 0 <= i < |aiUsers| ==>
                 EntersRegularly(aiUsers[i]) || EntersOccasionally(aiUsers[i]) || EntersNever(aiUsers[i]))
      && s.percentAtRisk <= 100
  {
    forall r ensures !(EntersRegularly(r) && EntersOccasionally(r)) && !(EntersRegularly(r) && EntersNever(r))
                  && !(EntersOccasionally(r) && EntersNever(r)) {
      BucketsExclusive(r);
    }
    WhereExclusive3(aiUsers, EntersRegularly, EntersOccasionally, EntersNever);
    var s := SensitiveDataOf(aiUsers);
    PercentAtMost100(s.regularly + s.occasionally, |aiUsers|);
  }

  /** The same for the approval buckets and the share without approval. */
  lemma ApprovalBuckets(aiUsers: seq<Response>)
    ensures var p := ApprovalOf(aiUsers);
      && p.approved + p.notApproved + p.unsure <= |aiUsers|
      && (p.approved + p.notApproved + p.unsure == |aiUsers|
          <==> forall i :: 0 <= i < |aiUsers| ==>
                 IsApproved(aiUsers[i]) || IsNotApproved(aiUsers[i]) || IsUnsure(aiUsers[i]))
      && p.percentUnapproved <= 100
  {
    forall r ensures !(IsApproved(r) && IsNotApproved(r)) && !(IsApproved(r) && IsUnsure(r))
                  && !(IsNotApproved(r) && IsUnsure(r)) {
      BucketsExclusive(r);
    }
    WhereExclusive3(aiUsers, IsApproved, IsNotApproved, IsUnsure);
    var p := ApprovalOf(aiUsers);
    PercentAtMost100(p.notApproved + p.unsure, |aiUsers|);
  }

  /** Every percentage of the result that relates a group to a group containing it lies between 0 and 100. */
  lemma PercentagesBounded(rs: seq<Response>)
    ensures var a := Analytics(rs);
      && a.usesAI.percentYes <= 100
      && a.sensitiveDataExposure.percentAtRisk <= 100
      && a.approvalStatus.percentUnapproved <= 100
      && a.guidanceGap.percentNoGuidance <= 100
      && (forall row :: row in a.byDepartment ==>
            row.percentUsingAI <= 100 && row.percentSensitiveData <= 100 && row.percentNoApproval <= 100)
  {
    if |rs| > 0 {
      var ai := AIUsers(rs);
      SensitiveDataBuckets(ai);
      ApprovalBuckets(ai);
      PercentAtMost100(|ai|, |rs|);
      CountsAddUp(rs);
      PercentAtMost100(|Where(rs, LacksGuidance)|, |rs|);
      ByDepartmentRows(rs);
    }
  }

  /**
   * A respondent who does not use AI changes nothing that is computed over
   * AI users (tools, tasks, sensitive data, approval); they count only as a
   * "no" and in the guidance tallies.
   */
  lemma NonAIResponseCountsOnlyAsRespondent(rs: seq<Response>, r: Response)
    requires !r.usesAI
    ensures var before, after := Analytics(rs), Analytics(rs + [r]);
      && after.totalResponses == before.totalResponses + 1
      && after.usesAI.yes == before.usesAI.yes
      && after.usesAI.no == before.usesAI.no + 1
      && after.toolUsage == before.toolUsage
      && after.taskUsage == before.taskUsage
      && after.sensitiveDataExposure == before.sensitiveDataExposure
      && after.approvalStatus == before.approvalStatus
      && after.guidanceGap.hasGuidance == before.guidanceGap.hasGuidance + (if r.hasReceivedGuidance then 1 else 0)
      && after.guidanceGap.noGuidance == before.guidanceGap.noGuidance + (if r.hasReceivedGuidance then 0 else 1)
  {
    assert (rs + [r])[..|rs|] == rs;
    assert AIUsers(rs + [r]) == AIUsers(rs);
    if rs == [] {
      assert AIUsers(rs) == [];
      assert ToolKeys([]) == [] && TaskKeys([]) == [];
    }
  }
  // ---------------------------------------------------------------------------
  // independence of the order of the responses

  lemma SensitiveDataReorder(a: seq<Response>, b: seq<Response>)
    requires multiset(a) == multiset(b)
    ensures SensitiveDataOf(a) == SensitiveDataOf(b)
  {
    assert |a| == |multiset(a)| == |b|;
    WherePerm(a, b, EntersRegularly);
    WherePerm(a, b, EntersOccasionally);
    WherePerm(a, b, EntersNever);
  }

  lemma ApprovalReorder(a: seq<Response>, b: seq<Response>)
    requires multiset(a) == multiset(b)
    ensures ApprovalOf(a) == ApprovalOf(b)
  {
    assert |a| == |multiset(a)| == |b|;
    WherePerm(a, b, IsApproved);
    WherePerm(a, b, IsNotApproved);
    WherePerm(a, b, IsUnsure);
  }

  lemma GuidanceReorder(a: seq<Response>, b: seq<Response>)
    requires multiset(a) == multiset(b)
    ensures GuidanceOf(a) == GuidanceOf(b)
  {
    assert |a| == |multiset(a)| == |b|;
    WherePerm(a, b, HasGuidance);
    WherePerm(a, b, LacksGuidance);
  }

  /** The AI-use counts do not depend on the order of the responses. */
  lemma UsesAIReorder(rs: seq<Response>, rs': seq<Response>)
    requires multiset(rs) == multiset(rs')
    ensures Analytics(rs).usesAI == Analytics(rs').usesAI
  {
    assert |rs| == |multiset(rs)| == |rs'|;
    if |rs| > 0 {
      WherePerm(rs, rs', UsesAI);
    }
  }

  /** The guidance counts do not depend on the order of the responses. */
  lemma GuidanceGapReorder(rs: seq<Response>, rs': seq<Response>)
    requires multiset(rs) == multiset(rs')
    ensures Analytics(rs).guidanceGap == Analytics(rs').guidanceGap
  {
    assert |rs| == |multiset(rs)| == |rs'|;
    if |rs| > 0 {
      GuidanceReorder(rs, rs');
    }
  }

  /** The sensitive-data and approval counts do not depend on the order of the responses. */
  lemma AIUsersReorder(rs: seq<Response>, rs': seq<Response>)
    requires multiset(rs) == multiset(rs')
    ensures var a, b := Analytics(rs), Analytics(rs');
      && a.sensitiveDataExposure == b.sensitiveDataExposure
      && a.approvalStatus == b.approvalStatus
  {
    assert |rs| == |multiset(rs)| == |rs'|;
    if |rs| > 0 {
      var ai, ai' := AIUsers(rs), AIUsers(rs');
      WherePerm(rs, rs', UsesAI);
      SensitiveDataReorder(ai, ai');
      ApprovalReorder(ai, ai');
    }
  }

  /** The lists hold the same rows and flags whatever the order of the responses. */
  lemma ListsReorder(rs: seq<Response>, rs': seq<Response>)
    requires multiset(rs) == multiset(rs')
    ensures var a, b := Analytics(rs), Analytics(rs');
      && multiset(a.toolUsage) == multiset(b.toolUsage)
      && multiset(a.taskUsage) == multiset(b.taskUsage)
      && multiset(a.byDepartment) == multiset(b.byDepartment)
      && multiset(a.riskFlags) == multiset(b.riskFlags)
  {
    assert |rs| == |multiset(rs)| == |rs'|;
    if |rs| > 0 {
      var ai, ai' := AIUsers(rs), AIUsers(rs');
      WherePerm(rs, rs', UsesAI);
      ApprovalReorder(ai, ai');
      GuidanceReorder(rs, rs');
      ToolUsageReorder(ai, ai');
      TaskUsageReorder(ai, ai');
      ByDepartmentReorder(rs, rs');
      RiskFlagsReorder(ai, ai', ApprovalOf(ai), GuidanceOf(rs), ByDepartment(rs), ByDepartment(rs'));
    }
  }

  /**
   * The analytics do not depend on the order of the responses: reordering
   * them leaves every count and percentage as it was, and the lists hold the
   * same rows and flags, at most reordered.
   */
  lemma AnalyticsReorder(rs: seq<Response>, rs': seq<Response>)
    requires multiset(rs) == multiset(rs')
    ensures var a, b := Analytics(rs), Analytics(rs');
      && a.totalResponses == b.totalResponses
      && a.usesAI == b.usesAI
      && a.sensitiveDataExposure == b.sensitiveDataExposure
      && a.approvalStatus == b.approvalStatus
      && a.guidanceGap == b.guidanceGap
      && multiset(a.toolUsage) == multiset(b.toolUsage)
      && multiset(a.taskUsage) == multiset(b.taskUsage)
      && multiset(a.byDepartment) == multiset(b.byDepartment)
      && multiset(a.riskFlags) == multiset(b.riskFlags)
  {
    assert |rs| == |multiset(rs)| == |rs'|;
    UsesAIReorder(rs, rs');
    GuidanceGapReorder(rs, rs');
    AIUsersReorder(rs, rs');
    ListsReorder(rs, rs');
  }
}
