/**
 * `generateRiskFlags` (src/lib/analytics.ts:167-225): the flags pushed in a
 * fixed order (sensitive data in unapproved tools, missing guidance, missing
 * approval, then one per exposed department), then sorted by severity with a
 * stable sort. Messages are kept as the numbers they are built from; `Text`
 * renders them as the engine does.
 */
module RiskFlags {
  import opened Seqs
  import opened Types
  import opened Responses

  /** `severityOrder`: high 0, medium 1, low 2. */
  function Rank(s: Severity): nat {
    match s
    case High => 0
    case Medium => 1
    case Low => 2
  }

  /**
   * Sorting ascending by `severityOrder[a.severity] - severityOrder[b.severity]`
   * is sorting descending by the negated rank.
   */
  function FlagKey(f: RiskFlag): int { -(Rank(f.severity) as int) }

  /** AI users who may enter sensitive data (a missing answer included) and lack approval (likewise). */
  function SensitiveUnapprovedCount(aiUsers: seq<Response>): nat {
    |Where(aiUsers, SensitiveAndUnapproved)|
  }

  predicate Exposed(d: DepartmentRow) { d.percentSensitiveData > 50 && d.percentNoApproval > 50 }

  function DeptFlag(d: DepartmentRow): RiskFlag {
    RiskFlag(High, DepartmentExposure(d.department, d.percentSensitiveData, d.percentNoApproval), d.responses)
  }

  /** The department flags, pushed in the order of the department rows. */
  function DeptFlags(depts: seq<DepartmentRow>): seq<RiskFlag> {
    if depts == [] then []
    else DeptFlags(depts[..|depts| - 1]) + (if Exposed(depts[|depts| - 1]) then [DeptFlag(depts[|depts| - 1])] else [])
  }

  function SensitiveFlag(aiUsers: seq<Response>): seq<RiskFlag> {
    var n := SensitiveUnapprovedCount(aiUsers);
    if n > 0 then [RiskFlag(High, SensitiveUnapproved(n), n)] else []
  }

  function GuidanceFlag(guidance: GuidanceGap): seq<RiskFlag> {
    if guidance.percentNoGuidance > 50
    then [RiskFlag(High, GuidanceMissing(guidance.percentNoGuidance), guidance.noGuidance)]
    else []
  }

  function ApprovalFlag(approval: ApprovalSummary): seq<RiskFlag> {
    if approval.percentUnapproved > 30
    then [RiskFlag(Medium, ApprovalMissing(approval.percentUnapproved), approval.notApproved + approval.unsure)]
    else []
  }

  /** `flags` before the sort, in push order. */
  function Pushed(aiUsers: seq<Response>, approval: ApprovalSummary, guidance: GuidanceGap, depts: seq<DepartmentRow>): seq<RiskFlag> {
    SensitiveFlag(aiUsers) + GuidanceFlag(guidance) + ApprovalFlag(approval) + DeptFlags(depts)
  }

  /** The list `generateRiskFlags` returns. */
  function RiskFlagsOf(aiUsers: seq<Response>, approval: ApprovalSummary, guidance: GuidanceGap, depts: seq<DepartmentRow>): seq<RiskFlag> {
    SortDesc(Pushed(aiUsers, approval, guidance, depts), FlagKey)
  }

  /**
   * `generateRiskFlags`; the unused `responses` and `sensitiveData`
   * arguments of the source are not passed.
   */
  method GenerateRiskFlags(aiUsers: seq<Response>, approval: ApprovalSummary, guidance: GuidanceGap, byDepartment: seq<DepartmentRow>)
    returns (flags: seq<RiskFlag>)
    ensures flags == RiskFlagsOf(aiUsers, approval, guidance, byDepartment)
  {
    flags := [];
    var sensitiveUnapproved := |Where(aiUsers, SensitiveAndUnapproved)|;
    if sensitiveUnapproved > 0 {
      flags := flags + [RiskFlag(High, SensitiveUnapproved(sensitiveUnapproved), sensitiveUnapproved)];
    }
    if guidance.percentNoGuidance > 50 {
      flags := flags + [RiskFlag(High, GuidanceMissing(guidance.percentNoGuidance), guidance.noGuidance)];
    }
    if approval.percentUnapproved > 30 {
      flags := flags + [RiskFlag(Medium, ApprovalMissing(approval.percentUnapproved), approval.notApproved + approval.unsure)];
    }
    ghost var fixed := flags;
    assert fixed == SensitiveFlag(aiUsers) + GuidanceFlag(guidance) + ApprovalFlag(approval);
    for i := 0 to |byDepartment|
      invariant flags == fixed + DeptFlags(byDepartment[..i])
    {
      var dept := byDepartment[i];
      assert byDepartment[..i + 1][..i] == byDepartment[..i];
      if dept.percentSensitiveData > 50 && dept.percentNoApproval > 50 {
        flags := flags + [RiskFlag(High, DepartmentExposure(dept.department, dept.percentSensitiveData, dept.percentNoApproval), dept.responses)];
      }
    }
    assert byDepartment[..|byDepartment|] == byDepartment;
    flags := SortDesc(flags, FlagKey);
  }

  // ---------------------------------------------------------------------------
  // properties

  /** One high flag per department row with both percentages above 50, in row order. */
  lemma {:induction false} DeptFlagsSpec(depts: seq<DepartmentRow>)
    ensures var e := Where(depts, Exposed);
      && |DeptFlags(depts)| == |e|
      && (forall i :: 0 <= i < |e| ==> DeptFlags(depts)[i] == DeptFlag(e[i]))
      && (forall f :: f in DeptFlags(depts) ==> f.severity == High && f.message.DepartmentExposure?)
  {
    if depts != [] {
      DeptFlagsSpec(depts[..|depts| - 1]);
    }
  }

  /** Generated flags are high or medium, never low. */
  lemma PushedSeverities(aiUsers: seq<Response>, approval: ApprovalSummary, guidance: GuidanceGap, depts: seq<DepartmentRow>)
    ensures forall f :: f in Pushed(aiUsers, approval, guidance, depts) ==> FlagKey(f) == 0 || FlagKey(f) == -1
  {
    DeptFlagsSpec(depts);
  }

  /**
   * The returned list has every high flag before every medium flag, and
   * within a severity the flags keep the order they were pushed in.
   */
  lemma RiskFlagsOrder(aiUsers: seq<Response>, approval: ApprovalSummary, guidance: GuidanceGap, depts: seq<DepartmentRow>)
    ensures var flags := RiskFlagsOf(aiUsers, approval, guidance, depts);
      && (forall i, j :: 0 <= i < j < |flags| ==> Rank(flags[i].severity) <= Rank(flags[j].severity))
      && (forall c :: WithKey(flags, FlagKey, c) == WithKey(Pushed(aiUsers, approval, guidance, depts), FlagKey, c))
  {
    var p := Pushed(aiUsers, approval, guidance, depts);
    SortDescSorted(p, FlagKey);
    forall c ensures WithKey(SortDesc(p, FlagKey), FlagKey, c) == WithKey(p, FlagKey, c) {
      SortDescStable(p, FlagKey, c);
    }
  }

  /** The high flags in push order: sensitive data, guidance, then the departments. */
  lemma HighFlagsPushed(aiUsers: seq<Response>, approval: ApprovalSummary, guidance: GuidanceGap, depts: seq<DepartmentRow>)
    ensures WithKey(Pushed(aiUsers, approval, guidance, depts), FlagKey, 0)
         == SensitiveFlag(aiUsers) + GuidanceFlag(guidance) + DeptFlags(depts)
  {
    var a, b, c, d := SensitiveFlag(aiUsers), GuidanceFlag(guidance), ApprovalFlag(approval), DeptFlags(depts);
    calc {
      WithKey(a + b + c + d, FlagKey, 0);
    == { WithKeyAppend(a + b + c, d, FlagKey, 0); }
      WithKey(a + b + c, FlagKey, 0) + WithKey(d, FlagKey, 0);
    == { DeptFlagsHigh(depts); WithKeyAll(d, FlagKey, 0); }
      WithKey(a + b + c, FlagKey, 0) + d;
    == { WithKeyAppend(a + b, c, FlagKey, 0); WithKeyNone(c, FlagKey, 0); }
      WithKey(a + b, FlagKey, 0) + d;
    == { WithKeyAppend(a, b, FlagKey, 0); WithKeyAll(a, FlagKey, 0); WithKeyAll(b, FlagKey, 0); }
      a + b + d;
    }
  }

  /** The only medium flag is the approval flag. */
  lemma MediumFlagsPushed(aiUsers: seq<Response>, approval: ApprovalSummary, guidance: GuidanceGap, depts: seq<DepartmentRow>)
    ensures WithKey(Pushed(aiUsers, approval, guidance, depts), FlagKey, -1) == ApprovalFlag(approval)
  {
    var a, b, c, d := SensitiveFlag(aiUsers), GuidanceFlag(guidance), ApprovalFlag(approval), DeptFlags(depts);
    calc {
      WithKey(a + b + c + d, FlagKey, -1);
    == { WithKeyAppend(a + b + c, d, FlagKey, -1); }
      WithKey(a + b + c, FlagKey, -1) + WithKey(d, FlagKey, -1);
    == { DeptFlagsHigh(depts); WithKeyNone(d, FlagKey, -1); }
      WithKey(a + b + c, FlagKey, -1);
    == { WithKeyAppend(a + b, c, FlagKey, -1); WithKeyAll(c, FlagKey, -1); }
      WithKey(a + b, FlagKey, -1) + c;
    == { WithKeyAppend(a, b, FlagKey, -1); WithKeyNone(a, FlagKey, -1); WithKeyNone(b, FlagKey, -1); }
      c;
    }
  }

  /** Department flags are all high. */
  lemma DeptFlagsHigh(depts: seq<DepartmentRow>)
    ensures forall i :: 0 <= i < |DeptFlags(depts)| ==> FlagKey(DeptFlags(depts)[i]) == 0
  {
    DeptFlagsSpec(depts);
    var d := DeptFlags(depts);
    forall i | 0 <= i < |d| ensures FlagKey(d[i]) == 0 {
      assert d[i] in d;
    }
  }

  /**
   * What `generateRiskFlags` returns, written out: the sensitive-data flag,
   * the guidance flag, the department flags in row order, then the approval
   * flag, each present exactly when its threshold is passed.
   */
  lemma RiskFlagsClosedForm(aiUsers: seq<Response>, approval: ApprovalSummary, guidance: GuidanceGap, depts: seq<DepartmentRow>)
    ensures RiskFlagsOf(aiUsers, approval, guidance, depts)
         == SensitiveFlag(aiUsers) + GuidanceFlag(guidance) + DeptFlags(depts) + ApprovalFlag(approval)
  {
    var p := Pushed(aiUsers, approval, guidance, depts);
    var s := RiskFlagsOf(aiUsers, approval, guidance, depts);
    PushedSeverities(aiUsers, approval, guidance, depts);
    SortDescSorted(p, FlagKey);
    assert forall i :: 0 <= i < |s| ==> FlagKey(s[i]) == 0 || FlagKey(s[i]) == -1 by {
      forall i | 0 <= i < |s| ensures FlagKey(s[i]) == 0 || FlagKey(s[i]) == -1 {
        assert s[i] in multiset(p);
      }
    }
    SortedTwoBlocks(s, FlagKey, 0, -1);
    SortDescStable(p, FlagKey, 0);
    SortDescStable(p, FlagKey, -1);
    HighFlagsPushed(aiUsers, approval, guidance, depts);
    MediumFlagsPushed(aiUsers, approval, guidance, depts);
  }

  /** A returned flag comes from exactly one of the four pushes. */
  lemma FlagSources(aiUsers: seq<Response>, approval: ApprovalSummary, guidance: GuidanceGap, depts: seq<DepartmentRow>)
    ensures forall f :: f in RiskFlagsOf(aiUsers, approval, guidance, depts) <==>
      f in SensitiveFlag(aiUsers) || f in GuidanceFlag(guidance) || f in DeptFlags(depts) || f in ApprovalFlag(approval)
    ensures forall f :: f in DeptFlags(depts) ==> f.severity == High && f.message.DepartmentExposure?
  {
    RiskFlagsClosedForm(aiUsers, approval, guidance, depts);
    DeptFlagsSpec(depts);
  }

  /** The sensitive-data flag appears exactly when some AI user is at risk, and reports how many. */
  lemma SensitiveFlagPresence(aiUsers: seq<Response>, approval: ApprovalSummary, guidance: GuidanceGap, depts: seq<DepartmentRow>)
    ensures var flags, n := RiskFlagsOf(aiUsers, approval, guidance, depts), SensitiveUnapprovedCount(aiUsers);
      && (RiskFlag(High, SensitiveUnapproved(n), n) in flags <==> n > 0)
      && (forall f :: f in flags && f.message.SensitiveUnapproved? ==> f == RiskFlag(High, SensitiveUnapproved(n), n))
  {
    FlagSources(aiUsers, approval, guidance, depts);
    var flags, n := RiskFlagsOf(aiUsers, approval, guidance, depts), SensitiveUnapprovedCount(aiUsers);
    var g, d, a := GuidanceFlag(guidance), DeptFlags(depts), ApprovalFlag(approval);
    var flag := RiskFlag(High, SensitiveUnapproved(n), n);
    assert flag !in g && flag !in d && flag !in a;
    assert flag in flags <==> flag in SensitiveFlag(aiUsers);
    forall f | f in flags && f.message.SensitiveUnapproved? ensures f == flag {
      assert f !in g && f !in d && f !in a;
    }
  }

  /** The guidance flag appears exactly when more than half of the respondents lack guidance. */
  lemma GuidanceFlagPresence(aiUsers: seq<Response>, approval: ApprovalSummary, guidance: GuidanceGap, depts: seq<DepartmentRow>)
    ensures var flags := RiskFlagsOf(aiUsers, approval, guidance, depts);
      && (RiskFlag(High, GuidanceMissing(guidance.percentNoGuidance), guidance.noGuidance) in flags
          <==> guidance.percentNoGuidance > 50)
      && (forall f :: f in flags && f.message.GuidanceMissing? ==>
            f == RiskFlag(High, GuidanceMissing(guidance.percentNoGuidance), guidance.noGuidance))
  {
    FlagSources(aiUsers, approval, guidance, depts);
    var flags := RiskFlagsOf(aiUsers, approval, guidance, depts);
    var s, d, a := SensitiveFlag(aiUsers), DeptFlags(depts), ApprovalFlag(approval);
    var flag := RiskFlag(High, GuidanceMissing(guidance.percentNoGuidance), guidance.noGuidance);
    assert flag !in s && flag !in d && flag !in a;
    assert flag in flags <==> flag in GuidanceFlag(guidance);
    forall f | f in flags && f.message.GuidanceMissing? ensures f == flag {
      assert f !in s && f !in d && f !in a;
    }
  }

  /** The medium approval flag appears exactly when more than 30% of AI users lack approval. */
  lemma ApprovalFlagPresence(aiUsers: seq<Response>, approval: ApprovalSummary, guidance: GuidanceGap, depts: seq<DepartmentRow>)
    ensures var flags := RiskFlagsOf(aiUsers, approval, guidance, depts);
      && (RiskFlag(Medium, ApprovalMissing(approval.percentUnapproved), approval.notApproved + approval.unsure) in flags
          <==> approval.percentUnapproved > 30)
      && (forall f :: f in flags && f.message.ApprovalMissing? ==>
            f == RiskFlag(Medium, ApprovalMissing(approval.percentUnapproved), approval.notApproved + approval.unsure))
  {
    FlagSources(aiUsers, approval, guidance, depts);
    var flags := RiskFlagsOf(aiUsers, approval, guidance, depts);
    var s, g, d := SensitiveFlag(aiUsers), GuidanceFlag(guidance), DeptFlags(depts);
    var flag := RiskFlag(Medium, ApprovalMissing(approval.percentUnapproved), approval.notApproved + approval.unsure);
    assert flag !in s && flag !in g && flag !in d;
    assert flag in flags <==> flag in ApprovalFlag(approval);
    forall f | f in flags && f.message.ApprovalMissing? ensures f == flag {
      assert f !in s && f !in g && f !in d;
    }
  }

  /** A department flag is pushed exactly for each row with both percentages above 50. */
  lemma {:induction false} DeptFlagsMember(depts: seq<DepartmentRow>, f: RiskFlag)
    ensures f in DeptFlags(depts) <==> exists x :: x in depts && Exposed(x) && f == DeptFlag(x)
  {
    if depts != [] {
      var init, last := depts[..|depts| - 1], depts[|depts| - 1];
      DeptFlagsMember(init, f);
      assert depts == init + [last];
      if exists x :: x in depts && Exposed(x) && f == DeptFlag(x) {
        var x :| x in depts && Exposed(x) && f == DeptFlag(x);
        if x != last {
          assert x in init;
        }
      }
    }
  }

  /**
   * The department flags returned are exactly the pushed department flags
   * (DeptFlagsMember: those of the rows with both percentages above 50).
   */
  lemma DeptFlagPresence(aiUsers: seq<Response>, approval: ApprovalSummary, guidance: GuidanceGap, depts: seq<DepartmentRow>)
    ensures var flags := RiskFlagsOf(aiUsers, approval, guidance, depts);
      forall f :: f in flags && f.message.DepartmentExposure? <==> f in DeptFlags(depts)
  {
    FlagSources(aiUsers, approval, guidance, depts);
  }

  // ---------------------------------------------------------------------------
  // independence of the order of the inputs

  /** The flag one department row contributes: its exposure flag, or nothing. */
  function DeptFlagOf(d: DepartmentRow): seq<RiskFlag> {
    if Exposed(d) then [DeptFlag(d)] else []
  }

  lemma {:induction false} DeptFlagsFlat(depts: seq<DepartmentRow>)
    ensures DeptFlags(depts) == FlatMap(depts, DeptFlagOf)
  {
    if depts != [] {
      DeptFlagsFlat(depts[..|depts| - 1]);
    }
  }

  /**
   * Reordering the AI users and the department rows reorders the flags and
   * changes none of them.
   */
  lemma RiskFlagsReorder(aiUsers: seq<Response>, aiUsers': seq<Response>, approval: ApprovalSummary,
                         guidance: GuidanceGap, depts: seq<DepartmentRow>, depts': seq<DepartmentRow>)
    requires multiset(aiUsers) == multiset(aiUsers') && multiset(depts) == multiset(depts')
    ensures multiset(RiskFlagsOf(aiUsers, approval, guidance, depts))
         == multiset(RiskFlagsOf(aiUsers', approval, guidance, depts'))
  {
    WherePerm(aiUsers, aiUsers', SensitiveAndUnapproved);
    DeptFlagsFlat(depts);
    DeptFlagsFlat(depts');
    FlatMapPerm(depts, depts', DeptFlagOf);
  }

  // ---------------------------------------------------------------------------
  // message text

  function DigitChar(d: nat): char
    requires d < 10
  {
    "0123456789"[d]
  }

  predicate IsDigit(c: char) { '0' <= c <= '9' }

  /**
   * A natural number in decimal, as a template literal shows it: digits only,
   * with no leading zero, and "0" exactly for zero.
   */
  function NatToString(n: nat): (s: string)
    ensures |s| >= 1 && forall i :: 0 <= i < |s| ==> IsDigit(s[i])
    ensures |s| > 1 ==> s[0] != '0'
    ensures s == "0" <==> n == 0
  {
    if n < 10 then [DigitChar(n)] else NatToString(n / 10) + [DigitChar(n % 10)]
  }

  function DigitValue(c: char): nat
    requires IsDigit(c)
  {
    c as int - '0' as int
  }

  /** The number a string of decimal digits denotes. */
  function DigitsValue(s: string): nat
    requires forall i :: 0 <= i < |s| ==> IsDigit(s[i])
  {
    if s == [] then 0 else 10 * DigitsValue(s[..|s| - 1]) + DigitValue(s[|s| - 1])
  }

  /** Reading back the decimal text of a number gives the number. */
  lemma {:induction false} NatToStringRoundTrip(n: nat)
    ensures DigitsValue(NatToString(n)) == n
  {
    if n >= 10 {
      NatToStringRoundTrip(n / 10);
      var s := NatToString(n);
      assert s[..|s| - 1] == NatToString(n / 10);
    }
  }

  function Text(m: Message): string {
    match m
    case SensitiveUnapproved(n) => NatToString(n) + Agreement(n) + " sensitive data into unapproved tools"
    case GuidanceMissing(p) => NatToString(p) + "% of employees have not received AI guidance"
    case ApprovalMissing(p) => NatToString(p) + "% of AI users lack manager/IT approval"
    case DepartmentExposure(dept, s, u) =>
      dept + " has high shadow AI exposure (" + NatToString(s) + "% sensitive data, " + NatToString(u) + "% unapproved)"
  }

  /** `employee${n > 1 ? 's' : ''} enter${n === 1 ? 's' : ''}`, with the leading space. */
  function Agreement(n: nat): string {
    " employee" + (if n > 1 then "s" else "") + " enter" + (if n == 1 then "s" else "")
  }

  /**
   * One employee "enters", several "employees enter"; zero, which is never
   * reported, would read "employee enter".
   */
  lemma AgreementSpec(n: nat)
    ensures n == 1 ==> Agreement(n) == " employee enters"
    ensures n > 1 ==> Agreement(n) == " employees enter"
    ensures n == 0 ==> Agreement(n) == " employee enter"
  {
    var x := Agreement(n);
    if n == 1 {
      assert forall i :: 0 <= i < 16 ==> x[i] == " employee enters"[i];
    } else if n > 1 {
      assert forall i :: 0 <= i < 16 ==> x[i] == " employees enter"[i];
    } else {
      assert forall i :: 0 <= i < 15 ==> x[i] == " employee enter"[i];
    }
  }
}
