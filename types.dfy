/**
 * The shared vocabulary of the survey system (src/lib/types.ts): the string
 * enums that responses are coded in, the survey record, the survey status
 * classifier, and the shape of the analytics result.
 *
 * Each TypeScript string enum becomes a datatype whose `Key()` is the member
 * name and whose `Value()` is the string stored in a response; `...Members`
 * lists the members in declaration order, as `Object.entries` does.
 */
module Types {
  import opened Wrappers
  import opened Seqs

  // ---------------------------------------------------------------------------
  // enums

  datatype Department =
    | Marketing | HR | IT | Finance | Operations | Legal | Sales | CustomerService | Engineering | Other
  {
    function Key(): string {
      match this
      case Marketing => "Marketing"
      case HR => "HR"
      case IT => "IT"
      case Finance => "Finance"
      case Operations => "Operations"
      case Legal => "Legal"
      case Sales => "Sales"
      case CustomerService => "CustomerService"
      case Engineering => "Engineering"
      case Other => "Other"
    }

    function Value(): string {
      match this
      case Marketing => "Marketing"
      case HR => "HR"
      case IT => "IT"
      case Finance => "Finance"
      case Operations => "Operations"
      case Legal => "Legal"
      case Sales => "Sales"
      case CustomerService => "Customer Service"
      case Engineering => "Engineering"
      case Other => "Other"
    }
  }

  const DepartmentMembers: seq<Department> := [
    Department.Marketing, Department.HR, Department.IT, Department.Finance, Department.Operations,
    Department.Legal, Department.Sales, Department.CustomerService, Department.Engineering, Department.Other
  ]

  datatype TaskType =
    | WritingEmails | Coding | DataAnalysis | DesignCreative | CustomerService
    | HRRecruitment | MarketingContent | MeetingNotes | Translation | Other
  {
    function Key(): string {
      match this
      case WritingEmails => "WritingEmails"
      case Coding => "Coding"
      case DataAnalysis => "DataAnalysis"
      case DesignCreative => "DesignCreative"
      case CustomerService => "CustomerService"
      case HRRecruitment => "HRRecruitment"
      case MarketingContent => "MarketingContent"
      case MeetingNotes => "MeetingNotes"
      case Translation => "Translation"
      case Other => "Other"
    }

    function Value(): string {
      match this
      case WritingEmails => "Writing emails/documents"
      case Coding => "Coding/development"
      case DataAnalysis => "Data analysis/research"
      case DesignCreative => "Design/creative work"
      case CustomerService => "Customer service interactions"
      case HRRecruitment => "HR/recruitment tasks"
      case MarketingContent => "Marketing content creation"
      case MeetingNotes => "Meeting notes/summaries"
      case Translation => "Translation"
      case Other => "Other"
    }
  }

  const TaskTypeMembers: seq<TaskType> := [
    TaskType.WritingEmails, TaskType.Coding, TaskType.DataAnalysis, TaskType.DesignCreative,
    TaskType.CustomerService, TaskType.HRRecruitment, TaskType.MarketingContent,
    TaskType.MeetingNotes, TaskType.Translation, TaskType.Other
  ]

  datatype SubscriptionType = FreeOnly | PaidPersonal | PaidCompany | Both {
    function Key(): string {
      match this
      case FreeOnly => "FreeOnly"
      case PaidPersonal => "PaidPersonal"
      case PaidCompany => "PaidCompany"
      case Both => "Both"
    }

    function Value(): string {
      match this
      case FreeOnly => "Free only"
      case PaidPersonal => "Paid (personal subscription)"
      case PaidCompany => "Paid (company subscription)"
      case Both => "Both free and paid"
    }
  }

  const SubscriptionTypeMembers: seq<SubscriptionType> := [
    SubscriptionType.FreeOnly, SubscriptionType.PaidPersonal, SubscriptionType.PaidCompany, SubscriptionType.Both
  ]

  datatype DataEntryFrequency = Regularly | Occasionally | Never {
    function Key(): string {
      match this
      case Regularly => "Regularly"
      case Occasionally => "Occasionally"
      case Never => "Never"
    }

    function Value(): string {
      match this
      case Regularly => "Yes, regularly"
      case Occasionally => "Occasionally"
      case Never => "No, never"
    }
  }

  const DataEntryFrequencyMembers: seq<DataEntryFrequency> := [
    DataEntryFrequency.Regularly, DataEntryFrequency.Occasionally, DataEntryFrequency.Never
  ]

  datatype ApprovalStatus = Yes | No | Unsure {
    function Key(): string {
      match this
      case Yes => "Yes"
      case No => "No"
      case Unsure => "Unsure"
    }

    function Value(): string {
      match this
      case Yes => "Yes"
      case No => "No"
      case Unsure => "Unsure"
    }
  }

  const ApprovalStatusMembers: seq<ApprovalStatus> := [ApprovalStatus.Yes, ApprovalStatus.No, ApprovalStatus.Unsure]

  /**
   * The stored strings of each answer enum are pairwise distinct, so a stored
   * answer matches at most one member and the engine's per-member counts never
   * count one response twice.
   */
  lemma EnumValuesDistinct()
    ensures forall a: DataEntryFrequency, b: DataEntryFrequency :: a.Value() == b.Value() ==> a == b
    ensures forall a: ApprovalStatus, b: ApprovalStatus :: a.Value() == b.Value() ==> a == b
    ensures forall a: SubscriptionType, b: SubscriptionType :: a.Value() == b.Value() ==> a == b
    ensures forall a: TaskType, b: TaskType :: a.Value() == b.Value() ==> a == b
    ensures forall a: Department, b: Department :: a.Value() == b.Value() ==> a == b
  {
    FrequencyValuesDistinct();
    ApprovalValuesDistinct();
    SubscriptionValuesDistinct();
    TaskValuesDistinct();
    DepartmentValuesDistinct();
  }

  lemma FrequencyValuesDistinct()
    ensures forall a: DataEntryFrequency, b: DataEntryFrequency :: a.Value() == b.Value() ==> a == b
  {
  }

  lemma ApprovalValuesDistinct()
    ensures forall a: ApprovalStatus, b: ApprovalStatus :: a.Value() == b.Value() ==> a == b
  {
  }

  lemma SubscriptionValuesDistinct()
    ensures forall a: SubscriptionType, b: SubscriptionType :: a.Value() == b.Value() ==> a == b
  {
  }

  lemma TaskValuesDistinct()
    ensures forall a: TaskType, b: TaskType :: a.Value() == b.Value() ==> a == b
  {
  }

  lemma DepartmentValuesDistinct()
    ensures forall a: Department, b: Department :: a.Value() == b.Value() ==> a == b
  {
  }

  /** Each `...Members` list names every member exactly once. */
  lemma MemberListsComplete()
    ensures Distinct(DepartmentMembers) && forall d: Department :: d in DepartmentMembers
    ensures Distinct(TaskTypeMembers) && forall t: TaskType :: t in TaskTypeMembers
    ensures Distinct(SubscriptionTypeMembers) && forall s: SubscriptionType :: s in SubscriptionTypeMembers
    ensures Distinct(DataEntryFrequencyMembers) && forall f: DataEntryFrequency :: f in DataEntryFrequencyMembers
    ensures Distinct(ApprovalStatusMembers) && forall a: ApprovalStatus :: a in ApprovalStatusMembers
  {
    forall d: Department ensures d in DepartmentMembers {
      match d
      case Marketing => assert DepartmentMembers[0] == d;
      case HR => assert DepartmentMembers[1] == d;
      case IT => assert DepartmentMembers[2] == d;
      case Finance => assert DepartmentMembers[3] == d;
      case Operations => assert DepartmentMembers[4] == d;
      case Legal => assert DepartmentMembers[5] == d;
      case Sales => assert DepartmentMembers[6] == d;
      case CustomerService => assert DepartmentMembers[7] == d;
      case Engineering => assert DepartmentMembers[8] == d;
      case Other => assert DepartmentMembers[9] == d;
    }
    forall t: TaskType ensures t in TaskTypeMembers {
      match t
      case WritingEmails => assert TaskTypeMembers[0] == t;
      case Coding => assert TaskTypeMembers[1] == t;
      case DataAnalysis => assert TaskTypeMembers[2] == t;
      case DesignCreative => assert TaskTypeMembers[3] == t;
      case CustomerService => assert TaskTypeMembers[4] == t;
      case HRRecruitment => assert TaskTypeMembers[5] == t;
      case MarketingContent => assert TaskTypeMembers[6] == t;
      case MeetingNotes => assert TaskTypeMembers[7] == t;
      case Translation => assert TaskTypeMembers[8] == t;
      case Other => assert TaskTypeMembers[9] == t;
    }
    forall s: SubscriptionType ensures s in SubscriptionTypeMembers {
      match s
      case FreeOnly => assert SubscriptionTypeMembers[0] == s;
      case PaidPersonal => assert SubscriptionTypeMembers[1] == s;
      case PaidCompany => assert SubscriptionTypeMembers[2] == s;
      case Both => assert SubscriptionTypeMembers[3] == s;
    }
    forall f: DataEntryFrequency ensures f in DataEntryFrequencyMembers {
      match f
      case Regularly => assert DataEntryFrequencyMembers[0] == f;
      case Occasionally => assert DataEntryFrequencyMembers[1] == f;
      case Never => assert DataEntryFrequencyMembers[2] == f;
    }
    forall a: ApprovalStatus ensures a in ApprovalStatusMembers {
      match a
      case Yes => assert ApprovalStatusMembers[0] == a;
      case No => assert ApprovalStatusMembers[1] == a;
      case Unsure => assert ApprovalStatusMembers[2] == a;
    }
  }

  // ---------------------------------------------------------------------------
  // surveys

  /** A survey as stored; instants are milliseconds since the epoch. */
  datatype Survey = Survey(
    id: string,
    name: string,
    description: string,
    isAnonymous: bool,
    collectDepartment: bool,
    collectEmail: bool,
    isActive: bool,
    createdAt: int,
    updatedAt: int,
    expiresAt: Option<int>,
    responseCount: nat,
    createdBy: string,
    organisationId: string)

  datatype SurveyStatus = Active | Closed | Expired

  /**
   * `getSurveyStatus`, with the current instant passed in: a deactivated
   * survey is closed whatever its expiry; an active one is expired once its
   * expiry lies strictly in the past, and active otherwise (so a survey whose
   * expiry is exactly `now` is still active).
   */
  function GetSurveyStatus(survey: Survey, now: int): (status: SurveyStatus)
    ensures status == Closed <==> !survey.isActive
    ensures status == Expired <==> survey.isActive && survey.expiresAt.Some? && survey.expiresAt.value < now
    ensures status == Active <==> survey.isActive && (survey.expiresAt.None? || survey.expiresAt.value >= now)
  {
    if !survey.isActive then Closed
    else if survey.expiresAt.Some? && survey.expiresAt.value < now then Expired
    else Active
  }

  // ---------------------------------------------------------------------------
  // analytics result

  datatype AIUsage = AIUsage(yes: nat, no: nat, percentYes: nat)

  datatype ToolUsage = ToolUsage(toolId: string, toolName: string, count: nat, percentage: nat)

  datatype TaskUsage = TaskUsage(task: string, count: nat, percentage: nat)

  datatype SensitiveDataExposure = SensitiveDataExposure(regularly: nat, occasionally: nat, never: nat, percentAtRisk: nat)

  datatype ApprovalSummary = ApprovalSummary(approved: nat, notApproved: nat, unsure: nat, percentUnapproved: nat)

  datatype GuidanceGap = GuidanceGap(hasGuidance: nat, noGuidance: nat, percentNoGuidance: nat)

  datatype DepartmentRow = DepartmentRow(
    department: string,
    responses: nat,
    percentUsingAI: nat,
    percentSensitiveData: nat,
    percentNoApproval: nat)

  datatype Severity = High | Medium | Low

  /**
   * What a risk flag says. The source stores the rendered sentence; the model
   * keeps the numbers the sentence is built from (RiskFlags.Text renders it).
   */
  datatype Message =
    | SensitiveUnapproved(employees: nat)
    | GuidanceMissing(percent: nat)
    | ApprovalMissing(percent: nat)
    | DepartmentExposure(department: string, percentSensitive: nat, percentUnapproved: nat)

  datatype RiskFlag = RiskFlag(severity: Severity, message: Message, count: nat)

  datatype SurveyAnalytics = SurveyAnalytics(
    totalResponses: nat,
    usesAI: AIUsage,
    toolUsage: seq<ToolUsage>,
    taskUsage: seq<TaskUsage>,
    sensitiveDataExposure: SensitiveDataExposure,
    approvalStatus: ApprovalSummary,
    guidanceGap: GuidanceGap,
    byDepartment: seq<DepartmentRow>,
    riskFlags: seq<RiskFlag>)
}
