/**
 * The pure part of `/api/surveys` (src/app/api/surveys/route.ts): the checks
 * and defaults `POST` applies to a request body before it creates a survey,
 * and the dashboard counts `GET` folds over the organisation's surveys.
 * The session, the database and the clock are parameters.
 */
module SurveysRoute {
  import opened Wrappers
  import opened Seqs
  import opened Types

  // ---------------------------------------------------------------------------
  // POST: validation and defaults

  /** The fields of the JSON body `POST` reads; a field that is absent or `null` is `None`. */
  datatype CreateBody = CreateBody(
    name: Option<string>,
    description: Option<string>,
    isAnonymous: Option<bool>,
    collectDepartment: Option<bool>,
    collectEmail: Option<bool>,
    isActive: Option<bool>,
    expiresAt: Option<string>)

  /** The three 400 answers, in the order the checks run. */
  datatype CreateError = NameLength | DescriptionLength | EmailOnAnonymous

  /**
   * The `data` handed to the store. `expiresAt` is the text the route gives to
   * `new Date`; the store assigns the id and the timestamps.
   */
  datatype SurveyData = SurveyData(
    name: string,
    description: string,
    isAnonymous: bool,
    collectDepartment: bool,
    collectEmail: bool,
    isActive: bool,
    expiresAt: Option<string>,
    createdBy: string,
    organisationId: string)

  const MinNameLength: nat := 3
  const MaxNameLength: nat := 100
  const MinDescriptionLength: nat := 10
  const MaxDescriptionLength: nat := 1000

  /** `!text || text.length < lo || text.length > hi` */
  predicate BadLength(text: Option<string>, lo: nat, hi: nat) {
    text.None? || text.value == "" || |text.value| < lo || |text.value| > hi
  }

  /** A boolean field is truthy only when it was sent as `true`. */
  predicate Truthy(b: Option<bool>) { b == Some(true) }

  /** `b ?? fallback`: only an absent field takes the fallback; an explicit `false` stays. */
  function OrDefault(b: Option<bool>, fallback: bool): bool {
    if b.Some? then b.value else fallback
  }

  /** `expiresAt ? new Date(expiresAt) : null`: an absent or empty expiry means none. */
  function ExpiryText(expiresAt: Option<string>): Option<string> {
    if expiresAt.Some? && expiresAt.value != "" then expiresAt else None
  }

  /**
   * What `POST /api/surveys` stores for a body, on behalf of `userId` of
   * `organisationId`, or the first check it fails: the name check, then the
   * description check, then the email-on-anonymous check. A body passes
   * exactly when its name has 3 to 100 characters, its description 10 to
   * 1000, and it does not ask both for email and for anonymity; the survey
   * stored then carries the name and description as sent.
   */
  function CreateSurvey(body: CreateBody, userId: string, organisationId: string): (r: Result<SurveyData, CreateError>)
    ensures r == Failure(NameLength) <==>
      !(body.name.Some? && MinNameLength <= |body.name.value| <= MaxNameLength)
    ensures r == Failure(DescriptionLength) <==>
      && body.name.Some? && MinNameLength <= |body.name.value| <= MaxNameLength
      && !(body.description.Some? && MinDescriptionLength <= |body.description.value| <= MaxDescriptionLength)
    ensures r == Failure(EmailOnAnonymous) <==>
      && body.name.Some? && MinNameLength <= |body.name.value| <= MaxNameLength
      && body.description.Some? && MinDescriptionLength <= |body.description.value| <= MaxDescriptionLength
      && body.collectEmail == Some(true) && body.isAnonymous == Some(true)
    ensures r.Success? ==>
      && Some(r.value.name) == body.name
      && Some(r.value.description) == body.description
      && r.value.createdBy == userId
      && r.value.organisationId == organisationId
  {
    if BadLength(body.name, MinNameLength, MaxNameLength) then Failure(NameLength)
    else if BadLength(body.description, MinDescriptionLength, MaxDescriptionLength) then Failure(DescriptionLength)
    else if Truthy(body.collectEmail) && Truthy(body.isAnonymous) then Failure(EmailOnAnonymous)
    else
      Success(SurveyData(
        body.name.value,
        body.description.value,
        OrDefault(body.isAnonymous, true),
        OrDefault(body.collectDepartment, true),
        OrDefault(body.collectEmail, false),
        OrDefault(body.isActive, false),
        ExpiryText(body.expiresAt),
        userId,
        organisationId))
  }

  /**
   * The defaults of a stored survey: it is anonymous and collects the
   * department unless the body says `false`; it collects email and is live
   * only when the body says `true`; it has an expiry only when the body sends
   * a non-empty one.
   */
  lemma CreatedDefaults(body: CreateBody, userId: string, organisationId: string)
    requires CreateSurvey(body, userId, organisationId).Success?
    ensures var s := CreateSurvey(body, userId, organisationId).value;
      && (s.isAnonymous <==> body.isAnonymous != Some(false))
      && (s.collectDepartment <==> body.collectDepartment != Some(false))
      && (s.collectEmail <==> body.collectEmail == Some(true))
      && (s.isActive <==> body.isActive == Some(true))
      && (s.expiresAt.Some? <==> body.expiresAt.Some? && body.expiresAt.value != "")
      && (s.expiresAt.Some? ==> s.expiresAt == body.expiresAt)
  {
  }

  /**
   * The email-on-anonymous check looks at the body before the defaults are
   * applied, so a stored survey is anonymous and collects email exactly when
   * the body asked for email and left anonymity out.
   */
  lemma AnonymousWithEmail(body: CreateBody, userId: string, organisationId: string)
    requires CreateSurvey(body, userId, organisationId).Success?
    ensures var s := CreateSurvey(body, userId, organisationId).value;
      s.isAnonymous && s.collectEmail <==> body.collectEmail == Some(true) && body.isAnonymous.None?
  {
  }

  /** A body that sends email collection and omits anonymity is accepted and stored as both. */
  lemma AnonymousWithEmailAccepted(name: string, description: string, userId: string, organisationId: string)
    requires MinNameLength <= |name| <= MaxNameLength
    requires MinDescriptionLength <= |description| <= MaxDescriptionLength
    ensures var r := CreateSurvey(
        CreateBody(Some(name), Some(description), None, None, Some(true), None, None), userId, organisationId);
      r.Success? && r.value.isAnonymous && r.value.collectEmail
  {
  }

  // ---------------------------------------------------------------------------
  // GET: dashboard counts

  /** The `activeSurveys` test: live, and either without expiry or expiring strictly after `now`. */
  predicate CountsAsActive(s: Survey, now: int) {
    s.isActive && (s.expiresAt.None? || s.expiresAt.value > now)
  }

  /** The `pendingReview` test: live with at least one response, whatever its expiry. */
  predicate AwaitingReview(s: Survey) {
    s.isActive && s.responseCount > 0
  }

  function ActiveList(surveys: seq<Survey>, now: int): seq<Survey> {
    Where(surveys, (s: Survey) => CountsAsActive(s, now))
  }

  /** `activeSurveys`: at most the number of surveys listed. */
  function ActiveSurveys(surveys: seq<Survey>, now: int): (n: nat)
    ensures n <= |surveys|
  {
    |ActiveList(surveys, now)|
  }

  /** `pendingReview`: at most the number of surveys listed. */
  function PendingReview(surveys: seq<Survey>): (n: nat)
    ensures n <= |surveys|
  {
    |Where(surveys, AwaitingReview)|
  }

  /** `totalResponses`: the sum of the surveys' response counts. */
  function TotalResponses(surveys: seq<Survey>): nat {
    if surveys == [] then 0
    else TotalResponses(surveys[..|surveys| - 1]) + surveys[|surveys| - 1].responseCount
  }

  /** The total is additive over a split of the list. */
  lemma {:induction false} TotalResponsesAppend(a: seq<Survey>, b: seq<Survey>)
    ensures TotalResponses(a + b) == TotalResponses(a) + TotalResponses(b)
  {
    if b != [] {
      var init := b[..|b| - 1];
      assert (a + b)[..|a + b| - 1] == a + init;
      TotalResponsesAppend(a, init);
    } else {
      assert a + b == a;
    }
  }

  /** Each survey's own count is part of the total. */
  lemma {:induction false} TotalResponsesCoversEach(surveys: seq<Survey>, i: nat)
    requires i < |surveys|
    ensures surveys[i].responseCount <= TotalResponses(surveys)
  {
    if i < |surveys| - 1 {
      TotalResponsesCoversEach(surveys[..|surveys| - 1], i);
    }
  }

  /** Every survey pending review has a response of its own, so the total is at least the pending count. */
  lemma {:induction false} PendingReviewAtMostTotal(surveys: seq<Survey>)
    ensures PendingReview(surveys) <= TotalResponses(surveys)
  {
    if surveys != [] {
      PendingReviewAtMostTotal(surveys[..|surveys| - 1]);
    }
  }

  /**
   * A survey counts as active on the dashboard exactly when `getSurveyStatus`
   * calls it active and it does not expire at `now` itself: the dashboard
   * uses a strict comparison where the status uses a non-strict one.
   */
  lemma ActiveCountAgreesWithStatus(surveys: seq<Survey>, now: int)
    ensures forall s :: s in ActiveList(surveys, now) <==>
      s in surveys && GetSurveyStatus(s, now) == Active && s.expiresAt != Some(now)
  {
    forall s ensures s in ActiveList(surveys, now) <==> s in surveys && CountsAsActive(s, now) {
      WhereMember(surveys, (s: Survey) => CountsAsActive(s, now), s);
    }
  }

  /** A live survey that expires exactly at `now` has status active yet is not counted as active. */
  lemma ExpiringNowNotCounted(s: Survey, now: int)
    requires s.isActive && s.expiresAt == Some(now)
    ensures GetSurveyStatus(s, now) == Active
    ensures ActiveSurveys([s], now) == 0
  {
    assert [s][..0] == [];
  }

  /**
   * `pendingReview` does not look at expiry: a live survey with responses
   * that has expired is pending review but not active.
   */
  lemma ExpiredStillPending(s: Survey, now: int)
    requires s.isActive && s.responseCount > 0 && s.expiresAt.Some? && s.expiresAt.value < now
    ensures GetSurveyStatus(s, now) == Expired
    ensures PendingReview([s]) == 1 && ActiveSurveys([s], now) == 0
  {
    assert [s][..0] == [];
  }
}
