# Shadow-AI survey analytics, modelled in Dafny

The system runs an employee survey about the use of AI tools at work. It
turns the raw responses into risk analytics for an organisation's
leadership. This project models its core:

- **The analytics engine** (`calculateAnalytics`, `generateRiskFlags`,
  `getEmptyAnalytics` in `src/lib/analytics.ts`). It computes these over a
  list of responses:
  - the share of AI users;
  - per-tool and per-task usage tables, sorted by count;
  - the sensitive-data, approval and guidance tallies;
  - a per-department breakdown;
  - heuristic risk flags, ordered by severity.
- **The static catalog** (`src/lib/constants.ts`):
  - the 23 predefined AI tools;
  - the `TOOL_BY_ID` lookup and the `TOOLS_BY_CATEGORY` grouping;
  - the option lists built from the answer enums.
- **The answer enums and `getSurveyStatus`** (`src/lib/types.ts`). The
  current instant is a parameter.
- **The pure part of `/api/surveys`** (`src/app/api/surveys/route.ts`):
  - the validation and `??` defaulting that `POST` applies before it
    creates a survey;
  - the `activeSurveys`, `totalResponses` and `pendingReview` counts that
    `GET` folds over an organisation's surveys.

## Shape of the model

- **Plain objects become lists.**
  - JavaScript objects used as dictionaries (`toolCounts`, `taskCounts`,
    `deptData`, `TOOL_BY_ID`, `TOOLS_BY_CATEGORY`) become insertion-ordered
    association lists. `TOOL_BY_ID` is the one exception: it becomes a
    `map`.
  - Each loop that fills one becomes a `method` with its invariants
    (`CountTools`, `CountTasks`, `TallyDepartments`, `BuildToolById`,
    `BuildToolsByCategory`, `GenerateRiskFlags`).
  - `CalculateAnalytics` has no loop of its own. It runs those methods in
    the engine's order and assembles the result.
  - Each method is proved equal to a specification function (`Tally`,
    `DeptTable`, `IndexById`, `GroupByCategory`, `RiskFlagsOf`,
    `Analytics`). The properties are proved as lemmas about those functions.
- **Sorting.** `Array.prototype.sort` is stable. It is modelled as a stable
  insertion sort (`Seqs.SortDesc`), proved sorted and stable.
- **Rounding.** `Math.round(part / whole * 100)` is computed exactly as
  `(200 * part + whole) / (2 * whole)` (`Responses.Percent`). This is the
  nearest integer, with a half rounded up.
- **Enum values and messages.**
  - Stored enum answers are strings. A response compares its answer with
    the enum member's stored value, so an unknown or missing answer matches
    no member.
  - Risk flag messages are a datatype with one constructor per message.
    `RiskFlags.Text` renders each one as the template literal does.

Two behaviours of the code worth knowing; the model follows the code in both:
- `r.department || 'Unknown'` files a missing or empty department under
  "Unknown". The byDepartment filter then also drops a department that is
  literally called "Unknown".
- Custom tools are counted once per occurrence in `customTools`, not once
  per distinct string.

## Model

| member | source | states |
|---|---|---|
| Types.EnumValuesDistinct | src/lib/types.ts:3-46 | No two members of an answer enum share a stored string, so a stored answer matches at most one member |
| Types.MemberListsComplete | src/lib/types.ts:3-46 | The member list of each enum names every member exactly once |
| Types.GetSurveyStatus | src/lib/types.ts:158-162 | Closed exactly when deactivated; expired exactly when active with an expiry strictly before `now`; active otherwise, including an expiry equal to `now` |
| Constants.BuildToolById | src/lib/constants.ts:49-52 | The reduce that builds `TOOL_BY_ID` computes the id index of the catalog |
| Constants.IndexByIdKeys | src/lib/constants.ts:49-52 | The index has exactly the tools' ids as keys, and every key maps to a tool carrying that id |
| Constants.IndexByIdFindsEachTool | src/lib/constants.ts:49-52 | When ids are distinct no tool is overwritten: each is found under its own id |
| Constants.CatalogIdsDistinct | src/lib/constants.ts:4-37 | The 23 catalog ids are pairwise distinct |
| Constants.ToolByIdFindsCatalog | src/lib/constants.ts:4-52 | `TOOL_BY_ID[t.id] == t` for every catalog tool; an id outside the catalog finds nothing |
| Constants.AddToGroupsAt | src/lib/constants.ts:41-44 | One reduce step pushes the tool onto the first group of its category, or opens a new group at the end |
| Constants.BuildToolsByCategory | src/lib/constants.ts:40-46 | The reduce that builds `TOOLS_BY_CATEGORY` computes the category grouping of the catalog |
| Constants.AddToGroupsMatch | src/lib/constants.ts:41-45 | One more tool keeps categories distinct and each group equal to its category's tools, and adds one to the total size |
| Constants.AddToExistingGroup | src/lib/constants.ts:41-44 | A tool whose category exists is appended to that group only |
| Constants.AddNewGroup | src/lib/constants.ts:41-43 | A tool of a new category opens a one-tool group at the end |
| Constants.AddToGroupsCategories | src/lib/constants.ts:41-44 | After a step, the categories present are exactly those of the tools seen so far |
| Constants.GroupByCategorySpec | src/lib/constants.ts:40-46 | One group per category present, each holding exactly that category's tools in catalog order; the sizes add up to the number of tools |
| Constants.ToolInItsCategoryGroupOnly | src/lib/constants.ts:40-46 | Every tool lies in the group of its own category and in no other group |
| Constants.InCategoryMember | src/lib/constants.ts:40-46 | A tool is in a category's group exactly when it is a catalog tool of that category |
| Constants.OptionListsComplete | src/lib/constants.ts:55-79 | Each option list has one entry per enum member (key and value), no repeats and no other entries |
| CountTable.BumpAt | src/lib/analytics.ts:42 | Incrementing a count updates the key's entry in place, or appends a new entry with count 1 |
| CountTable.BumpSpec | src/lib/analytics.ts:42 | One bump adds the key to the key list only when it is new, and raises only that key's count, by one; the total rises by one |
| CountTable.FirstOccurrencesSpec | src/lib/analytics.ts:51 | The first-occurrence order lists each key once, and exactly the keys that occur |
| CountTable.TallyOrder | src/lib/analytics.ts:51 | A table's entries come in the order their keys first occurred |
| CountTable.TallyTotal | src/lib/analytics.ts:39-49 | The counts of a table add up to the number of keys counted |
| CountTable.TallyCounts | src/lib/analytics.ts:39-49 | Each entry's count is the number of occurrences of its key |
| CountTable.TallySpec | src/lib/analytics.ts:39-51 | The table lists each distinct key once in first-occurrence order, with its number of occurrences; the counts add up to the number of keys |
| CountTable.TallyKeys | src/lib/analytics.ts:39-51 | The keys of a table are distinct, each counted at least once, and are exactly the keys occurring |
| Responses.BucketsExclusive | src/lib/analytics.ts:82-94 | A response falls into at most one frequency bucket and at most one approval bucket |
| Responses.PercentIsNearest | src/lib/analytics.ts:35 | The rounded percentage is the integer nearest to 100 * part / whole, with a half rounded up |
| Responses.PercentAtMost100 | src/lib/analytics.ts:35 | A part of a whole rounds to a percentage of at most 100 |
| Seqs.SortDescSorted | src/lib/analytics.ts:62 | The sort by descending key returns a sorted list |
| Seqs.SortDescStable | src/lib/analytics.ts:62 | The sort is stable: for each key, the elements with that key keep their input order |
| Seqs.WherePerm | src/lib/analytics.ts:31-106 | Filtering a reordering of a list gives a reordering of the filtered list, so every `filter(...).length` count is independent of order |
| Usage.CustomKey | src/lib/analytics.ts:46 | A custom key carries the `custom:` prefix and gives back the text typed |
| Usage.Increment | src/lib/analytics.ts:42 | The increment computes one bump of the count table |
| Usage.CountKeys | src/lib/analytics.ts:41-43 | Counting a list of keys into the table of `before` gives the table of `before` followed by those keys |
| Usage.CountCustomTools | src/lib/analytics.ts:45-48 | Counting custom tools gives the table extended by their `custom:` keys |
| Usage.ToolKeysStep | src/lib/analytics.ts:40-49 | One more AI user contributes their catalog ids, then their custom keys |
| Usage.CountTools | src/lib/analytics.ts:39-49 | `toolCounts` is the count table of every catalog id and custom key of the AI users, in order |
| Usage.CountTasks | src/lib/analytics.ts:65-70 | `taskCounts` is the count table of the AI users' tasks |
| Usage.ToolRowsDistinct | src/lib/analytics.ts:51-61 | Rows built from a table with distinct keys have distinct tool ids |
| Usage.ToolUsageOrder | src/lib/analytics.ts:51-62 | `toolUsage` is sorted by count, rows with equal counts keep first-counted order, and no tool id repeats |
| Usage.ToolUsageRows | src/lib/analytics.ts:51-61 | Each row is a counted key with its number of occurrences, its display name and its share of AI users; every counted key has a row |
| Usage.ToolUsageRow | src/lib/analytics.ts:52-60 | One row: a counted key, its occurrences, display name and share of AI users |
| Usage.ToolUsageCovers | src/lib/analytics.ts:51-61 | Every counted tool key has a row |
| Usage.ToolUsageMember | src/lib/analytics.ts:51-61 | A row is in `toolUsage` exactly when it is a counted key with its occurrences, display name and share of AI users |
| Usage.ToolUsageReorder | src/lib/analytics.ts:38-62 | Reordering the AI users leaves the rows of `toolUsage` the same, at most reordered |
| Usage.TaskRowsDistinct | src/lib/analytics.ts:72-77 | Rows built from a table with distinct keys have distinct tasks |
| Usage.TaskUsageOrder | src/lib/analytics.ts:72-78 | `taskUsage` is sorted by count, rows with equal counts keep first-counted order, and no task repeats |
| Usage.TaskUsageRows | src/lib/analytics.ts:72-77 | Each row is a counted task with its occurrences and share of AI users; every counted task has a row |
| Usage.TaskUsageRow | src/lib/analytics.ts:73-77 | One row: a counted task, its occurrences and share of AI users |
| Usage.TaskUsageCovers | src/lib/analytics.ts:72-77 | Every counted task has a row |
| Usage.TaskUsageMember | src/lib/analytics.ts:72-77 | A row is in `taskUsage` exactly when it is a counted task with its occurrences and share of AI users |
| Usage.TaskUsageReorder | src/lib/analytics.ts:64-78 | Reordering the AI users leaves the rows of `taskUsage` the same, at most reordered |
| Usage.NotCustomByPrefix | src/lib/analytics.ts:53 | An id that does not begin with `cu` is not a custom key |
| Usage.CatalogIdsNotCustom | src/lib/constants.ts:4-37 | No catalog id starts with `custom:`, and every catalog tool has a non-empty name |
| Usage.DisplayNameOfCatalogTool | src/lib/analytics.ts:53-57 | A catalog id is shown under the tool's catalog name |
| Usage.DisplayNameOfCustomTool | src/lib/analytics.ts:46-57 | A custom tool is shown as the text typed, and its key never collides with a catalog id |
| Usage.DisplayNameOfUnknownId | src/lib/analytics.ts:54-57 | An id neither custom nor in the catalog is shown as itself |
| Usage.KeyOccurrencesBounded | src/lib/analytics.ts:40-49 | When no AI user repeats a key, no key occurs more often than there are AI users |
| Usage.ToolPercentagesBounded | src/lib/analytics.ts:59 | Without repeated keys per AI user, every tool percentage is at most 100 |
| Usage.TaskPercentagesBounded | src/lib/analytics.ts:76 | Without repeated tasks per AI user, every task percentage is at most 100 |
| Usage.RepeatedToolExceeds100 | src/lib/analytics.ts:40-62 | One AI user listing `chatgpt` twice yields a ChatGPT row counting 2 at 200% |
| Departments.DeptKey | src/lib/analytics.ts:117 | The department key is never empty; it is "Unknown" exactly for a missing, empty or literally "Unknown" department |
| Departments.FileResponse | src/lib/analytics.ts:117-130 | One iteration of the department loop computes one response's addition to the table |
| Departments.TallyDepartments | src/lib/analytics.ts:109-131 | The `deptData` loop computes the department table of all responses |
| Departments.SummarySnoc | src/lib/analytics.ts:121-130 | One more response changes only its own department's counts |
| Departments.SummaryBounds | src/lib/analytics.ts:121-130 | A department never has more AI users than responses, nor more at-risk or unapproved AI users than AI users |
| Departments.InDeptMember | src/lib/analytics.ts:117 | A response is filed under a department exactly when its key is that department |
| Departments.AddResponseSummaries | src/lib/analytics.ts:116-131 | After one more response every entry holds its department's own counts |
| Departments.AddResponseDepts | src/lib/analytics.ts:117-120 | After one more response the entries are exactly the departments seen so far, each once |
| Departments.DeptTableSpec | src/lib/analytics.ts:109-131 | `deptData` has one entry per department a response is filed under, holding exactly that department's counts |
| Departments.DeptTableCountsEveryResponse | src/lib/analytics.ts:116-121 | Every response is counted under exactly one entry, "Unknown" included |
| Departments.WhereDistinctDepts | src/lib/analytics.ts:133-134 | Filtering out "Unknown" keeps the departments distinct |
| Departments.DeptTableOrder | src/lib/analytics.ts:116-120 | `deptData` lists its departments in the order they first appear among the responses |
| Departments.ByDepartmentOrder | src/lib/analytics.ts:116-142 | `byDepartment` is sorted by responses; ties keep the table's order, which is the order departments first appear among the responses; no department has two rows |
| Departments.KnownRow | src/lib/analytics.ts:135-141 | The row of a department some response names counts at least one response, and its percentages are at most 100 |
| Departments.ByDepartmentRows | src/lib/analytics.ts:133-141 | Each row belongs to a named, non-"Unknown" department and reports its own counts with percentages of at most 100; every such department has a row |
| Departments.ByDepartmentRow | src/lib/analytics.ts:133-141 | One row: a known department's own counts, percentages of at most 100 |
| Departments.ByDepartmentCovers | src/lib/analytics.ts:133-141 | Every response naming a known department has that department's row |
| Departments.SummaryReorder | src/lib/analytics.ts:116-131 | A department's counts do not depend on the order of the responses |
| Departments.ByDepartmentMember | src/lib/analytics.ts:133-141 | A row is in `byDepartment` exactly when it is the own-counts row of a non-"Unknown" department some response is filed under |
| Departments.ByDepartmentReorder | src/lib/analytics.ts:108-142 | Reordering the responses leaves the rows of `byDepartment` the same, at most reordered |
| RiskFlags.GenerateRiskFlags | src/lib/analytics.ts:167-225 | The push-then-sort routine computes the flag list of its inputs |
| RiskFlags.DeptFlagsSpec | src/lib/analytics.ts:211-219 | One high department flag per row with both percentages above 50, in row order |
| RiskFlags.DeptFlagsMember | src/lib/analytics.ts:211-219 | A department flag is pushed exactly for a row with both percentages above 50 |
| RiskFlags.DeptFlagsHigh | src/lib/analytics.ts:213-217 | Every department flag is high |
| RiskFlags.PushedSeverities | src/lib/analytics.ts:175-219 | Every pushed flag is high or medium, never low |
| RiskFlags.HighFlagsPushed | src/lib/analytics.ts:177-219 | The high flags in push order: sensitive data, guidance, then the departments |
| RiskFlags.MediumFlagsPushed | src/lib/analytics.ts:201-208 | The only medium flag is the approval flag |
| RiskFlags.RiskFlagsOrder | src/lib/analytics.ts:221-224 | High flags come before medium ones, and flags of one severity keep push order |
| RiskFlags.RiskFlagsClosedForm | src/lib/analytics.ts:175-224 | The result is the sensitive-data flag, the guidance flag, the department flags, then the approval flag, each present exactly when its threshold is passed |
| RiskFlags.FlagSources | src/lib/analytics.ts:175-224 | A returned flag comes from one of the four pushes, and department flags are high department-exposure flags |
| RiskFlags.SensitiveFlagPresence | src/lib/analytics.ts:178-190 | The sensitive-data flag appears exactly when some AI user may enter sensitive data without approval, and reports how many |
| RiskFlags.GuidanceFlagPresence | src/lib/analytics.ts:193-199 | The guidance flag appears exactly when more than 50% lack guidance, with the no-guidance count |
| RiskFlags.ApprovalFlagPresence | src/lib/analytics.ts:202-208 | The medium approval flag appears exactly when more than 30% of AI users lack approval, with the not-approved plus unsure count |
| RiskFlags.DeptFlagPresence | src/lib/analytics.ts:211-219 | The department flags returned are exactly the pushed department flags |
| RiskFlags.RiskFlagsReorder | src/lib/analytics.ts:167-224 | Reordering the AI users and the department rows leaves the flags the same, at most reordered |
| RiskFlags.NatToString | src/lib/analytics.ts:187 | A number interpolated into a message is canonical decimal: a non-empty run of digits with no leading zero, "0" exactly for zero |
| RiskFlags.NatToStringRoundTrip | src/lib/analytics.ts:187 | Reading the digits back gives the number |
| RiskFlags.AgreementSpec | src/lib/analytics.ts:187 | The message says "employee enters" for one and "employees enter" for more; zero would read "employee enter" |
| Analytics.Analytics | src/lib/analytics.ts:23-28 | `totalResponses` is the number of responses, and the all-zero result comes back exactly for no responses |
| Analytics.CalculateAnalytics | src/lib/analytics.ts:23-165 | The engine's step-by-step computation returns the analytics of its input |
| Analytics.CountsAddUp | src/lib/analytics.ts:31-36 | AI users and the rest add up to the respondents, and so do those with and without guidance |
| Analytics.SensitiveDataBuckets | src/lib/analytics.ts:81-88 | The frequency buckets hold at most the AI users, and all of them exactly when every answer is recognised; the share at risk is at most 100 |
| Analytics.ApprovalBuckets | src/lib/analytics.ts:91-98 | The approval buckets hold at most the AI users, and all of them exactly when every answer is recognised; the unapproved share is at most 100 |
| Analytics.PercentagesBounded | src/lib/analytics.ts:30-141 | Every share of a group in a larger group, top-level and per department, is at most 100 |
| Analytics.NonAIResponseCountsOnlyAsRespondent | src/lib/analytics.ts:30-106 | A non-AI respondent leaves tools, tasks, sensitive data and approval unchanged and counts only as a "no" and in guidance |
| Analytics.SensitiveDataReorder | src/lib/analytics.ts:81-88 | The sensitive-data tally does not depend on the order of the AI users |
| Analytics.ApprovalReorder | src/lib/analytics.ts:91-98 | The approval tally does not depend on the order of the AI users |
| Analytics.GuidanceReorder | src/lib/analytics.ts:101-106 | The guidance tally does not depend on the order of the responses |
| Analytics.UsesAIReorder | src/lib/analytics.ts:31-36 | `usesAI` does not depend on the order of the responses |
| Analytics.GuidanceGapReorder | src/lib/analytics.ts:101-106 | `guidanceGap` does not depend on the order of the responses |
| Analytics.AIUsersReorder | src/lib/analytics.ts:81-98 | `sensitiveDataExposure` and `approvalStatus` do not depend on the order of the responses |
| Analytics.ListsReorder | src/lib/analytics.ts:38-153 | `toolUsage`, `taskUsage`, `byDepartment` and `riskFlags` hold the same rows and flags, at most reordered, whatever the order of the responses |
| Analytics.AnalyticsReorder | src/lib/analytics.ts:23-165 | The analytics do not depend on the order of the responses: every count and percentage is unchanged, and each list holds the same rows or flags, at most reordered |
| SurveysRoute.CreateSurvey | src/app/api/surveys/route.ts:79-115 | Each 400 answer comes exactly when its check is the first to fail; an accepted survey keeps the name and description as sent and the session's user and organisation |
| SurveysRoute.CreatedDefaults | src/app/api/surveys/route.ts:103-115 | Anonymous and department collection default to on, email and live default to off, and an empty expiry means none |
| SurveysRoute.AnonymousWithEmail | src/app/api/surveys/route.ts:96-110 | A stored survey is anonymous and collects email exactly when email was asked for and anonymity was left out |
| SurveysRoute.AnonymousWithEmailAccepted | src/app/api/surveys/route.ts:96-115 | A body asking for email and omitting anonymity is accepted and stored as both |
| SurveysRoute.ActiveSurveys | src/app/api/surveys/route.ts:28-30 | `activeSurveys` is at most the number of surveys |
| SurveysRoute.PendingReview | src/app/api/surveys/route.ts:47-49 | `pendingReview` is at most the number of surveys |
| SurveysRoute.TotalResponsesAppend | src/app/api/surveys/route.ts:32 | The response total is additive over a split of the survey list |
| SurveysRoute.TotalResponsesCoversEach | src/app/api/surveys/route.ts:32 | Each survey's own count is part of the total |
| SurveysRoute.PendingReviewAtMostTotal | src/app/api/surveys/route.ts:32-49 | The pending count never exceeds the response total |
| SurveysRoute.ActiveCountAgreesWithStatus | src/app/api/surveys/route.ts:28-30 | A survey counts as active exactly when its status is active and it does not expire at `now` itself |
| SurveysRoute.ExpiringNowNotCounted | src/app/api/surveys/route.ts:28-30 | A live survey expiring exactly at `now` has status active but is not counted as active |
| SurveysRoute.ExpiredStillPending | src/app/api/surveys/route.ts:47-49 | An expired live survey with responses is pending review but not active |

## Left out

- JavaScript object semantics are not modelled, for the count
  dictionaries or for the `TOOL_BY_ID` lookup:
  - `Object.entries` lists integer-like keys before the others; the model
    keeps every key in insertion order.
  - Keys such as `__proto__` or `constructor` reach the prototype, and the
    model ignores this. In the count dictionaries such a key can corrupt
    its count. In `deptData` (src/lib/analytics.ts:109-131) a department
    named `constructor` or `__proto__` finds an inherited value, so
    `!deptData[dept]` is false, no entry is created and the engine lists
    no `byDepartment` row for it; the model gives it a row like any other
    department. In the display-name lookup, `TOOL_BY_ID['constructor']` is
    `Object`, so the engine shows that id as "Object"; `Usage.DisplayName`
    shows it as itself.
- Floating point: `Math.round(x / y * 100)` is computed exactly. A ratio
  that floating point puts just below a half may round differently in the
  engine.
- String lengths in the `POST` checks are counted in characters of the
  model's strings, not in UTF-16 code units.
- Non-string values in the `POST` body are not modelled: a `name`
  that is a number or an array, or `collectEmail` that is a truthy string.
  Each field is a string or boolean, or absent (`None`).
- Date parsing is not modelled. `POST` keeps `expiresAt` as the text passed
  to `new Date`; `GET` and `getSurveyStatus` compare instants given as
  integers.
- `responsesThisMonth` is not modelled: a database count with a
  calendar-month window.
- Not modelled: the session check (401), the database reads and writes,
  and the 500 answers.
- `CHART_COLORS` and `CATEGORY_COLORS` are not modelled: display-only
  constants.
- The UI pages, the report templates, authentication, Prisma and the seed
  data are not part of this model.
- RiskFlags.GenerateRiskFlags: the source's `responses` and `sensitiveData`
  parameters are never read, so the model does not take them.
- Usage.ToolPercentagesBounded: holds only when no AI user lists the same
  key twice. A repeated key makes a percentage exceed 100, as
  `Usage.RepeatedToolExceeds100` shows.
- Usage.TaskPercentagesBounded: holds only when no AI user lists the same
  task twice, for the same reason.
