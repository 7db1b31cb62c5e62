/**
 * The tool and task frequency tables of the analytics engine
 * (src/lib/analytics.ts, `toolCounts`/`toolUsage` and `taskCounts`/`taskUsage`).
 *
 * The engine walks the AI users in order and, within each, first the
 * catalog tool ids and then the custom tools, bumping one count per key
 * (duplicates within a response are counted). The table is then listed in
 * key-insertion order, each entry turned into a row, and the rows sorted by
 * count, highest first, with `Array.prototype.sort`, which is stable.
 */
module Usage {
  import opened Wrappers
  import opened Seqs
  import opened Types
  import opened Constants
  import opened CountTable
  import opened Responses

  const CustomPrefix: string := "custom:"

  /** `toolId.startsWith('custom:')` */
  predicate IsCustomKey(id: string) {
    |CustomPrefix| <= |id| && id[..|CustomPrefix|] == CustomPrefix
  }

  /** The key under which a custom tool is counted: `custom:${tool}`. */
  function CustomKey(tool: string): (k: string)
    ensures IsCustomKey(k) && k[|CustomPrefix|..] == tool
  {
    CustomPrefix + tool
  }

  function CustomKeys(tools: seq<string>): (ks: seq<string>)
    ensures |ks| == |tools| && forall i :: 0 <= i < |tools| ==> ks[i] == CustomKey(tools[i])
  {
    seq(|tools|, i requires 0 <= i < |tools| => CustomKey(tools[i]))
  }

  /** The keys one AI user adds to the tool table, in the order they are counted. */
  function ToolKeysOf(r: Response): seq<string> {
    r.toolsUsed + CustomKeys(r.customTools)
  }

  /** Every key the tool loops count, over all AI users in order. */
  function ToolKeys(aiUsers: seq<Response>): seq<string> {
    if aiUsers == [] then [] else ToolKeys(aiUsers[..|aiUsers| - 1]) + ToolKeysOf(aiUsers[|aiUsers| - 1])
  }

  /** Every key the task loops count, over all AI users in order. */
  function TaskKeys(aiUsers: seq<Response>): seq<string> {
    if aiUsers == [] then [] else TaskKeys(aiUsers[..|aiUsers| - 1]) + aiUsers[|aiUsers| - 1].tasksUsed
  }

  // ---------------------------------------------------------------------------
  // the counting loops

  /** `counts[k] = (counts[k] || 0) + 1` on the table's entry list. */
  method Increment(counts: seq<Count>, k: string) returns (r: seq<Count>)
    ensures r == Bump(counts, k)
  {
    var j := 0;
    while j < |counts| && counts[j].key != k
      invariant 0 <= j <= |counts|
      invariant forall i :: 0 <= i < j ==> counts[i].key != k
    {
      j := j + 1;
    }
    BumpAt(counts, k);
    assert j == FindKey(counts, k);
    if j < |counts| {
      r := counts[j := Count(k, counts[j].n + 1)];
    } else {
      r := counts + [Count(k, 1)];
    }
  }

  /** One inner `forEach` loop: counts `keys` one by one into a table holding the counts of `before`. */
  method CountKeys(counts: seq<Count>, ghost before: seq<string>, keys: seq<string>) returns (r: seq<Count>)
    requires counts == Tally(before)
    ensures r == Tally(before + keys)
  {
    r := counts;
    assert before + keys[..0] == before;
    for j := 0 to |keys|
      invariant r == Tally(before + keys[..j])
    {
      TallySnoc(before + keys[..j], keys[j]);
      assert before + keys[..j + 1] == before + keys[..j] + [keys[j]];
      r := Increment(r, keys[j]);
    }
    assert keys[..|keys|] == keys;
  }

  /** The custom-tool loop: counts each custom tool under its `custom:` key. */
  method CountCustomTools(counts: seq<Count>, ghost before: seq<string>, tools: seq<string>) returns (r: seq<Count>)
    requires counts == Tally(before)
    ensures r == Tally(before + CustomKeys(tools))
  {
    r := counts;
    assert before + CustomKeys(tools[..0]) == before;
    for j := 0 to |tools|
      invariant r == Tally(before + CustomKeys(tools[..j]))
    {
      var customKey := CustomKey(tools[j]);
      TallySnoc(before + CustomKeys(tools[..j]), customKey);
      assert CustomKeys(tools[..j + 1]) == CustomKeys(tools[..j]) + [customKey];
      assert before + CustomKeys(tools[..j + 1]) == before + CustomKeys(tools[..j]) + [customKey];
      r := Increment(r, customKey);
    }
    assert tools[..|tools|] == tools;
  }

  /** The `toolCounts` loops (src/lib/analytics.ts:39-49). */
  method CountTools(aiUsers: seq<Response>) returns (toolCounts: seq<Count>)
    ensures toolCounts == Tally(ToolKeys(aiUsers))
  {
    toolCounts := [];
    for i := 0 to |aiUsers|
      invariant toolCounts == Tally(ToolKeys(aiUsers[..i]))
    {
      var r := aiUsers[i];
      ghost var before := ToolKeys(aiUsers[..i]);
      toolCounts := CountKeys(toolCounts, before, r.toolsUsed);
      toolCounts := CountCustomTools(toolCounts, before + r.toolsUsed, r.customTools);
      ToolKeysStep(aiUsers, i);
    }
    assert aiUsers[..|aiUsers|] == aiUsers;
  }

  lemma ToolKeysStep(aiUsers: seq<Response>, i: nat)
    requires i < |aiUsers|
    ensures ToolKeys(aiUsers[..i + 1])
            == ToolKeys(aiUsers[..i]) + aiUsers[i].toolsUsed + CustomKeys(aiUsers[i].customTools)
  {
    var prefix := aiUsers[..i + 1];
    assert prefix[..i] == aiUsers[..i] && prefix[i] == aiUsers[i];
    var before, r := ToolKeys(aiUsers[..i]), aiUsers[i];
    calc {
      ToolKeys(prefix);
      before + ToolKeysOf(r);
      before + (r.toolsUsed + CustomKeys(r.customTools));
      before + r.toolsUsed + CustomKeys(r.customTools);
    }
  }

  /** The `taskCounts` loops (src/lib/analytics.ts:65-70). */
  method CountTasks(aiUsers: seq<Response>) returns (taskCounts: seq<Count>)
    ensures taskCounts == Tally(TaskKeys(aiUsers))
  {
    taskCounts := [];
    for i := 0 to |aiUsers|
      invariant taskCounts == Tally(TaskKeys(aiUsers[..i]))
    {
      taskCounts := CountKeys(taskCounts, TaskKeys(aiUsers[..i]), aiUsers[i].tasksUsed);
      assert aiUsers[..i + 1][..i] == aiUsers[..i];
    }
    assert aiUsers[..|aiUsers|] == aiUsers;
  }

  // ---------------------------------------------------------------------------
  // the rows

  /**
   * The name a counted key is shown under: the text after `custom:` for a
   * custom tool, else the catalog tool's name when the catalog has the id and
   * the name is not empty, else the key itself.
   */
  function DisplayName(id: string): string {
    if IsCustomKey(id) then id[|CustomPrefix|..]
    else if id in ToolById && ToolById[id].name != "" then ToolById[id].name
    else id
  }

  function ToolRow(c: Count, aiCount: nat): ToolUsage {
    ToolUsage(c.key, DisplayName(c.key), c.n, Percent(c.n, aiCount))
  }

  function ToolRows(counts: seq<Count>, aiCount: nat): (rows: seq<ToolUsage>)
    ensures |rows| == |counts| && forall i :: 0 <= i < |counts| ==> rows[i] == ToolRow(counts[i], aiCount)
  {
    seq(|counts|, i requires 0 <= i < |counts| => ToolRow(counts[i], aiCount))
  }

  function ToolCount(u: ToolUsage): int { u.count }

  function ToolId(u: ToolUsage): string { u.toolId }

  /** `toolUsage`: the tool table's rows, highest count first. */
  function ToolUsageOf(aiUsers: seq<Response>): seq<ToolUsage> {
    SortDesc(ToolRows(Tally(ToolKeys(aiUsers)), |aiUsers|), ToolCount)
  }

  function TaskRow(c: Count, aiCount: nat): TaskUsage {
    TaskUsage(c.key, c.n, Percent(c.n, aiCount))
  }

  function TaskRows(counts: seq<Count>, aiCount: nat): (rows: seq<TaskUsage>)
    ensures |rows| == |counts| && forall i :: 0 <= i < |counts| ==> rows[i] == TaskRow(counts[i], aiCount)
  {
    seq(|counts|, i requires 0 <= i < |counts| => TaskRow(counts[i], aiCount))
  }

  function TaskCount(u: TaskUsage): int { u.count }

  function TaskName(u: TaskUsage): string { u.task }

  /** `taskUsage`: the task table's rows, highest count first. */
  function TaskUsageOf(aiUsers: seq<Response>): seq<TaskUsage> {
    SortDesc(TaskRows(Tally(TaskKeys(aiUsers)), |aiUsers|), TaskCount)
  }

  // ---------------------------------------------------------------------------
  // properties

  /** A table with distinct keys gives rows with distinct toolIds. */
  lemma ToolRowsDistinct(t: seq<Count>, aiCount: nat)
    requires Distinct(Keys(t))
    ensures DistinctBy(ToolRows(t, aiCount), ToolId)
  {
    var rows := ToolRows(t, aiCount);
    forall i, j | 0 <= i < j < |rows| ensures rows[i].toolId != rows[j].toolId {
      assert Keys(t)[i] != Keys(t)[j];
    }
  }

  /**
   * `toolUsage` is sorted by count, rows with equal counts keep the order in
   * which their keys were first counted, and no tool id is listed twice.
   */
  lemma ToolUsageOrder(aiUsers: seq<Response>)
    ensures var u, keys := ToolUsageOf(aiUsers), ToolKeys(aiUsers);
      && SortedDesc(u, ToolCount)
      && (forall c :: WithKey(u, ToolCount, c) == WithKey(ToolRows(Tally(keys), |aiUsers|), ToolCount, c))
      && DistinctBy(u, ToolId)
  {
    var t := Tally(ToolKeys(aiUsers));
    var rows := ToolRows(t, |aiUsers|);
    TallyKeys(ToolKeys(aiUsers));
    SortDescSorted(rows, ToolCount);
    forall c ensures WithKey(SortDesc(rows, ToolCount), ToolCount, c) == WithKey(rows, ToolCount, c) {
      SortDescStable(rows, ToolCount, c);
    }
    ToolRowsDistinct(t, |aiUsers|);
    PermutationKeepsDistinctBy(rows, SortDesc(rows, ToolCount), ToolId);
  }

  /**
   * Each `toolUsage` row is a counted key with the number of times it was
   * counted, its display name and its share of the AI users, and every
   * counted key has a row.
   */
  lemma ToolUsageRows(aiUsers: seq<Response>)
    ensures var u, keys := ToolUsageOf(aiUsers), ToolKeys(aiUsers);
      && (forall i :: 0 <= i < |u| ==>
            && u[i].toolId in keys
            && u[i].count == multiset(keys)[u[i].toolId]
            && u[i].toolName == DisplayName(u[i].toolId)
            && u[i].percentage == Percent(u[i].count, |aiUsers|))
      && (forall k :: k in keys ==> exists i :: 0 <= i < |u| && u[i].toolId == k)
  {
    var u, keys := ToolUsageOf(aiUsers), ToolKeys(aiUsers);
    forall i | 0 <= i < |u|
      ensures && u[i].toolId in keys
              && u[i].count == multiset(keys)[u[i].toolId]
              && u[i].toolName == DisplayName(u[i].toolId)
              && u[i].percentage == Percent(u[i].count, |aiUsers|)
    {
      ToolUsageRow(aiUsers, i);
    }
    forall k | k in keys ensures exists i :: 0 <= i < |u| && u[i].toolId == k {
      ToolUsageCovers(aiUsers, k);
    }
  }

  lemma ToolUsageRow(aiUsers: seq<Response>, i: nat)
    requires i < |ToolUsageOf(aiUsers)|
    ensures var row, keys := ToolUsageOf(aiUsers)[i], ToolKeys(aiUsers);
      && row.toolId in keys
      && row.count == multiset(keys)[row.toolId]
      && row.toolName == DisplayName(row.toolId)
      && row.percentage == Percent(row.count, |aiUsers|)
  {
    var keys := ToolKeys(aiUsers);
    var t := Tally(keys);
    var rows := ToolRows(t, |aiUsers|);
    var u := ToolUsageOf(aiUsers);
    TallySpec(keys);
    TallyKeys(keys);
    assert u[i] in multiset(rows);
    var a :| 0 <= a < |rows| && rows[a] == u[i];
    assert u[i] == ToolRow(t[a], |aiUsers|);
    assert Keys(t)[a] == t[a].key && Keys(t)[a] in Keys(t);
  }

  lemma ToolUsageCovers(aiUsers: seq<Response>, k: string)
    requires k in ToolKeys(aiUsers)
    ensures exists i :: 0 <= i < |ToolUsageOf(aiUsers)| && ToolUsageOf(aiUsers)[i].toolId == k
  {
    var keys := ToolKeys(aiUsers);
    var t := Tally(keys);
    var rows := ToolRows(t, |aiUsers|);
    var u := ToolUsageOf(aiUsers);
    TallyKeys(keys);
    var a :| 0 <= a < |t| && Keys(t)[a] == k;
    assert rows[a] in multiset(u);
    var i :| 0 <= i < |u| && u[i] == rows[a];
  }

  /** A table with distinct keys gives rows with distinct tasks. */
  lemma TaskRowsDistinct(t: seq<Count>, aiCount: nat)
    requires Distinct(Keys(t))
    ensures DistinctBy(TaskRows(t, aiCount), TaskName)
  {
    var rows := TaskRows(t, aiCount);
    forall i, j | 0 <= i < j < |rows| ensures rows[i].task != rows[j].task {
      assert Keys(t)[i] != Keys(t)[j];
    }
  }

  /**
   * `taskUsage` is sorted by count, rows with equal counts keep the order in
   * which their tasks were first counted, and no task is listed twice.
   */
  lemma TaskUsageOrder(aiUsers: seq<Response>)
    ensures var u, keys := TaskUsageOf(aiUsers), TaskKeys(aiUsers);
      && SortedDesc(u, TaskCount)
      && (forall c :: WithKey(u, TaskCount, c) == WithKey(TaskRows(Tally(keys), |aiUsers|), TaskCount, c))
      && DistinctBy(u, TaskName)
  {
    var t := Tally(TaskKeys(aiUsers));
    var rows := TaskRows(t, |aiUsers|);
    TallyKeys(TaskKeys(aiUsers));
    SortDescSorted(rows, TaskCount);
    forall c ensures WithKey(SortDesc(rows, TaskCount), TaskCount, c) == WithKey(rows, TaskCount, c) {
      SortDescStable(rows, TaskCount, c);
    }
    TaskRowsDistinct(t, |aiUsers|);
    PermutationKeepsDistinctBy(rows, SortDesc(rows, TaskCount), TaskName);
  }

  /** Each `taskUsage` row is a counted task with its count and share, and every counted task has a row. */
  lemma TaskUsageRows(aiUsers: seq<Response>)
    ensures var u, keys := TaskUsageOf(aiUsers), TaskKeys(aiUsers);
      && (forall i :: 0 <= i < |u| ==>
            && u[i].task in keys
            && u[i].count == multiset(keys)[u[i].task]
            && u[i].percentage == Percent(u[i].count, |aiUsers|))
      && (forall k :: k in keys ==> exists i :: 0 <= i < |u| && u[i].task == k)
  {
    var u, keys := TaskUsageOf(aiUsers), TaskKeys(aiUsers);
    forall i | 0 <= i < |u|
      ensures && u[i].task in keys
              && u[i].count == multiset(keys)[u[i].task]
              && u[i].percentage == Percent(u[i].count, |aiUsers|)
    {
      TaskUsageRow(aiUsers, i);
    }
    forall k | k in keys ensures exists i :: 0 <= i < |u| && u[i].task == k {
      TaskUsageCovers(aiUsers, k);
    }
  }

  lemma TaskUsageRow(aiUsers: seq<Response>, i: nat)
    requires i < |TaskUsageOf(aiUsers)|
    ensures var row, keys := TaskUsageOf(aiUsers)[i], TaskKeys(aiUsers);
      && row.task in keys
      && row.count == multiset(keys)[row.task]
      && row.percentage == Percent(row.count, |aiUsers|)
  {
    var keys := TaskKeys(aiUsers);
    var t := Tally(keys);
    var rows := TaskRows(t, |aiUsers|);
    var u := TaskUsageOf(aiUsers);
    TallySpec(keys);
    TallyKeys(keys);
    assert u[i] in multiset(rows);
    var a :| 0 <= a < |rows| && rows[a] == u[i];
    assert u[i] == TaskRow(t[a], |aiUsers|);
    assert Keys(t)[a] == t[a].key && Keys(t)[a] in Keys(t);
  }

  lemma TaskUsageCovers(aiUsers: seq<Response>, k: string)
    requires k in TaskKeys(aiUsers)
    ensures exists i :: 0 <= i < |TaskUsageOf(aiUsers)| && TaskUsageOf(aiUsers)[i].task == k
  {
    var keys := TaskKeys(aiUsers);
    var t := Tally(keys);
    var rows := TaskRows(t, |aiUsers|);
    var u := TaskUsageOf(aiUsers);
    TallyKeys(keys);
    var a :| 0 <= a < |t| && Keys(t)[a] == k;
    assert rows[a] in multiset(u);
    var i :| 0 <= i < |u| && u[i] == rows[a];
  }

  /** An id whose first two characters are not `cu`, or that is shorter than the prefix, is not a custom key. */
  lemma NotCustomByPrefix(id: string)
    requires |id| < |CustomPrefix| || id[0] != 'c' || id[1] != 'u'
    ensures !IsCustomKey(id)
  {
    if |CustomPrefix| <= |id| {
      assert id[..|CustomPrefix|][0] == id[0] && id[..|CustomPrefix|][1] == id[1];
    }
  }

  /** No catalog id starts with `custom:`, and every catalog tool has a name. */
  lemma CatalogIdsNotCustom()
    ensures forall t :: t in PredefinedAITools ==> !IsCustomKey(t.id) && t.name != ""
  {
    var ts := PredefinedAITools;
    forall i | 0 <= i < 8 ensures !IsCustomKey(ts[i].id) && ts[i].name != "" {
      NotCustomByPrefix(ts[i].id);
    }
    forall i | 8 <= i < 16 ensures !IsCustomKey(ts[i].id) && ts[i].name != "" {
      NotCustomByPrefix(ts[i].id);
    }
    forall i | 16 <= i < |ts| ensures !IsCustomKey(ts[i].id) && ts[i].name != "" {
      NotCustomByPrefix(ts[i].id);
    }
  }

  /** A catalog tool is shown under its catalog name. */
  lemma DisplayNameOfCatalogTool(t: AITool)
    requires t in PredefinedAITools
    ensures DisplayName(t.id) == t.name
  {
    CatalogIdsNotCustom();
    ToolByIdFindsCatalog();
  }

  /**
   * A custom tool is shown under the text it was typed as, and its key is
   * never a catalog id, even when the text spells one: it is counted apart.
   */
  lemma DisplayNameOfCustomTool(tool: string)
    ensures DisplayName(CustomKey(tool)) == tool
    ensures CustomKey(tool) !in ToolById && CustomKey(tool) !in Ids(PredefinedAITools)
  {
    CatalogIdsNotCustom();
    ToolByIdFindsCatalog();
    IndexByIdKeys(PredefinedAITools);
  }

  /** An id neither custom nor in the catalog is shown as itself. */
  lemma DisplayNameOfUnknownId(id: string)
    requires !IsCustomKey(id) && id !in Ids(PredefinedAITools)
    ensures DisplayName(id) == id
  {
    ToolByIdFindsCatalog();
  }

  /** A key occurs at most once per AI user when no AI user repeats a key, so at most once per AI user overall. */
  lemma {:induction false} KeyOccurrencesBounded(aiUsers: seq<Response>, k: string, tasks: bool)
    requires forall r :: r in aiUsers ==> Distinct(if tasks then r.tasksUsed else ToolKeysOf(r))
    ensures multiset(if tasks then TaskKeys(aiUsers) else ToolKeys(aiUsers))[k] <= |aiUsers|
  {
    if aiUsers != [] {
      var init, last := aiUsers[..|aiUsers| - 1], aiUsers[|aiUsers| - 1];
      assert forall r :: r in init ==> r in aiUsers;
      KeyOccurrencesBounded(init, k, tasks);
      DistinctOccursOnce(if tasks then last.tasksUsed else ToolKeysOf(last), k);
    }
  }

  /**
   * Every tool percentage is at most 100 when no AI user lists the same key
   * twice. A repeated key can push it past 100 (RepeatedToolExceeds100).
   */
  lemma ToolPercentagesBounded(aiUsers: seq<Response>)
    requires forall r :: r in aiUsers ==> Distinct(ToolKeysOf(r))
    ensures forall u :: u in ToolUsageOf(aiUsers) ==> u.percentage <= 100
  {
    ToolUsageRows(aiUsers);
    var u := ToolUsageOf(aiUsers);
    forall i | 0 <= i < |u| ensures u[i].percentage <= 100 {
      KeyOccurrencesBounded(aiUsers, u[i].toolId, false);
      PercentAtMost100(u[i].count, |aiUsers|);
    }
  }

  /** Every task percentage is at most 100 when no AI user lists the same task twice. */
  lemma TaskPercentagesBounded(aiUsers: seq<Response>)
    requires forall r :: r in aiUsers ==> Distinct(r.tasksUsed)
    ensures forall u :: u in TaskUsageOf(aiUsers) ==> u.percentage <= 100
  {
    TaskUsageRows(aiUsers);
    var u := TaskUsageOf(aiUsers);
    forall i | 0 <= i < |u| ensures u[i].percentage <= 100 {
      KeyOccurrencesBounded(aiUsers, u[i].task, true);
      PercentAtMost100(u[i].count, |aiUsers|);
    }
  }

  /** One AI user who ticks the same tool twice yields a 200% row. */
  lemma RepeatedToolExceeds100()
    ensures var r := Response(true, ["chatgpt", "chatgpt"], [], [], None, None, None, false, None);
      ToolUsageOf([r]) == [ToolUsage("chatgpt", "ChatGPT", 2, 200)]
  {
    var r := Response(true, ["chatgpt", "chatgpt"], [], [], None, None, None, false, None);
    RepeatedToolCounted(r);
    ChatGPTDisplayName();
    var row := ToolUsage("chatgpt", "ChatGPT", 2, 200);
    assert ToolRows([Count("chatgpt", 2)], 1) == [row];
    assert SortDesc([row], ToolCount) == [row] by {
      assert [row][..0] == [];
    }
  }

  lemma ChatGPTDisplayName()
    ensures DisplayName("chatgpt") == "ChatGPT"
  {
    var t := PredefinedAITools[0];
    assert t == AITool("chatgpt", "ChatGPT", "OpenAI", "Chatbot");
    DisplayNameOfCatalogTool(t);
  }

  lemma RepeatedToolCounted(r: Response)
    requires r.toolsUsed == ["chatgpt", "chatgpt"] && r.customTools == []
    ensures Tally(ToolKeys([r])) == [Count("chatgpt", 2)]
  {
    var keys := ["chatgpt", "chatgpt"];
    assert [r][..0] == [];
    assert ToolKeys([r]) == keys;
    assert keys[..1] == ["chatgpt"];
    TallySnoc(["chatgpt"], "chatgpt");
  }
  // ---------------------------------------------------------------------------
  // independence of the order of the AI users

  /** The tasks one AI user adds to the task table, in the order they are counted. */
  function TasksOf(r: Response): seq<string> {
    r.tasksUsed
  }

  lemma {:induction false} ToolKeysFlat(aiUsers: seq<Response>)
    ensures ToolKeys(aiUsers) == FlatMap(aiUsers, ToolKeysOf)
  {
    if aiUsers != [] {
      ToolKeysFlat(aiUsers[..|aiUsers| - 1]);
    }
  }

  lemma {:induction false} TaskKeysFlat(aiUsers: seq<Response>)
    ensures TaskKeys(aiUsers) == FlatMap(aiUsers, TasksOf)
  {
    if aiUsers != [] {
      TaskKeysFlat(aiUsers[..|aiUsers| - 1]);
    }
  }

  /** A row is in `toolUsage` exactly when it is the row of a counted key. */
  lemma ToolUsageMember(aiUsers: seq<Response>, u: ToolUsage)
    ensures var keys := ToolKeys(aiUsers);
      u in ToolUsageOf(aiUsers) <==>
        && u.toolId in keys
        && u.count == multiset(keys)[u.toolId]
        && u.toolName == DisplayName(u.toolId)
        && u.percentage == Percent(u.count, |aiUsers|)
  {
    var us := ToolUsageOf(aiUsers);
    if u in us {
      var i :| 0 <= i < |us| && us[i] == u;
      ToolUsageRow(aiUsers, i);
    }
    if u.toolId in ToolKeys(aiUsers) {
      var i := ToolUsageIndex(aiUsers, u.toolId);
      ToolUsageRow(aiUsers, i);
    }
  }

  /** The position of a counted key's row in `toolUsage`. */
  lemma ToolUsageIndex(aiUsers: seq<Response>, k: string) returns (i: nat)
    requires k in ToolKeys(aiUsers)
    ensures i < |ToolUsageOf(aiUsers)| && ToolUsageOf(aiUsers)[i].toolId == k
  {
    ToolUsageCovers(aiUsers, k);
    i :| 0 <= i < |ToolUsageOf(aiUsers)| && ToolUsageOf(aiUsers)[i].toolId == k;
  }

  /** A row is in `taskUsage` exactly when it is the row of a counted task. */
  lemma TaskUsageMember(aiUsers: seq<Response>, u: TaskUsage)
    ensures var keys := TaskKeys(aiUsers);
      u in TaskUsageOf(aiUsers) <==>
        && u.task in keys
        && u.count == multiset(keys)[u.task]
        && u.percentage == Percent(u.count, |aiUsers|)
  {
    var us, keys := TaskUsageOf(aiUsers), TaskKeys(aiUsers);
    if u in us {
      var i :| 0 <= i < |us| && us[i] == u;
      TaskUsageRow(aiUsers, i);
    }
    if u.task in keys {
      TaskUsageCovers(aiUsers, u.task);
      var i :| 0 <= i < |us| && us[i].task == u.task;
      TaskUsageRow(aiUsers, i);
      assert u.count == multiset(keys)[u.task] ==> us[i].count == u.count;
    }
  }

  /** Reordering the AI users reorders the rows of `toolUsage` and changes none of them. */
  lemma ToolUsageReorder(a: seq<Response>, b: seq<Response>)
    requires multiset(a) == multiset(b)
    ensures multiset(ToolUsageOf(a)) == multiset(ToolUsageOf(b))
  {
    ToolKeysFlat(a);
    ToolKeysFlat(b);
    FlatMapPerm(a, b, ToolKeysOf);
    assert |a| == |multiset(a)| == |b|;
    forall u ensures u in ToolUsageOf(a) <==> u in ToolUsageOf(b) {
      ToolUsageMember(a, u);
      ToolUsageMember(b, u);
      assert u.toolId in ToolKeys(a) <==> u.toolId in multiset(ToolKeys(a));
      assert u.toolId in ToolKeys(b) <==> u.toolId in multiset(ToolKeys(b));
    }
    ToolUsageOrder(a);
    ToolUsageOrder(b);
    DistinctByDistinct(ToolUsageOf(a), ToolId);
    DistinctByDistinct(ToolUsageOf(b), ToolId);
    DistinctSameMembers(ToolUsageOf(a), ToolUsageOf(b));
  }

  /** Reordering the AI users reorders the rows of `taskUsage` and changes none of them. */
  lemma TaskUsageReorder(a: seq<Response>, b: seq<Response>)
    requires multiset(a) == multiset(b)
    ensures multiset(TaskUsageOf(a)) == multiset(TaskUsageOf(b))
  {
    TaskKeysFlat(a);
    TaskKeysFlat(b);
    FlatMapPerm(a, b, TasksOf);
    assert |a| == |multiset(a)| == |b|;
    forall u ensures u in TaskUsageOf(a) <==> u in TaskUsageOf(b) {
      TaskUsageMember(a, u);
      TaskUsageMember(b, u);
      assert u.task in TaskKeys(a) <==> u.task in multiset(TaskKeys(a));
      assert u.task in TaskKeys(b) <==> u.task in multiset(TaskKeys(b));
    }
    TaskUsageOrder(a);
    TaskUsageOrder(b);
    DistinctByDistinct(TaskUsageOf(a), TaskName);
    DistinctByDistinct(TaskUsageOf(b), TaskName);
    DistinctSameMembers(TaskUsageOf(a), TaskUsageOf(b));
  }
}
