/**
 * The static catalog of predefined AI tools and the tables derived from it
 * (src/lib/constants.ts): `TOOL_BY_ID`, the id lookup the analytics engine
 * resolves display names with, `TOOLS_BY_CATEGORY`, the catalog grouped for
 * the survey form, and the option lists built from the answer enums.
 *
 * Both tables are built in the source by `reduce` over the catalog with an
 * accumulator that is updated in place; each is modelled by a fold function
 * (IndexById, GroupByCategory) and a loop method that builds the same value
 * the way the source does (BuildToolById, BuildToolsByCategory).
 */
module Constants {
  import opened Seqs
  import opened Types

  datatype AITool = AITool(id: string, name: string, vendor: string, category: string)

  const PredefinedAITools: seq<AITool> := [
    AITool("chatgpt", "ChatGPT", "OpenAI", "Chatbot"),
    AITool("claude", "Claude", "Anthropic", "Chatbot"),
    AITool("gemini", "Gemini", "Google", "Chatbot"),
    AITool("copilot", "Microsoft Copilot", "Microsoft", "Chatbot"),
    AITool("perplexity", "Perplexity AI", "Perplexity", "Search"),
    AITool("github-copilot", "GitHub Copilot", "Microsoft", "Coding"),
    AITool("cursor", "Cursor", "Cursor", "Coding"),
    AITool("tabnine", "TabNine", "TabNine", "Coding"),
    AITool("codewhisperer", "Amazon CodeWhisperer", "Amazon", "Coding"),
    AITool("jasper", "Jasper", "Jasper AI", "Writing"),
    AITool("copy-ai", "Copy.ai", "Copy.ai", "Writing"),
    AITool("grammarly", "GrammarlyGO", "Grammarly", "Writing"),
    AITool("notion-ai", "Notion AI", "Notion", "Writing"),
    AITool("otter", "Otter.ai", "Otter", "Transcription"),
    AITool("midjourney", "MidJourney", "MidJourney", "Image"),
    AITool("dalle", "DALL·E", "OpenAI", "Image"),
    AITool("stable-diffusion", "Stable Diffusion", "Stability AI", "Image"),
    AITool("canva-ai", "Canva AI", "Canva", "Design"),
    AITool("adobe-firefly", "Adobe Firefly", "Adobe", "Image"),
    AITool("runway", "RunwayML", "Runway", "Video"),
    AITool("synthesia", "Synthesia", "Synthesia", "Video"),
    AITool("zapier-ai", "Zapier AI", "Zapier", "Automation"),
    AITool("make-ai", "Make AI", "Make", "Automation")
  ]

  function Ids(tools: seq<AITool>): (ids: seq<string>)
    ensures |ids| == |tools| && forall i :: 0 <= i < |tools| ==> ids[i] == tools[i].id
  {
    seq(|tools|, i requires 0 <= i < |tools| => tools[i].id)
  }

  // ---------------------------------------------------------------------------
  // TOOL_BY_ID

  /** `reduce((acc, tool) => { acc[tool.id] = tool; ... }, {})`: a later tool overwrites an earlier one with the same id. */
  function IndexById(tools: seq<AITool>): map<string, AITool> {
    if tools == [] then map[]
    else IndexById(tools[..|tools| - 1])[tools[|tools| - 1].id := tools[|tools| - 1]]
  }

  method BuildToolById(tools: seq<AITool>) returns (byId: map<string, AITool>)
    ensures byId == IndexById(tools)
  {
    byId := map[];
    for i := 0 to |tools|
      invariant byId == IndexById(tools[..i])
    {
      assert tools[..i + 1][..i] == tools[..i];
      byId := byId[tools[i].id := tools[i]];
    }
    assert tools[..|tools|] == tools;
  }

  const ToolById: map<string, AITool> := IndexById(PredefinedAITools)

  /** The lookup table has exactly the ids of the catalog as keys, and each key maps to a tool carrying it. */
  lemma {:induction false} IndexByIdKeys(tools: seq<AITool>)
    ensures forall id :: id in IndexById(tools) <==> id in Ids(tools)
    ensures forall id :: id in IndexById(tools) ==> IndexById(tools)[id] in tools && IndexById(tools)[id].id == id
  {
    if tools != [] {
      var init := tools[..|tools| - 1];
      IndexByIdKeys(init);
      assert tools == init + [tools[|tools| - 1]];
      forall id ensures id in Ids(tools) <==> id in Ids(init) || id == tools[|tools| - 1].id {
        if id in Ids(tools) {
          var k :| 0 <= k < |tools| && Ids(tools)[k] == id;
          if k < |init| {
            assert Ids(init)[k] == id;
          }
        }
        if id in Ids(init) {
          var k :| 0 <= k < |init| && Ids(init)[k] == id;
          assert Ids(tools)[k] == id;
        }
        if id == tools[|tools| - 1].id {
          assert Ids(tools)[|tools| - 1] == id;
        }
      }
    }
  }

  /** When ids are distinct nothing is overwritten: every tool is found under its own id. */
  lemma {:induction false} IndexByIdFindsEachTool(tools: seq<AITool>)
    requires Distinct(Ids(tools))
    ensures forall i :: 0 <= i < |tools| ==> tools[i].id in IndexById(tools) && IndexById(tools)[tools[i].id] == tools[i]
  {
    if tools != [] {
      var init := tools[..|tools| - 1];
      assert Distinct(Ids(init)) by {
        forall i, j | 0 <= i < j < |init| ensures Ids(init)[i] != Ids(init)[j] {
          assert Ids(tools)[i] != Ids(tools)[j];
        }
      }
      IndexByIdFindsEachTool(init);
      forall i | 0 <= i < |tools| ensures tools[i].id in IndexById(tools) && IndexById(tools)[tools[i].id] == tools[i] {
        if i < |init| {
          assert Ids(tools)[i] != Ids(tools)[|tools| - 1];
          assert init[i] == tools[i];
        }
      }
    }
  }

  /** No two catalog tools share an id. */
  lemma CatalogIdsDistinct()
    ensures Distinct(Ids(PredefinedAITools))
  {
    var first := ["chatgpt", "claude", "gemini", "copilot", "perplexity", "github-copilot", "cursor", "tabnine",
      "codewhisperer", "jasper", "copy-ai", "grammarly"];
    var second := ["notion-ai", "otter", "midjourney", "dalle", "stable-diffusion", "canva-ai", "adobe-firefly",
      "runway", "synthesia", "zapier-ai", "make-ai"];
    assert Ids(PredefinedAITools) == first + second;
    IdsDistinctFirst(first);
    IdsDistinctSecond(second);
    IdsApart(first, second);
    DistinctConcat(first, second);
  }

  lemma IdsDistinctFirst(first: seq<string>)
    requires first == ["chatgpt", "claude", "gemini", "copilot", "perplexity", "github-copilot", "cursor", "tabnine",
      "codewhisperer", "jasper", "copy-ai", "grammarly"]
    ensures Distinct(first)
  {
  }

  lemma IdsDistinctSecond(second: seq<string>)
    requires second == ["notion-ai", "otter", "midjourney", "dalle", "stable-diffusion", "canva-ai", "adobe-firefly",
      "runway", "synthesia", "zapier-ai", "make-ai"]
    ensures Distinct(second)
  {
  }

  lemma IdsApart(first: seq<string>, second: seq<string>)
    requires first == ["chatgpt", "claude", "gemini", "copilot", "perplexity", "github-copilot", "cursor", "tabnine",
      "codewhisperer", "jasper", "copy-ai", "grammarly"]
    requires second == ["notion-ai", "otter", "midjourney", "dalle", "stable-diffusion", "canva-ai", "adobe-firefly",
      "runway", "synthesia", "zapier-ai", "make-ai"]
    ensures forall i, j :: 0 <= i < |first| && 0 <= j < |second| ==> first[i] != second[j]
  {
  }

  /**
   * `TOOL_BY_ID[t.id] == t` for every catalog tool, and an id outside the
   * catalog finds nothing.
   */
  lemma ToolByIdFindsCatalog()
    ensures forall t :: t in PredefinedAITools ==> t.id in ToolById && ToolById[t.id] == t
    ensures forall id :: id !in Ids(PredefinedAITools) ==> id !in ToolById
  {
    CatalogIdsDistinct();
    IndexByIdFindsEachTool(PredefinedAITools);
    IndexByIdKeys(PredefinedAITools);
  }

  // ---------------------------------------------------------------------------
  // TOOLS_BY_CATEGORY

  /** One key of `TOOLS_BY_CATEGORY` with its array; the table keeps keys in insertion order. */
  datatype CategoryGroup = CategoryGroup(category: string, tools: seq<AITool>)

  function Categories(groups: seq<CategoryGroup>): (cs: seq<string>)
    ensures |cs| == |groups| && forall i :: 0 <= i < |groups| ==> cs[i] == groups[i].category
  {
    seq(|groups|, i requires 0 <= i < |groups| => groups[i].category)
  }

  /** One step of the reduce: create the category's array if missing, then push the tool. */
  function AddToGroups(groups: seq<CategoryGroup>, t: AITool): seq<CategoryGroup> {
    if groups == [] then [CategoryGroup(t.category, [t])]
    else if groups[0].category == t.category then [groups[0].(tools := groups[0].tools + [t])] + groups[1..]
    else [groups[0]] + AddToGroups(groups[1..], t)
  }

  function GroupByCategory(tools: seq<AITool>): seq<CategoryGroup> {
    if tools == [] then [] else AddToGroups(GroupByCategory(tools[..|tools| - 1]), tools[|tools| - 1])
  }

  /** The tools of `tools` whose category is `c`, in catalog order. */
  function InCategory(tools: seq<AITool>, c: string): seq<AITool> {
    if tools == [] then []
    else InCategory(tools[..|tools| - 1], c) + (if tools[|tools| - 1].category == c then [tools[|tools| - 1]] else [])
  }

  function GroupSizes(groups: seq<CategoryGroup>): nat {
    if groups == [] then 0 else |groups[0].tools| + GroupSizes(groups[1..])
  }

  /** The index of the first group keyed `c`, or `|groups|` when there is none. */
  function FirstWithCategory(groups: seq<CategoryGroup>, c: string): (j: nat)
    ensures j <= |groups|
    ensures forall k :: 0 <= k < j ==> groups[k].category != c
    ensures j < |groups| ==> groups[j].category == c
  {
    if groups == [] then 0
    else if groups[0].category == c then 0
    else 1 + FirstWithCategory(groups[1..], c)
  }

  /** AddToGroups as the loop body performs it: at the first group with the tool's category, or at a new group at the end. */
  lemma {:induction false} AddToGroupsAt(groups: seq<CategoryGroup>, t: AITool, j: nat)
    requires j <= |groups|
    requires forall k :: 0 <= k < j ==> groups[k].category != t.category
    requires j < |groups| ==> groups[j].category == t.category
    ensures j < |groups| ==> AddToGroups(groups, t) == groups[j := groups[j].(tools := groups[j].tools + [t])]
    ensures j == |groups| ==> AddToGroups(groups, t) == groups + [CategoryGroup(t.category, [t])]
  {
    if groups != [] && j > 0 {
      AddToGroupsAt(groups[1..], t, j - 1);
    }
  }

  method BuildToolsByCategory(tools: seq<AITool>) returns (groups: seq<CategoryGroup>)
    ensures groups == GroupByCategory(tools)
  {
    groups := [];
    for i := 0 to |tools|
      invariant groups == GroupByCategory(tools[..i])
    {
      var t := tools[i];
      assert tools[..i + 1][..i] == tools[..i];
      assert GroupByCategory(tools[..i + 1]) == AddToGroups(groups, t);
      var j := 0;
      while j < |groups| && groups[j].category != t.category
        invariant 0 <= j <= |groups|
        invariant forall k :: 0 <= k < j ==> groups[k].category != t.category
      {
        j := j + 1;
      }
      AddToGroupsAt(groups, t, j);
      ghost var before := groups;
      if j == |groups| {
        groups := groups + [CategoryGroup(t.category, [])];
        assert groups[j].tools == [];
      }
      groups := groups[j := groups[j].(tools := groups[j].tools + [t])];
      assert j == |before| ==> groups == before + [CategoryGroup(t.category, [t])] by {
        if j == |before| {
          assert |groups| == |before| + 1 && groups[j] == CategoryGroup(t.category, [t]);
          assert forall k :: 0 <= k < |before| ==> groups[k] == before[k];
        }
      }
    }
    assert tools[..|tools|] == tools;
  }

  lemma {:induction false} GroupSizesUpdate(groups: seq<CategoryGroup>, j: nat, g: CategoryGroup)
    requires j < |groups|
    ensures GroupSizes(groups[j := g]) + |groups[j].tools| == GroupSizes(groups) + |g.tools|
  {
    if j > 0 {
      assert groups[j := g][1..] == groups[1..][j - 1 := g];
      GroupSizesUpdate(groups[1..], j - 1, g);
    }
  }

  lemma {:induction false} GroupSizesSnoc(groups: seq<CategoryGroup>, g: CategoryGroup)
    ensures GroupSizes(groups + [g]) == GroupSizes(groups) + |g.tools|
  {
    if groups != [] {
      assert (groups + [g])[1..] == groups[1..] + [g];
      GroupSizesSnoc(groups[1..], g);
    }
  }

  /** Every group holds exactly the catalog's tools of its category, in catalog order; no category repeats. */
  ghost predicate GroupsMatch(tools: seq<AITool>, groups: seq<CategoryGroup>) {
    && Distinct(Categories(groups))
    && (forall i :: 0 <= i < |groups| ==> groups[i].tools == InCategory(tools, groups[i].category))
    && (forall c :: c in Categories(groups) <==> exists t :: t in tools && t.category == c)
  }

  lemma {:induction false} InCategoryEmpty(tools: seq<AITool>, c: string)
    requires forall t :: t in tools ==> t.category != c
    ensures InCategory(tools, c) == []
  {
    if tools != [] {
      assert tools[|tools| - 1] in tools;
      InCategoryEmpty(tools[..|tools| - 1], c);
    }
  }

  /** Adding one more tool keeps the groups matched to the longer catalog prefix. */
  lemma AddToGroupsMatch(init: seq<AITool>, t: AITool)
    requires GroupsMatch(init, GroupByCategory(init))
    ensures GroupsMatch(init + [t], AddToGroups(GroupByCategory(init), t))
    ensures GroupSizes(AddToGroups(GroupByCategory(init), t)) == GroupSizes(GroupByCategory(init)) + 1
  {
    var g := GroupByCategory(init);
    var j := FirstWithCategory(g, t.category);
    AddToGroupsAt(g, t, j);
    AddToGroupsCategories(init, t);
    if j < |g| {
      AddToExistingGroup(init, t, j);
    } else {
      AddNewGroup(init, t);
    }
  }

  lemma InCategorySnoc(init: seq<AITool>, t: AITool)
    ensures forall c :: InCategory(init + [t], c) == InCategory(init, c) + (if t.category == c then [t] else [])
  {
    assert (init + [t])[..|init|] == init;
  }

  /** A tool whose category already has a group is pushed onto that group. */
  lemma AddToExistingGroup(init: seq<AITool>, t: AITool, j: nat)
    requires GroupsMatch(init, GroupByCategory(init))
    requires j == FirstWithCategory(GroupByCategory(init), t.category) < |GroupByCategory(init)|
    ensures var g := GroupByCategory(init);
      var r := g[j := g[j].(tools := g[j].tools + [t])];
      && Distinct(Categories(r))
      && (forall i :: 0 <= i < |r| ==> r[i].tools == InCategory(init + [t], r[i].category))
      && GroupSizes(r) == GroupSizes(g) + 1
  {
    var g := GroupByCategory(init);
    var r := g[j := g[j].(tools := g[j].tools + [t])];
    InCategorySnoc(init, t);
    assert Categories(r) == Categories(g);
    GroupSizesUpdate(g, j, r[j]);
    forall i | 0 <= i < |r| ensures r[i].tools == InCategory(init + [t], r[i].category) {
      if i != j {
        assert Categories(g)[i] != Categories(g)[j];
      }
    }
  }

  /** A tool of a new category opens a group of its own at the end. */
  lemma AddNewGroup(init: seq<AITool>, t: AITool)
    requires GroupsMatch(init, GroupByCategory(init))
    requires FirstWithCategory(GroupByCategory(init), t.category) == |GroupByCategory(init)|
    ensures var g := GroupByCategory(init);
      var r := g + [CategoryGroup(t.category, [t])];
      && Distinct(Categories(r))
      && (forall i :: 0 <= i < |r| ==> r[i].tools == InCategory(init + [t], r[i].category))
      && GroupSizes(r) == GroupSizes(g) + 1
  {
    var g := GroupByCategory(init);
    var r := g + [CategoryGroup(t.category, [t])];
    InCategorySnoc(init, t);
    assert Categories(r) == Categories(g) + [t.category];
    GroupSizesSnoc(g, CategoryGroup(t.category, [t]));
    assert t.category !in Categories(g);
    assert forall u :: u in init ==> u.category != t.category;
    InCategoryEmpty(init, t.category);
    forall i | 0 <= i < |r| ensures r[i].tools == InCategory(init + [t], r[i].category) {
      if i < |g| {
        assert r[i] == g[i];
      }
    }
  }

  /** The categories after one more tool: those before, and the tool's own. */
  lemma AddToGroupsCategories(init: seq<AITool>, t: AITool)
    requires GroupsMatch(init, GroupByCategory(init))
    ensures forall c :: c in Categories(AddToGroups(GroupByCategory(init), t)) <==> exists u :: u in init + [t] && u.category == c
  {
    var tools := init + [t];
    var g := GroupByCategory(init);
    var j := FirstWithCategory(g, t.category);
    AddToGroupsAt(g, t, j);
    var r := AddToGroups(g, t);
    if j < |g| {
      assert Categories(r) == Categories(g);
      assert Categories(g)[j] == t.category;
    } else {
      assert Categories(r) == Categories(g) + [t.category];
    }
    forall c ensures c in Categories(r) <==> exists u :: u in tools && u.category == c {
      if exists u :: u in tools && u.category == c {
        var u :| u in tools && u.category == c;
        if u != t {
          assert u in init;
        }
      }
      if c in Categories(g) {
        var u :| u in init && u.category == c;
        assert u in tools;
      }
      if c == t.category {
        assert t in tools;
      }
    }
  }

  /**
   * `TOOLS_BY_CATEGORY` has one group per category present in the catalog,
   * each holding exactly that category's tools in catalog order, and the group
   * sizes add up to the number of tools.
   */
  lemma {:induction false} GroupByCategorySpec(tools: seq<AITool>)
    ensures GroupsMatch(tools, GroupByCategory(tools))
    ensures GroupSizes(GroupByCategory(tools)) == |tools|
  {
    if tools != [] {
      var init, t := tools[..|tools| - 1], tools[|tools| - 1];
      assert tools == init + [t];
      GroupByCategorySpec(init);
      AddToGroupsMatch(init, t);
    }
  }

  /** Each tool lies in exactly one group: the one keyed by its own category. */
  lemma ToolInItsCategoryGroupOnly(tools: seq<AITool>, t: AITool)
    requires t in tools
    ensures var groups := GroupByCategory(tools);
      && (exists i :: 0 <= i < |groups| && groups[i].category == t.category && t in groups[i].tools)
      && (forall i :: 0 <= i < |groups| && t in groups[i].tools ==> groups[i].category == t.category)
  {
    var groups := GroupByCategory(tools);
    GroupByCategorySpec(tools);
    assert t.category in Categories(groups);
    var i :| 0 <= i < |groups| && Categories(groups)[i] == t.category;
    InCategoryMember(tools, t.category, t);
    forall j | 0 <= j < |groups| && t in groups[j].tools ensures groups[j].category == t.category {
      InCategoryMember(tools, groups[j].category, t);
    }
  }

  lemma {:induction false} InCategoryMember(tools: seq<AITool>, c: string, t: AITool)
    ensures t in InCategory(tools, c) <==> t in tools && t.category == c
  {
    if tools != [] {
      var init := tools[..|tools| - 1];
      InCategoryMember(init, c, t);
      assert tools == init + [tools[|tools| - 1]];
    }
  }

  const ToolsByCategory: seq<CategoryGroup> := GroupByCategory(PredefinedAITools)

  // ---------------------------------------------------------------------------
  // option lists

  datatype OptionEntry = OptionEntry(key: string, value: string)

  const DepartmentOptions: seq<string> :=
    seq(|DepartmentMembers|, i requires 0 <= i < |DepartmentMembers| => DepartmentMembers[i].Value())

  const TaskOptions: seq<OptionEntry> :=
    seq(|TaskTypeMembers|, i requires 0 <= i < |TaskTypeMembers| =>
      OptionEntry(TaskTypeMembers[i].Key(), TaskTypeMembers[i].Value()))

  const SubscriptionOptions: seq<OptionEntry> :=
    seq(|SubscriptionTypeMembers|, i requires 0 <= i < |SubscriptionTypeMembers| =>
      OptionEntry(SubscriptionTypeMembers[i].Key(), SubscriptionTypeMembers[i].Value()))

  const DataEntryOptions: seq<OptionEntry> :=
    seq(|DataEntryFrequencyMembers|, i requires 0 <= i < |DataEntryFrequencyMembers| =>
      OptionEntry(DataEntryFrequencyMembers[i].Key(), DataEntryFrequencyMembers[i].Value()))

  const ApprovalOptions: seq<OptionEntry> :=
    seq(|ApprovalStatusMembers|, i requires 0 <= i < |ApprovalStatusMembers| =>
      OptionEntry(ApprovalStatusMembers[i].Key(), ApprovalStatusMembers[i].Value()))

  /** Every enum member has exactly one entry in its option list, and the lists have no other entries. */
  lemma OptionListsComplete()
    ensures |DepartmentOptions| == 10 && Distinct(DepartmentOptions)
    ensures forall d: Department :: d.Value() in DepartmentOptions
    ensures |TaskOptions| == 10 && Distinct(TaskOptions)
    ensures forall t: TaskType :: OptionEntry(t.Key(), t.Value()) in TaskOptions
    ensures |SubscriptionOptions| == 4 && Distinct(SubscriptionOptions)
    ensures forall s: SubscriptionType :: OptionEntry(s.Key(), s.Value()) in SubscriptionOptions
    ensures |DataEntryOptions| == 3 && Distinct(DataEntryOptions)
    ensures forall f: DataEntryFrequency :: OptionEntry(f.Key(), f.Value()) in DataEntryOptions
    ensures |ApprovalOptions| == 3 && Distinct(ApprovalOptions)
    ensures forall a: ApprovalStatus :: OptionEntry(a.Key(), a.Value()) in ApprovalOptions
  {
    MemberListsComplete();
    EnumValuesDistinct();
    forall d: Department ensures d.Value() in DepartmentOptions {
      assert d in DepartmentMembers;
      var k :| 0 <= k < |DepartmentMembers| && DepartmentMembers[k] == d;
      assert DepartmentOptions[k] == d.Value();
    }
    forall t: TaskType ensures OptionEntry(t.Key(), t.Value()) in TaskOptions {
      assert t in TaskTypeMembers;
      var k :| 0 <= k < |TaskTypeMembers| && TaskTypeMembers[k] == t;
      assert TaskOptions[k] == OptionEntry(t.Key(), t.Value());
    }
    forall s: SubscriptionType ensures OptionEntry(s.Key(), s.Value()) in SubscriptionOptions {
      assert s in SubscriptionTypeMembers;
      var k :| 0 <= k < |SubscriptionTypeMembers| && SubscriptionTypeMembers[k] == s;
      assert SubscriptionOptions[k] == OptionEntry(s.Key(), s.Value());
    }
    forall f: DataEntryFrequency ensures OptionEntry(f.Key(), f.Value()) in DataEntryOptions {
      assert f in DataEntryFrequencyMembers;
      var k :| 0 <= k < |DataEntryFrequencyMembers| && DataEntryFrequencyMembers[k] == f;
      assert DataEntryOptions[k] == OptionEntry(f.Key(), f.Value());
    }
    forall a: ApprovalStatus ensures OptionEntry(a.Key(), a.Value()) in ApprovalOptions {
      assert a in ApprovalStatusMembers;
      var k :| 0 <= k < |ApprovalStatusMembers| && ApprovalStatusMembers[k] == a;
      assert ApprovalOptions[k] == OptionEntry(a.Key(), a.Value());
    }
  }
}
