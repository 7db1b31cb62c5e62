/**
 * The per-department breakdown of the analytics engine
 * (src/lib/analytics.ts, `deptData` and `byDepartment`).
 *
 * Every response is filed under its department, a missing or empty one
 * under "Unknown"; each department's entry counts its responses, its AI
 * users, and among those the ones who may enter sensitive data and the ones
 * without approval. The entries, in the order their departments first
 * appear, lose the "Unknown" one, become rows of percentages, and are sorted
 * by number of responses, highest first (stably).
 */
module Departments {
  import opened Wrappers
  import opened Seqs
  import opened Types
  import opened Responses
  import CountTable

  const UnknownDepartment: string := "Unknown"

  /** `r.department || 'Unknown'` */
  function DeptKey(r: Response): (d: string)
    ensures d != ""
    ensures d == UnknownDepartment <==> r.department.None? || r.department.value == "" || r.department.value == UnknownDepartment
  {
    if r.department.None? || r.department.value == "" then UnknownDepartment else r.department.value
  }

  datatype DeptTally = DeptTally(department: string, responses: nat, aiUsers: nat, sensitiveData: nat, noApproval: nat)

  /** An AI user who may enter sensitive data. */
  predicate SensitiveAIUser(r: Response) { r.usesAI && MayEnterSensitiveData(r) }

  /** An AI user without approval. */
  predicate UnapprovedAIUser(r: Response) { r.usesAI && LacksApproval(r) }

  /** The increments one response makes to its department's entry. */
  function Record(e: DeptTally, r: Response): DeptTally {
    e.(responses := e.responses + 1,
       aiUsers := e.aiUsers + (if r.usesAI then 1 else 0),
       sensitiveData := e.sensitiveData + (if SensitiveAIUser(r) then 1 else 0),
       noApproval := e.noApproval + (if UnapprovedAIUser(r) then 1 else 0))
  }

  function Depts(t: seq<DeptTally>): (ds: seq<string>)
    ensures |ds| == |t| && forall i :: 0 <= i < |t| ==> ds[i] == t[i].department
  {
    seq(|t|, i requires 0 <= i < |t| => t[i].department)
  }

  /** The index of the entry for `d`, or `|t|` when there is none. */
  function FindDept(t: seq<DeptTally>, d: string): (j: nat)
    ensures j <= |t|
    ensures forall i :: 0 <= i < j ==> t[i].department != d
    ensures j < |t| ==> t[j].department == d
  {
    if t == [] then 0 else if t[0].department == d then 0 else 1 + FindDept(t[1..], d)
  }

  /** One iteration of the `responses.forEach` loop: create the entry if it is missing, then count the response. */
  function AddResponse(t: seq<DeptTally>, r: Response): seq<DeptTally> {
    var d := DeptKey(r);
    var j := FindDept(t, d);
    if j < |t| then t[j := Record(t[j], r)] else t + [Record(DeptTally(d, 0, 0, 0, 0), r)]
  }

  /** `deptData` after every response has been counted. */
  function DeptTable(rs: seq<Response>): seq<DeptTally> {
    if rs == [] then [] else AddResponse(DeptTable(rs[..|rs| - 1]), rs[|rs| - 1])
  }

  /** The body of the `responses.forEach` loop (src/lib/analytics.ts:116-131), on the table's entry list. */
  method FileResponse(deptData: seq<DeptTally>, r: Response) returns (t: seq<DeptTally>)
    ensures t == AddResponse(deptData, r)
  {
    var dept := if r.department.None? || r.department.value == "" then UnknownDepartment else r.department.value;
    var j := 0;
    while j < |deptData| && deptData[j].department != dept
      invariant 0 <= j <= |deptData|
      invariant forall k :: 0 <= k < j ==> deptData[k].department != dept
    {
      j := j + 1;
    }
    assert j == FindDept(deptData, dept);
    t := deptData;
    if j == |t| {
      t := t + [DeptTally(dept, 0, 0, 0, 0)];
    }
    var e := t[j];
    e := e.(responses := e.responses + 1);
    if r.usesAI {
      e := e.(aiUsers := e.aiUsers + 1);
      if r.entersSensitiveData != Some(DataEntryFrequency.Never.Value()) {
        e := e.(sensitiveData := e.sensitiveData + 1);
      }
      if r.hasApproval != Some(ApprovalStatus.Yes.Value()) {
        e := e.(noApproval := e.noApproval + 1);
      }
    }
    assert e == Record(t[j], r);
    t := t[j := e];
  }

  /** The `deptData` loop (src/lib/analytics.ts:109-131). */
  method TallyDepartments(rs: seq<Response>) returns (deptData: seq<DeptTally>)
    ensures deptData == DeptTable(rs)
  {
    deptData := [];
    for i := 0 to |rs|
      invariant deptData == DeptTable(rs[..i])
    {
      deptData := FileResponse(deptData, rs[i]);
      assert rs[..i + 1][..i] == rs[..i];
    }
    assert rs[..|rs|] == rs;
  }

  // ---------------------------------------------------------------------------
  // reference: one department counted on its own

  /** The responses filed under `d`, in order. */
  function InDept(rs: seq<Response>, d: string): (s: seq<Response>)
    ensures |s| <= |rs|
  {
    if rs == [] then []
    else InDept(rs[..|rs| - 1], d) + (if DeptKey(rs[|rs| - 1]) == d then [rs[|rs| - 1]] else [])
  }

  /** What `d`'s entry should hold: counts over the responses filed under `d` alone. */
  function Summary(rs: seq<Response>, d: string): DeptTally {
    var s := InDept(rs, d);
    DeptTally(d, |s|, |Where(s, UsesAI)|, |Where(s, SensitiveAIUser)|, |Where(s, UnapprovedAIUser)|)
  }

  /** Counting one more response changes only its own department's summary, as Record does. */
  lemma SummarySnoc(rs: seq<Response>, r: Response, d: string)
    ensures Summary(rs + [r], d) == if DeptKey(r) == d then Record(Summary(rs, d), r) else Summary(rs, d)
  {
    assert (rs + [r])[..|rs|] == rs;
    var s := InDept(rs, d);
    if DeptKey(r) == d {
      assert InDept(rs + [r], d) == s + [r];
      assert (s + [r])[..|s|] == s;
      assert |Where(s + [r], UsesAI)| == |Where(s, UsesAI)| + (if r.usesAI then 1 else 0);
      assert |Where(s + [r], SensitiveAIUser)| == |Where(s, SensitiveAIUser)| + (if SensitiveAIUser(r) then 1 else 0);
      assert |Where(s + [r], UnapprovedAIUser)| == |Where(s, UnapprovedAIUser)| + (if UnapprovedAIUser(r) then 1 else 0);
    } else {
      assert InDept(rs + [r], d) == s;
    }
  }

  /** A summary never has more AI users than responses, nor more at-risk AI users than AI users. */
  lemma SummaryBounds(rs: seq<Response>, d: string)
    ensures var e := Summary(rs, d);
      e.aiUsers <= e.responses && e.sensitiveData <= e.aiUsers && e.noApproval <= e.aiUsers
  {
    var s := InDept(rs, d);
    WhereWeaker(s, SensitiveAIUser, UsesAI);
    WhereWeaker(s, UnapprovedAIUser, UsesAI);
  }

  lemma {:induction false} InDeptMember(rs: seq<Response>, d: string, r: Response)
    ensures r in InDept(rs, d) <==> r in rs && DeptKey(r) == d
  {
    if rs != [] {
      var init := rs[..|rs| - 1];
      InDeptMember(init, d, r);
      assert rs == init + [rs[|rs| - 1]];
    }
  }

  ghost predicate TableMatches(rs: seq<Response>, t: seq<DeptTally>) {
    && Distinct(Depts(t))
    && (forall d :: d in Depts(t) <==> exists r :: r in rs && DeptKey(r) == d)
    && (forall i :: 0 <= i < |t| ==> t[i] == Summary(rs, t[i].department))
  }

  /** After one more response every entry still holds its department's own counts. */
  lemma AddResponseSummaries(rs: seq<Response>, r: Response)
    requires TableMatches(rs, DeptTable(rs))
    ensures var t' := AddResponse(DeptTable(rs), r);
      forall i :: 0 <= i < |t'| ==> t'[i] == Summary(rs + [r], t'[i].department)
  {
    var t := DeptTable(rs);
    var t' := AddResponse(t, r);
    var d := DeptKey(r);
    var j := FindDept(t, d);
    forall i | 0 <= i < |t'| ensures t'[i] == Summary(rs + [r], t'[i].department) {
      SummarySnoc(rs, r, t'[i].department);
      if i < |t| && i != j {
        assert t'[i] == t[i];
        assert Depts(t)[i] != d by {
          if j < |t| { assert Depts(t)[i] != Depts(t)[j]; }
        }
      } else if i == |t| {
        assert d !in Depts(t);
        InDeptNone(rs, d);
      }
    }
  }

  /** After one more response the departments listed are those of all responses so far, each once. */
  lemma AddResponseDepts(rs: seq<Response>, r: Response)
    requires TableMatches(rs, DeptTable(rs))
    ensures var t' := AddResponse(DeptTable(rs), r);
      && Distinct(Depts(t'))
      && (forall x :: x in Depts(t') <==> exists y :: y in rs + [r] && DeptKey(y) == x)
  {
    var t := DeptTable(rs);
    var t' := AddResponse(t, r);
    var d := DeptKey(r);
    var j := FindDept(t, d);
    assert Depts(t') == if j < |t| then Depts(t) else Depts(t) + [d];
    forall x ensures x in Depts(t') <==> exists y :: y in rs + [r] && DeptKey(y) == x {
      if exists y :: y in rs + [r] && DeptKey(y) == x {
        var y :| y in rs + [r] && DeptKey(y) == x;
        if y != r { assert y in rs; }
      }
    }
    assert Distinct(Depts(t')) by {
      if j == |t| {
        forall a, b | 0 <= a < b < |t'| ensures Depts(t')[a] != Depts(t')[b] {
          if b == |t| {
            assert Depts(t)[a] in Depts(t);
          } else {
            assert Depts(t')[a] == Depts(t)[a] && Depts(t')[b] == Depts(t)[b];
          }
        }
      }
    }
  }

  lemma {:induction false} InDeptNone(rs: seq<Response>, d: string)
    requires forall x :: x in rs ==> DeptKey(x) != d
    ensures InDept(rs, d) == []
  {
    if rs != [] {
      InDeptNone(rs[..|rs| - 1], d);
    }
  }

  /**
   * `deptData` has one entry per department some response is filed under
   * (missing and empty ones under "Unknown"), and each entry holds exactly
   * the counts of that department's own responses.
   */
  lemma {:induction false} DeptTableSpec(rs: seq<Response>)
    ensures TableMatches(rs, DeptTable(rs))
  {
    if rs != [] {
      var init, r := rs[..|rs| - 1], rs[|rs| - 1];
      DeptTableSpec(init);
      assert rs == init + [r];
      AddResponseSummaries(init, r);
      AddResponseDepts(init, r);
    }
  }

  /** The department key of each response, in response order. */
  function DeptKeys(rs: seq<Response>): (ks: seq<string>)
    ensures |ks| == |rs| && forall i :: 0 <= i < |rs| ==> ks[i] == DeptKey(rs[i])
  {
    seq(|rs|, i requires 0 <= i < |rs| => DeptKey(rs[i]))
  }

  /**
   * `deptData` lists its departments in the order they first appear among the
   * responses: an entry is created the first time its department is met and
   * never moves.
   */
  lemma {:induction false} DeptTableOrder(rs: seq<Response>)
    ensures Depts(DeptTable(rs)) == CountTable.FirstOccurrences(DeptKeys(rs))
  {
    if rs != [] {
      var init, r := rs[..|rs| - 1], rs[|rs| - 1];
      DeptTableOrder(init);
      var keys := DeptKeys(rs);
      assert keys[..|keys| - 1] == DeptKeys(init);
      var t := DeptTable(init);
      var d := DeptKey(r);
      var j := FindDept(t, d);
      if j < |t| {
        assert Depts(t)[j] == d;
        assert Depts(t[j := Record(t[j], r)]) == Depts(t);
      } else {
        assert d !in Depts(t);
        assert Depts(t + [Record(DeptTally(d, 0, 0, 0, 0), r)]) == Depts(t) + [d];
      }
    }
  }

  function TableResponses(t: seq<DeptTally>): nat {
    if t == [] then 0 else t[0].responses + TableResponses(t[1..])
  }

  lemma {:induction false} TableResponsesUpdate(t: seq<DeptTally>, j: nat, e: DeptTally)
    requires j < |t|
    ensures TableResponses(t[j := e]) + t[j].responses == TableResponses(t) + e.responses
  {
    if j > 0 {
      assert t[j := e][1..] == t[1..][j - 1 := e];
      TableResponsesUpdate(t[1..], j - 1, e);
    }
  }

  lemma {:induction false} TableResponsesSnoc(t: seq<DeptTally>, e: DeptTally)
    ensures TableResponses(t + [e]) == TableResponses(t) + e.responses
  {
    if t != [] {
      assert (t + [e])[1..] == t[1..] + [e];
      TableResponsesSnoc(t[1..], e);
    }
  }

  /** Every response is counted under exactly one entry, "Unknown" included. */
  lemma {:induction false} DeptTableCountsEveryResponse(rs: seq<Response>)
    ensures TableResponses(DeptTable(rs)) == |rs|
  {
    if rs != [] {
      var init, r := rs[..|rs| - 1], rs[|rs| - 1];
      DeptTableCountsEveryResponse(init);
      var t := DeptTable(init);
      var j := FindDept(t, DeptKey(r));
      if j < |t| {
        TableResponsesUpdate(t, j, Record(t[j], r));
      } else {
        TableResponsesSnoc(t, Record(DeptTally(DeptKey(r), 0, 0, 0, 0), r));
      }
    }
  }

  // ---------------------------------------------------------------------------
  // rows

  predicate IsKnown(e: DeptTally) { e.department != UnknownDepartment }

  function Row(e: DeptTally): DepartmentRow {
    DepartmentRow(
      e.department,
      e.responses,
      if e.responses > 0 then Percent(e.aiUsers, e.responses) else 0,
      if e.aiUsers > 0 then Percent(e.sensitiveData, e.aiUsers) else 0,
      if e.aiUsers > 0 then Percent(e.noApproval, e.aiUsers) else 0)
  }

  function Rows(t: seq<DeptTally>): (rows: seq<DepartmentRow>)
    ensures |rows| == |t| && forall i :: 0 <= i < |t| ==> rows[i] == Row(t[i])
  {
    seq(|t|, i requires 0 <= i < |t| => Row(t[i]))
  }

  function RowResponses(row: DepartmentRow): int { row.responses }

  function RowDepartment(row: DepartmentRow): string { row.department }

  /** `byDepartment` (src/lib/analytics.ts:133-142). */
  function ByDepartment(rs: seq<Response>): seq<DepartmentRow> {
    SortDesc(Rows(Where(DeptTable(rs), IsKnown)), RowResponses)
  }

  /**
   * `byDepartment` is sorted by number of responses, departments with equal
   * numbers keep the order of the table, which is the order in which they
   * first appeared among the responses, and no department has two rows.
   */
  lemma ByDepartmentOrder(rs: seq<Response>)
    ensures var rows := ByDepartment(rs);
      && SortedDesc(rows, RowResponses)
      && (forall c :: WithKey(rows, RowResponses, c) == WithKey(Rows(Where(DeptTable(rs), IsKnown)), RowResponses, c))
      && Depts(DeptTable(rs)) == CountTable.FirstOccurrences(DeptKeys(rs))
      && DistinctBy(rows, RowDepartment)
  {
    DeptTableOrder(rs);
    var t := DeptTable(rs);
    var known := Where(t, IsKnown);
    var unsorted := Rows(known);
    DeptTableSpec(rs);
    SortDescSorted(unsorted, RowResponses);
    forall c ensures WithKey(SortDesc(unsorted, RowResponses), RowResponses, c) == WithKey(unsorted, RowResponses, c) {
      SortDescStable(unsorted, RowResponses, c);
    }
    WhereDistinctDepts(t);
    assert DistinctBy(unsorted, RowDepartment) by {
      forall a, b | 0 <= a < b < |unsorted| ensures unsorted[a].department != unsorted[b].department {
        assert Depts(known)[a] != Depts(known)[b];
      }
    }
    PermutationKeepsDistinctBy(unsorted, SortDesc(unsorted, RowResponses), RowDepartment);
  }

  /** Filtering a table keeps its departments distinct and keeps only entries of the table. */
  lemma {:induction false} WhereDistinctDepts(t: seq<DeptTally>)
    requires Distinct(Depts(t))
    ensures Distinct(Depts(Where(t, IsKnown)))
  {
    if t != [] {
      var init, last := t[..|t| - 1], t[|t| - 1];
      assert Distinct(Depts(init)) by {
        forall a, b | 0 <= a < b < |init| ensures Depts(init)[a] != Depts(init)[b] {
          assert Depts(t)[a] != Depts(t)[b];
        }
      }
      WhereDistinctDepts(init);
      var w := Where(init, IsKnown);
      if IsKnown(last) {
        forall a | 0 <= a < |w| ensures w[a].department != last.department {
          assert w[a] in w;
          WhereMember(init, IsKnown, w[a]);
          var k :| 0 <= k < |init| && init[k] == w[a];
          assert Depts(t)[k] != Depts(t)[|t| - 1];
        }
        var w' := Where(t, IsKnown);
        assert w' == w + [last];
        forall a, b | 0 <= a < b < |w'| ensures Depts(w')[a] != Depts(w')[b] {
          if b < |w| {
            assert Depts(w')[a] == Depts(w)[a] && Depts(w')[b] == Depts(w)[b];
          }
        }
      }
    }
  }

  /** The row of a department some response names counts that response, and its percentages are shares. */
  lemma KnownRow(rs: seq<Response>, r: Response)
    requires r in rs
    ensures var row := Row(Summary(rs, DeptKey(r)));
      && row.responses >= 1
      && row.percentUsingAI <= 100
      && row.percentSensitiveData <= 100
      && row.percentNoApproval <= 100
  {
    var e := Summary(rs, DeptKey(r));
    InDeptMember(rs, DeptKey(r), r);
    SummaryBounds(rs, DeptKey(r));
    PercentAtMost100(e.aiUsers, e.responses);
    PercentAtMost100(e.sensitiveData, e.aiUsers);
    PercentAtMost100(e.noApproval, e.aiUsers);
  }

  /**
   * Each `byDepartment` row belongs to a department that is neither missing,
   * empty nor "Unknown" and that some response names; it reports that
   * department's own counts, with every percentage between 0 and 100. Every
   * such department has a row.
   */
  lemma ByDepartmentRows(rs: seq<Response>)
    ensures var rows := ByDepartment(rs);
      && (forall i :: 0 <= i < |rows| ==>
            && rows[i].department != UnknownDepartment
            && rows[i].department != ""
            && (exists r :: r in rs && r.department == Some(rows[i].department))
            && rows[i] == Row(Summary(rs, rows[i].department))
            && rows[i].responses >= 1
            && rows[i].percentUsingAI <= 100
            && rows[i].percentSensitiveData <= 100
            && rows[i].percentNoApproval <= 100)
      && (forall r :: r in rs && DeptKey(r) != UnknownDepartment ==>
            exists i :: 0 <= i < |rows| && rows[i].department == DeptKey(r))
  {
    var rows := ByDepartment(rs);
    forall i | 0 <= i < |rows|
      ensures && rows[i].department != UnknownDepartment
              && rows[i].department != ""
              && (exists r :: r in rs && r.department == Some(rows[i].department))
              && rows[i] == Row(Summary(rs, rows[i].department))
              && rows[i].responses >= 1
              && rows[i].percentUsingAI <= 100
              && rows[i].percentSensitiveData <= 100
              && rows[i].percentNoApproval <= 100
    {
      ByDepartmentRow(rs, i);
    }
    forall r | r in rs && DeptKey(r) != UnknownDepartment
      ensures exists i :: 0 <= i < |rows| && rows[i].department == DeptKey(r)
    {
      ByDepartmentCovers(rs, r);
    }
  }

  /** One row of `byDepartment`: a known department's own summary. */
  lemma ByDepartmentRow(rs: seq<Response>, i: nat)
    requires i < |ByDepartment(rs)|
    ensures var row := ByDepartment(rs)[i];
      && row.department != UnknownDepartment
      && row.department != ""
      && (exists r :: r in rs && r.department == Some(row.department))
      && row == Row(Summary(rs, row.department))
      && row.responses >= 1
      && row.percentUsingAI <= 100
      && row.percentSensitiveData <= 100
      && row.percentNoApproval <= 100
  {
    var t := DeptTable(rs);
    var known := Where(t, IsKnown);
    var unsorted := Rows(known);
    var rows := ByDepartment(rs);
    DeptTableSpec(rs);
    assert rows[i] in multiset(unsorted);
    var a :| 0 <= a < |unsorted| && unsorted[a] == rows[i];
    var e := known[a];
    assert e in known;
    WhereMember(t, IsKnown, e);
    var k :| 0 <= k < |t| && t[k] == e;
    assert e == Summary(rs, e.department);
    assert Depts(t)[k] in Depts(t);
    var r :| r in rs && DeptKey(r) == e.department;
    KnownRow(rs, r);
  }

  /** Every response naming a known department has its department's row in `byDepartment`. */
  lemma ByDepartmentCovers(rs: seq<Response>, r: Response)
    requires r in rs && DeptKey(r) != UnknownDepartment
    ensures exists i :: 0 <= i < |ByDepartment(rs)| && ByDepartment(rs)[i].department == DeptKey(r)
  {
    var t := DeptTable(rs);
    var known := Where(t, IsKnown);
    var unsorted := Rows(known);
    var rows := ByDepartment(rs);
    DeptTableSpec(rs);
    var d := DeptKey(r);
    assert d in Depts(t);
    var k :| 0 <= k < |t| && Depts(t)[k] == d;
    WhereMember(t, IsKnown, t[k]);
    var a :| 0 <= a < |known| && known[a] == t[k];
    assert unsorted[a] in multiset(rows);
    var i :| 0 <= i < |rows| && rows[i] == unsorted[a];
  }
  // ---------------------------------------------------------------------------
  // independence of the order of the responses

  /** `InDept` is a filter, whichever predicate names "filed under `d`". */
  lemma {:induction false} InDeptIsWhere(rs: seq<Response>, d: string, p: Response -> bool)
    requires forall r :: p(r) == (DeptKey(r) == d)
    ensures InDept(rs, d) == Where(rs, p)
  {
    if rs != [] {
      InDeptIsWhere(rs[..|rs| - 1], d, p);
    }
  }

  /** A department's counts do not depend on the order of the responses. */
  lemma SummaryReorder(a: seq<Response>, b: seq<Response>, d: string)
    requires multiset(a) == multiset(b)
    ensures Summary(a, d) == Summary(b, d)
  {
    var p := (r: Response) => DeptKey(r) == d;
    InDeptIsWhere(a, d, p);
    InDeptIsWhere(b, d, p);
    WherePerm(a, b, p);
    var sa, sb := InDept(a, d), InDept(b, d);
    WherePerm(sa, sb, UsesAI);
    WherePerm(sa, sb, SensitiveAIUser);
    WherePerm(sa, sb, UnapprovedAIUser);
  }

  /**
   * A row is in `byDepartment` exactly when it is the summary row of a known
   * department that some response is filed under.
   */
  lemma ByDepartmentMember(rs: seq<Response>, row: DepartmentRow)
    ensures row in ByDepartment(rs) <==>
      && row.department != UnknownDepartment
      && (exists r :: r in rs && DeptKey(r) == row.department)
      && row == Row(Summary(rs, row.department))
  {
    var rows := ByDepartment(rs);
    if row in rows {
      var i :| 0 <= i < |rows| && rows[i] == row;
      ByDepartmentRow(rs, i);
      var r :| r in rs && r.department == Some(row.department);
      assert DeptKey(r) == row.department;
    }
    if row.department != UnknownDepartment && exists r :: r in rs && DeptKey(r) == row.department {
      var r :| r in rs && DeptKey(r) == row.department;
      var i := ByDepartmentIndex(rs, r);
      ByDepartmentRow(rs, i);
    }
  }

  /** The position in `byDepartment` of the row of a response's known department. */
  lemma ByDepartmentIndex(rs: seq<Response>, r: Response) returns (i: nat)
    requires r in rs && DeptKey(r) != UnknownDepartment
    ensures i < |ByDepartment(rs)| && ByDepartment(rs)[i].department == DeptKey(r)
  {
    ByDepartmentCovers(rs, r);
    i :| 0 <= i < |ByDepartment(rs)| && ByDepartment(rs)[i].department == DeptKey(r);
  }

  /** Reordering the responses reorders the rows of `byDepartment` and changes none of them. */
  lemma ByDepartmentReorder(a: seq<Response>, b: seq<Response>)
    requires multiset(a) == multiset(b)
    ensures multiset(ByDepartment(a)) == multiset(ByDepartment(b))
  {
    forall row ensures row in ByDepartment(a) <==> row in ByDepartment(b) {
      ByDepartmentMember(a, row);
      ByDepartmentMember(b, row);
      SummaryReorder(a, b, row.department);
      forall r ensures r in a <==> r in b {
        assert r in a <==> r in multiset(a);
        assert r in b <==> r in multiset(b);
      }
    }
    ByDepartmentOrder(a);
    ByDepartmentOrder(b);
    DistinctByDistinct(ByDepartment(a), RowDepartment);
    DistinctByDistinct(ByDepartment(b), RowDepartment);
    DistinctSameMembers(ByDepartment(a), ByDepartment(b));
  }
}
