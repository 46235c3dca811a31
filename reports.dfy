/** The compliance report: the five-way filter of the report rows, the KPI
    cards, the per-department counts with the top department, and the
    generated insight sentences. */
module Reports {
  import opened Wrappers
  import opened Seqs
  import opened Text

  /** One row of the report table (`lengthYears` / `lengthMonths` /
      `lengthDays` give the length of the stay). */
  datatype ReportRow = ReportRow(
    id: string,
    employee: string,
    gender: string,
    department: string,
    visaType: string,
    visaStart: string,
    visaEnd: string,
    lengthYears: int,
    lengthMonths: int,
    lengthDays: int,
    status: string)

  /** Search text and the four selects; "" and "all" leave a criterion open. */
  datatype ReportFilters = ReportFilters(
    searchQuery: string,
    genderFilter: string,
    departmentFilter: string,
    visaTypeFilter: string,
    statusFilter: string)

  const DefaultFilters := ReportFilters("", "all", "all", "all", "all")

  /** Case-insensitive name search; the four selects compare exactly. */
  predicate RowMatches(row: ReportRow, f: ReportFilters)
  {
    (f.searchQuery == "" || Contains(ToLower(row.employee), ToLower(f.searchQuery)))
    && (f.genderFilter == "all" || row.gender == f.genderFilter)
    && (f.departmentFilter == "all" || row.department == f.departmentFilter)
    && (f.visaTypeFilter == "all" || row.visaType == f.visaTypeFilter)
    && (f.statusFilter == "all" || row.status == f.statusFilter)
  }

  function RowPasses(f: ReportFilters): ReportRow -> bool
  {
    (row: ReportRow) => RowMatches(row, f)
  }

  /** `filteredData`; "Showing X of Y employees" never shows X above Y. */
  function FilterReport(rows: seq<ReportRow>, f: ReportFilters): (r: seq<ReportRow>)
    ensures |r| <= |rows|
    ensures IsSubsequence(r, rows)
    ensures forall i :: 0 <= i < |r| ==> RowMatches(r[i], f)
  {
    FilterIsSubsequence(rows, RowPasses(f));
    FilterAllPass(rows, RowPasses(f));
    Filter(rows, RowPasses(f))
  }

  /** A row is listed exactly when it is in the data and matches all five criteria. */
  lemma FilterReportMembers(rows: seq<ReportRow>, f: ReportFilters, row: ReportRow)
    ensures row in FilterReport(rows, f) <==> row in rows && RowMatches(row, f)
  {
    FilterMembers(rows, RowPasses(f), row);
  }

  /** With every criterion at its default, all rows are listed in order. */
  lemma {:induction false} DefaultFiltersShowAll(rows: seq<ReportRow>)
    ensures FilterReport(rows, DefaultFilters) == rows
  {
    FilterKeepsAll(rows, RowPasses(DefaultFilters));
  }

  lemma FilterReportIdempotent(rows: seq<ReportRow>, f: ReportFilters)
    ensures FilterReport(FilterReport(rows, f), f) == FilterReport(rows, f)
  {
    FilterIdempotent(rows, RowPasses(f));
  }

  // ---- KPI cards and counters ----

  function StatusIs(status: string): ReportRow -> bool
  {
    (row: ReportRow) => row.status == status
  }

  function VisaTypeIs(visaType: string): ReportRow -> bool
  {
    (row: ReportRow) => row.visaType == visaType
  }

  datatype ReportKpis = ReportKpis(
    totalEmployees: nat,
    activeVisas: nat,
    expiredVisas: nat,
    h1bCount: nat,
    processingCount: nat)

  /** The KPI cards and the counts the insights quote. The total is the number
      of rows listed; no row is both active and expired, nor active and processing. */
  function ComputeReportKpis(filtered: seq<ReportRow>): (k: ReportKpis)
    ensures k.totalEmployees == |filtered|
    ensures k.activeVisas == |Filter(filtered, StatusIs("Active"))|
    ensures k.expiredVisas == |Filter(filtered, StatusIs("Expired"))|
    ensures k.h1bCount == |Filter(filtered, VisaTypeIs("H-1B"))|
    ensures k.processingCount == |Filter(filtered, StatusIs("Processing"))|
    ensures k.activeVisas + k.expiredVisas <= k.totalEmployees
    ensures k.activeVisas + k.processingCount <= k.totalEmployees
    ensures k.h1bCount <= k.totalEmployees
  {
    DisjointCounts(filtered, StatusIs("Active"), StatusIs("Expired"));
    DisjointCounts(filtered, StatusIs("Active"), StatusIs("Processing"));
    ReportKpis(
      |filtered|,
      |Filter(filtered, StatusIs("Active"))|,
      |Filter(filtered, StatusIs("Expired"))|,
      |Filter(filtered, VisaTypeIs("H-1B"))|,
      |Filter(filtered, StatusIs("Processing"))|)
  }

  /** Each count is the number of listed positions meeting its condition. */
  lemma ReportKpiCounts(filtered: seq<ReportRow>)
    ensures ComputeReportKpis(filtered).activeVisas == |set i: nat | i < |filtered| && filtered[i].status == "Active"|
    ensures ComputeReportKpis(filtered).expiredVisas == |set i: nat | i < |filtered| && filtered[i].status == "Expired"|
    ensures ComputeReportKpis(filtered).h1bCount == |set i: nat | i < |filtered| && filtered[i].visaType == "H-1B"|
    ensures ComputeReportKpis(filtered).processingCount == |set i: nat | i < |filtered| && filtered[i].status == "Processing"|
  {
    FilterCountIsIndexCount(filtered, StatusIs("Active"));
    FilterCountIsIndexCount(filtered, StatusIs("Expired"));
    FilterCountIsIndexCount(filtered, VisaTypeIs("H-1B"));
    FilterCountIsIndexCount(filtered, StatusIs("Processing"));
    assert IndicesWhere(filtered, StatusIs("Active")) == set i: nat | i < |filtered| && filtered[i].status == "Active";
    assert IndicesWhere(filtered, StatusIs("Expired")) == set i: nat | i < |filtered| && filtered[i].status == "Expired";
    assert IndicesWhere(filtered, VisaTypeIs("H-1B")) == set i: nat | i < |filtered| && filtered[i].visaType == "H-1B";
    assert IndicesWhere(filtered, StatusIs("Processing")) == set i: nat | i < |filtered| && filtered[i].status == "Processing";
  }

  /** The counts do not depend on the order of the rows. */
  lemma ReportKpisIgnoreOrder(a: seq<ReportRow>, b: seq<ReportRow>)
    requires multiset(a) == multiset(b)
    ensures ComputeReportKpis(a) == ComputeReportKpis(b)
  {
    assert |a| == |multiset(a)| == |multiset(b)| == |b|;
    FilterCountPermutation(a, b, StatusIs("Active"));
    FilterCountPermutation(a, b, StatusIs("Expired"));
    FilterCountPermutation(a, b, VisaTypeIs("H-1B"));
    FilterCountPermutation(a, b, StatusIs("Processing"));
  }

  // ---- department counts ----

  function RowDepartment(row: ReportRow): string
  {
    row.department
  }

  /** The number of listed rows in each department, keyed by the departments in order of first appearance. */
  function DeptCountSpec(filtered: seq<ReportRow>): (m: map<string, nat>)
    ensures forall d :: d in m <==> d in Distinct(Map(filtered, RowDepartment))
  {
    map d | d in Distinct(Map(filtered, RowDepartment)) :: |Filter(filtered, KeyIs(RowDepartment, d))|
  }

  /** The `reduce` that fills `deptCounts`: `keys` is the object's key order. */
  method DeptCounts(filtered: seq<ReportRow>) returns (keys: seq<string>, counts: map<string, nat>)
    ensures keys == Distinct(Map(filtered, RowDepartment))
    ensures counts == DeptCountSpec(filtered)
    ensures CountSum(keys, counts) == |filtered|
  {
    keys := [];
    counts := map[];
    var i := 0;
    while i < |filtered|
      invariant 0 <= i <= |filtered|
      invariant keys == Distinct(Map(filtered[..i], RowDepartment))
      invariant forall d :: d in counts <==> d in keys
      invariant forall d :: d in counts ==> counts[d] == |Filter(filtered[..i], KeyIs(RowDepartment, d))|
    {
      keys, counts := CountRow(filtered, i, keys, counts);
      i := i + 1;
    }
    assert i == |filtered| && filtered[..i] == filtered;
    CountSumIsTotal(keys, counts, filtered);
    GroupsCoverAll(filtered, RowDepartment);
  }

  /** The `reduce` callback for the row at `i`: `acc[dept] = (acc[dept] || 0) + 1`,
      a new department joining the keys at the end. */
  method CountRow(filtered: seq<ReportRow>, i: nat, keys: seq<string>, counts: map<string, nat>)
    returns (keys': seq<string>, counts': map<string, nat>)
    requires i < |filtered|
    requires keys == Distinct(Map(filtered[..i], RowDepartment))
    requires forall d :: d in counts <==> d in keys
    requires forall d :: d in counts ==> counts[d] == |Filter(filtered[..i], KeyIs(RowDepartment, d))|
    ensures keys' == Distinct(Map(filtered[..i + 1], RowDepartment))
    ensures forall d :: d in counts' <==> d in keys'
    ensures forall d :: d in counts' ==> counts'[d] == |Filter(filtered[..i + 1], KeyIs(RowDepartment, d))|
  {
    var dept := RowDepartment(filtered[i]);
    keys' := keys;
    DistinctKeysSnoc(filtered, i, RowDepartment);
    if dept !in counts {
      NoneWithKey(filtered[..i], RowDepartment, dept);
      keys' := keys' + [dept];
    }
    IncrementStep(filtered, i, counts);
    counts' := counts[dept := (if dept in counts then counts[dept] else 0) + 1];
  }

  /** `acc[dept] = (acc[dept] || 0) + 1` keeps every entry equal to its
      department's count among the rows scanned so far. */
  lemma IncrementStep(s: seq<ReportRow>, i: nat, counts: map<string, nat>)
    requires i < |s|
    requires forall d :: d in counts ==> counts[d] == |Filter(s[..i], KeyIs(RowDepartment, d))|
    requires RowDepartment(s[i]) !in counts ==> Filter(s[..i], KeyIs(RowDepartment, RowDepartment(s[i]))) == []
    ensures var dept := RowDepartment(s[i]);
      var c := counts[dept := (if dept in counts then counts[dept] else 0) + 1];
      forall d :: d in c ==> c[d] == |Filter(s[..i + 1], KeyIs(RowDepartment, d))|
  {
    var dept := RowDepartment(s[i]);
    var c := counts[dept := (if dept in counts then counts[dept] else 0) + 1];
    forall d | d in c
      ensures c[d] == |Filter(s[..i + 1], KeyIs(RowDepartment, d))|
    {
      FilterSnoc(s, i, KeyIs(RowDepartment, d));
    }
  }

  /** Sum of the counts over the listed keys. */
  function CountSum(keys: seq<string>, counts: map<string, nat>): nat
    requires forall k :: k in keys ==> k in counts
  {
    if keys == [] then 0 else counts[keys[0]] + CountSum(keys[1..], counts)
  }

  lemma {:induction false} CountSumIsTotal(keys: seq<string>, counts: map<string, nat>, s: seq<ReportRow>)
    requires forall k :: k in keys ==> k in counts
    requires forall d :: d in counts ==> counts[d] == |Filter(s, KeyIs(RowDepartment, d))|
    ensures CountSum(keys, counts) == GroupTotal(keys, s, RowDepartment)
    decreases |keys|
  {
    if keys != [] {
      CountSumIsTotal(keys[1..], counts, s);
    }
  }

  /** The department counts sum to the number of listed rows. */
  lemma DeptCountsSumToTotal(filtered: seq<ReportRow>)
    ensures CountSum(Distinct(Map(filtered, RowDepartment)), DeptCountSpec(filtered)) == |filtered|
  {
    var keys := Distinct(Map(filtered, RowDepartment));
    CountSumIsTotal(keys, DeptCountSpec(filtered), filtered);
    GroupsCoverAll(filtered, RowDepartment);
  }

  /** Every department with an entry counts at least one listed row. */
  lemma DeptCountPositive(filtered: seq<ReportRow>, d: string)
    requires d in DeptCountSpec(filtered)
    ensures DeptCountSpec(filtered)[d] >= 1
  {
    var m := Map(filtered, RowDepartment);
    DistinctMembers(m);
    var i :| 0 <= i < |m| && m[i] == d;
    FilterMembers(filtered, KeyIs(RowDepartment, d), filtered[i]);
  }

  // ---- the top department ----

  /** Position of the first key with the largest count: the first entry of a
      stable sort of the entries by descending count. */
  function FirstMax(keys: seq<string>, counts: map<string, nat>): (i: nat)
    requires keys != []
    requires forall k :: k in keys ==> k in counts
    ensures i < |keys|
    ensures forall j :: 0 <= j < |keys| ==> counts[keys[j]] <= counts[keys[i]]
    ensures forall j :: 0 <= j < i ==> counts[keys[j]] < counts[keys[i]]
    decreases |keys|
  {
    if |keys| == 1 then 0
    else
      var j := FirstMax(keys[..|keys| - 1], counts);
      if counts[keys[|keys| - 1]] > counts[keys[j]] then |keys| - 1 else j
  }

  /** Only one position is both maximal and ahead of every other maximal one. */
  lemma FirstMaxIsUnique(keys: seq<string>, counts: map<string, nat>, i: nat)
    requires keys != [] && forall k :: k in keys ==> k in counts
    requires i < |keys|
    requires forall j :: 0 <= j < |keys| ==> counts[keys[j]] <= counts[keys[i]]
    requires forall j :: 0 <= j < i ==> counts[keys[j]] < counts[keys[i]]
    ensures i == FirstMax(keys, counts)
  {
  }

  /** `topDept`: the department and count of the first largest entry, if any. */
  function TopDept(keys: seq<string>, counts: map<string, nat>): (top: Option<(string, nat)>)
    requires forall k :: k in keys ==> k in counts
    ensures top.None? <==> keys == []
    ensures top.Some? ==> top.value.0 in keys && top.value.1 == counts[top.value.0]
    ensures top.Some? ==> forall j :: 0 <= j < |keys| ==> counts[keys[j]] <= top.value.1
    ensures top.Some? ==> exists i :: 0 <= i < |keys| && keys[i] == top.value.0 &&
                                      forall j :: 0 <= j < i ==> counts[keys[j]] < top.value.1
  {
    if keys == [] then None
    else
      var i := FirstMax(keys, counts);
      Some((keys[i], counts[keys[i]]))
  }

  // ---- insights ----

  const TopDeptTail := " holds the highest number of active visas ("

  /** First insight: the top department (an empty result or an empty name
      falls back to "Engineering") and its count (0 when there is none). */
  function TopDeptInsight(top: Option<(string, nat)>): (s: string)
    ensures top.None? ==> s == "Engineering" + TopDeptTail + "0)."
    ensures top.Some? && top.value.0 != "" ==>
              |s| >= |top.value.0| && s[..|top.value.0|] == top.value.0
    ensures var n := if top.None? then 0 else top.value.1;
      EndsWith(s, NatToString(n) + ").")
  {
    var name := if top.None? || top.value.0 == "" then "Engineering" else top.value.0;
    var count := if top.None? || top.value.1 == 0 then 0 else top.value.1;
    var s := name + TopDeptTail + (NatToString(count) + ").");
    assert s[..|name|] == name;
    s
  }

  predicate EndsWith(s: string, suffix: string)
  {
    |suffix| <= |s| && s[|s| - |suffix|..] == suffix
  }

  /** With no rows listed, the first insight reads "Engineering holds the highest
      number of active visas (0).". */
  lemma EmptyReportInsight()
    ensures TopDeptInsight(TopDept(Distinct(Map([], RowDepartment)), DeptCountSpec([])))
         == "Engineering" + TopDeptTail + "0)."
  {
    assert Map([], RowDepartment) == [];
  }

  const H1bHead := "There are currently "
  const H1bTail := " H-1B visa holders across all departments."

  /** Second insight: the number of H-1B holders, readable back from the sentence. */
  function H1bInsight(h1bCount: nat): (s: string)
    ensures |s| > |H1bHead| && s[..|H1bHead|] == H1bHead
    ensures LeadingDigits(s[|H1bHead|..]) == NatToString(h1bCount)
  {
    var n := NatToString(h1bCount);
    assert H1bTail[0] == ' ';
    LeadingDigitsOfNumeral(n, H1bTail);
    var s := H1bHead + (n + H1bTail);
    assert s[..|H1bHead|] == H1bHead;
    assert s[|H1bHead|..] == n + H1bTail;
    s
  }

  const RenewalsTail := " pending renewals due before December 31."
  const OneEmployeeTail := " employee has" + RenewalsTail
  const ManyEmployeesTail := " employees have" + RenewalsTail

  /** Third insight: "1 employee has ..." but "<n> employees have ..." for every
      other count, zero included. */
  function PendingInsight(processingCount: nat): (s: string)
    ensures LeadingDigits(s) == NatToString(processingCount)
    ensures |s| >= |NatToString(processingCount)|
    ensures s[|NatToString(processingCount)|..]
         == if processingCount == 1 then OneEmployeeTail else ManyEmployeesTail
  {
    var n := NatToString(processingCount);
    var tail := if processingCount != 1 then ManyEmployeesTail else OneEmployeeTail;
    assert OneEmployeeTail[0] == ' ' && ManyEmployeesTail[0] == ' ';
    LeadingDigitsOfNumeral(n, tail);
    assert (n + tail)[|n|..] == tail;
    n + tail
  }

  /** The sentence determines the count. */
  lemma PendingInsightInjective(a: nat, b: nat)
    requires PendingInsight(a) == PendingInsight(b)
    ensures a == b
  {
    var tailA := if a != 1 then ManyEmployeesTail else OneEmployeeTail;
    var tailB := if b != 1 then ManyEmployeesTail else OneEmployeeTail;
    assert PendingInsight(a) == NatToString(a) + tailA;
    assert PendingInsight(b) == NatToString(b) + tailB;
    assert OneEmployeeTail[0] == ' ' && ManyEmployeesTail[0] == ' ';
    NumeralPrefixInjective(a, b, tailA, tailB);
  }
}
