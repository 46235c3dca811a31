/** The employee directory: the search / department / status filter, the
    grouping of the filtered employees into department sections, the sorted
    department lists, the Clear Filters button and the days-left label and
    colour on each card. */
module Employees {
  import opened Seqs
  import opened Text
  import opened DataTable
  import Dashboard

  /** The three filter inputs: free-text search, department and status
      ("all" leaves a criterion unconstrained). */
  datatype Filters = Filters(searchQuery: string, departmentFilter: string, statusFilter: string)

  /** The initial state of the filters, and what Clear Filters restores. */
  const NoFilters := Filters("", "all", "all")

  /** The name search is case-insensitive; an empty query matches everyone. */
  predicate MatchesSearch(c: VisaCase, query: string)
  {
    query == "" || Contains(ToLower(c.employee.name), ToLower(query))
  }

  /** All three criteria hold; department and status compare exactly. */
  predicate Matches(c: VisaCase, f: Filters)
  {
    MatchesSearch(c, f.searchQuery)
    && (f.departmentFilter == "all" || c.employee.department == f.departmentFilter)
    && (f.statusFilter == "all" || c.status == f.statusFilter)
  }

  function Passes(f: Filters): VisaCase -> bool
  {
    (c: VisaCase) => Matches(c, f)
  }

  /** `filteredEmployees`: the matching employees, in directory order. */
  function FilterEmployees(cases: seq<VisaCase>, f: Filters): (r: seq<VisaCase>)
    ensures IsSubsequence(r, cases)
    ensures forall i :: 0 <= i < |r| ==> Matches(r[i], f)
  {
    FilterIsSubsequence(cases, Passes(f));
    FilterAllPass(cases, Passes(f));
    Filter(cases, Passes(f))
  }

  /** An employee is shown exactly when it is in the directory and matches. */
  lemma FilterEmployeesMembers(cases: seq<VisaCase>, f: Filters, c: VisaCase)
    ensures c in FilterEmployees(cases, f) <==> c in cases && Matches(c, f)
  {
    FilterMembers(cases, Passes(f), c);
  }

  /** With no search text and both selects on "all", the whole directory is shown in order. */
  lemma {:induction false} NoFiltersShowAll(cases: seq<VisaCase>)
    ensures FilterEmployees(cases, NoFilters) == cases
  {
    FilterKeepsAll(cases, Passes(NoFilters));
  }

  /** Filtering the shown employees again shows the same employees. */
  lemma FilterEmployeesIdempotent(cases: seq<VisaCase>, f: Filters)
    ensures FilterEmployees(FilterEmployees(cases, f), f) == FilterEmployees(cases, f)
  {
    FilterIdempotent(cases, Passes(f));
  }

  /** The search ignores the case of the query... */
  lemma SearchIgnoresCase(c: VisaCase, query: string)
    ensures MatchesSearch(c, query) == MatchesSearch(c, ToLower(query))
  {
    ToLowerIdempotent(query);
  }

  /** ...but the department select does not: "finance" does not select the "Finance" department. */
  lemma DepartmentIsCaseSensitive(c: VisaCase)
    requires c.employee.department == "Finance"
    ensures !Matches(c, Filters("", "finance", "all"))
    ensures Matches(c, Filters("", "Finance", "all"))
  {
  }

  // ---- department sections ----

  function DepartmentOf(c: VisaCase): string
  {
    c.employee.department
  }

  function Departments(s: seq<VisaCase>): (r: seq<string>)
    ensures |r| == |s|
    ensures forall i :: 0 <= i < |s| ==> r[i] == s[i].employee.department
  {
    Map(s, DepartmentOf)
  }

  function InDepartment(d: string): VisaCase -> bool
  {
    KeyIs(DepartmentOf, d)
  }

  /** The `reduce` that builds the department sections: `keys` is the order in
      which departments were first seen (the object's key order) and each
      bucket holds that department's employees in filtered order. */
  method GroupByDepartment(filtered: seq<VisaCase>) returns (keys: seq<string>, groups: map<string, seq<VisaCase>>)
    ensures keys == Distinct(Map(filtered, DepartmentOf))
    ensures forall d :: d in groups <==> d in keys
    ensures forall d :: d in groups ==> groups[d] == Filter(filtered, InDepartment(d))
    ensures SectionSizes(keys, groups) == |filtered|
  {
    keys := [];
    groups := map[];
    var i := 0;
    while i < |filtered|
      invariant 0 <= i <= |filtered|
      invariant keys == Distinct(Map(filtered[..i], DepartmentOf))
      invariant forall d :: d in groups <==> d in keys
      invariant forall d :: d in groups ==> groups[d] == Filter(filtered[..i], InDepartment(d))
    {
      keys, groups := AddToSection(filtered, i, keys, groups);
      i := i + 1;
    }
    assert i == |filtered| && filtered[..i] == filtered;
    SectionSizesAreCounts(keys, groups, filtered);
    GroupsCoverAll(filtered, DepartmentOf);
  }

  /** The `reduce` callback for the employee at `i`: opens a bucket for a new
      department, then pushes the employee into its department's bucket. */
  method AddToSection(filtered: seq<VisaCase>, i: nat, keys: seq<string>, groups: map<string, seq<VisaCase>>)
    returns (keys': seq<string>, groups': map<string, seq<VisaCase>>)
    requires i < |filtered|
    requires keys == Distinct(Map(filtered[..i], DepartmentOf))
    requires forall d :: d in groups <==> d in keys
    requires forall d :: d in groups ==> groups[d] == Filter(filtered[..i], InDepartment(d))
    ensures keys' == Distinct(Map(filtered[..i + 1], DepartmentOf))
    ensures forall d :: d in groups' <==> d in keys'
    ensures forall d :: d in groups' ==> groups'[d] == Filter(filtered[..i + 1], InDepartment(d))
  {
    var employee := filtered[i];
    var dept := DepartmentOf(employee);
    keys', groups' := keys, groups;
    DistinctKeysSnoc(filtered, i, DepartmentOf);
    if dept !in groups' {
      NoneWithKey(filtered[..i], DepartmentOf, dept);
      groups' := groups'[dept := []];
      keys' := keys' + [dept];
    }
    PushStep(filtered, i, groups');
    groups' := groups'[dept := groups'[dept] + [employee]];
  }

  /** `acc[dept].push(employee)` keeps every bucket equal to its department's
      employees among those scanned so far. */
  lemma PushStep(s: seq<VisaCase>, i: nat, groups: map<string, seq<VisaCase>>)
    requires i < |s| && DepartmentOf(s[i]) in groups
    requires forall d :: d in groups ==> groups[d] == Filter(s[..i], InDepartment(d))
    ensures var dept := DepartmentOf(s[i]);
      var g := groups[dept := groups[dept] + [s[i]]];
      forall d :: d in g ==> g[d] == Filter(s[..i + 1], InDepartment(d))
  {
    forall d | d in groups
      ensures Filter(s[..i + 1], InDepartment(d))
           == groups[d] + (if DepartmentOf(s[i]) == d then [s[i]] else [])
    {
      FilterSnoc(s, i, InDepartment(d));
    }
  }

  /** Sum of the bucket sizes over the listed keys. */
  function SectionSizes(keys: seq<string>, groups: map<string, seq<VisaCase>>): nat
    requires forall k :: k in keys ==> k in groups
  {
    if keys == [] then 0 else |groups[keys[0]]| + SectionSizes(keys[1..], groups)
  }

  lemma {:induction false} SectionSizesAreCounts(keys: seq<string>, groups: map<string, seq<VisaCase>>, s: seq<VisaCase>)
    requires forall k :: k in keys ==> k in groups
    requires forall d :: d in groups ==> groups[d] == Filter(s, InDepartment(d))
    ensures SectionSizes(keys, groups) == GroupTotal(keys, s, DepartmentOf)
    decreases |keys|
  {
    if keys != [] {
      SectionSizesAreCounts(keys[1..], groups, s);
    }
  }

  // ---- sorted department lists ----

  predicate StringsSorted(s: seq<string>)
  {
    forall i, j :: 0 <= i < j < |s| ==> StringLe(s[i], s[j])
  }

  function InsertString(x: string, t: seq<string>): (r: seq<string>)
    requires StringsSorted(t)
    ensures StringsSorted(r)
    ensures |r| == |t| + 1
    ensures r[0] == x || (t != [] && r[0] == t[0])
    decreases |t|
  {
    if t == [] then [x]
    else if StringLe(x, t[0]) then
      assert forall j :: 0 <= j < |t| ==> StringLe(x, t[j]) by {
        forall j | 0 <= j < |t|
          ensures StringLe(x, t[j])
        {
          if j > 0 {
            StringLeTrans(x, t[0], t[j]);
          }
        }
      }
      [x] + t
    else
      var rest := InsertString(x, t[1..]);
      StringLeTotal(x, t[0]);
      assert forall k :: 0 <= k < |rest| ==> StringLe(t[0], rest[k]) by {
        forall k | 0 <= k < |rest|
          ensures StringLe(t[0], rest[k])
        {
          if k > 0 {
            StringLeTrans(t[0], rest[0], rest[k]);
          }
        }
      }
      [t[0]] + rest
  }

  /** `.sort()` with no comparator on an array of strings. */
  function SortStrings(s: seq<string>): (r: seq<string>)
    ensures StringsSorted(r)
    ensures |r| == |s|
    decreases |s|
  {
    if s == [] then [] else InsertString(s[0], SortStrings(s[1..]))
  }

  lemma {:induction false} InsertStringPermutation(x: string, t: seq<string>)
    requires StringsSorted(t)
    ensures multiset(InsertString(x, t)) == multiset(t) + multiset{x}
    decreases |t|
  {
    if t != [] && !StringLe(x, t[0]) {
      InsertStringPermutation(x, t[1..]);
      assert t == [t[0]] + t[1..];
    }
  }

  lemma {:induction false} SortStringsPermutation(s: seq<string>)
    ensures multiset(SortStrings(s)) == multiset(s)
    decreases |s|
  {
    if s != [] {
      SortStringsPermutation(s[1..]);
      InsertStringPermutation(s[0], SortStrings(s[1..]));
      assert s == [s[0]] + s[1..];
    }
  }

  /** `sortedDepartments`: the section headings, in alphabetical order. */
  function SortedDepartments(filtered: seq<VisaCase>): (r: seq<string>)
    ensures StringsSorted(r)
    ensures NoDuplicates(r)
    ensures forall i :: 0 <= i < |filtered| ==> filtered[i].employee.department in r
    ensures forall i :: 0 <= i < |r| ==> r[i] in Departments(filtered)
  {
    var keys := Distinct(Departments(filtered));
    var r := SortStrings(keys);
    DistinctMembers(Departments(filtered));
    SortStringsPermutation(keys);
    NoDuplicatesPermutation(keys, r);
    forall i | 0 <= i < |filtered|
      ensures filtered[i].employee.department in r
    {
      assert Departments(filtered)[i] in keys;
      assert Departments(filtered)[i] in multiset(keys);
    }
    forall i | 0 <= i < |r|
      ensures r[i] in Departments(filtered)
    {
      assert r[i] in multiset(r);
    }
    r
  }

  /** `allDepartments`: the distinct departments of the whole directory, sorted. */
  function AllDepartments(cases: seq<VisaCase>): (r: seq<string>)
    ensures StringsSorted(r) && NoDuplicates(r)
    ensures forall d :: d in r <==> exists i :: 0 <= i < |cases| && cases[i].employee.department == d
  {
    var r := SortedDepartments(cases);
    forall d | d in r
      ensures exists i :: 0 <= i < |cases| && cases[i].employee.department == d
    {
      var i :| 0 <= i < |Departments(cases)| && Departments(cases)[i] == d;
      assert cases[i].employee.department == d;
    }
    r
  }

  /** Every section heading is one of the department select's options. */
  lemma SectionsAreOptions(cases: seq<VisaCase>, f: Filters, d: string)
    requires d in SortedDepartments(FilterEmployees(cases, f))
    ensures d in AllDepartments(cases)
  {
    var filtered := FilterEmployees(cases, f);
    var i :| 0 <= i < |Departments(filtered)| && Departments(filtered)[i] == d;
    FilterEmployeesMembers(cases, f, filtered[i]);
    var j :| 0 <= j < |cases| && cases[j] == filtered[i];
    assert cases[j].employee.department == d;
  }

  // ---- the page's state ----

  class EmployeesView {
    var searchQuery: string
    var departmentFilter: string
    var statusFilter: string

    constructor ()
      ensures searchQuery == "" && departmentFilter == "all" && statusFilter == "all"
    {
      searchQuery := "";
      departmentFilter := "all";
      statusFilter := "all";
    }

    function CurrentFilters(): Filters
      reads this
    {
      Filters(searchQuery, departmentFilter, statusFilter)
    }

    /** The employees shown for the directory `cases`; "Showing X of Y" has X <= Y. */
    function Shown(cases: seq<VisaCase>): (r: seq<VisaCase>)
      reads this
      ensures |r| <= |cases|
    {
      FilterEmployees(cases, CurrentFilters())
    }

    method SetSearchQuery(query: string)
      modifies this
      ensures searchQuery == query
      ensures departmentFilter == old(departmentFilter) && statusFilter == old(statusFilter)
    {
      searchQuery := query;
    }

    method SetDepartmentFilter(department: string)
      modifies this
      ensures departmentFilter == department
      ensures searchQuery == old(searchQuery) && statusFilter == old(statusFilter)
    {
      departmentFilter := department;
    }

    method SetStatusFilter(status: string)
      modifies this
      ensures statusFilter == status
      ensures searchQuery == old(searchQuery) && departmentFilter == old(departmentFilter)
    {
      statusFilter := status;
    }

    /** The Clear Filters button: back to the initial filters, so every employee is shown again. */
    method ClearFilters()
      modifies this
      ensures searchQuery == "" && departmentFilter == "all" && statusFilter == "all"
      ensures forall cases :: Shown(cases) == cases
    {
      searchQuery := "";
      departmentFilter := "all";
      statusFilter := "all";
      forall cases: seq<VisaCase>
        ensures Shown(cases) == cases
      {
        NoFiltersShowAll(cases);
      }
    }
  }

  // ---- the card ----

  /** "Days left:" on a card: "Overdue by <|d|>" when negative, the bare number otherwise.
      The number can be read back from the label. */
  function DaysLeftLabel(d: int): (caption: string)
    ensures |caption| >= 1 && (d < 0 <==> !IsDigit(caption[0]))
    ensures d >= 0 ==> AllDigits(caption) && DigitsValue(caption) == d
    ensures d < 0 ==> |caption| > 11 && caption[..11] == "Overdue by "
                      && AllDigits(caption[11..]) && DigitsValue(caption[11..]) == -d
  {
    if d < 0 then
      var n := NatToString(-d);
      NatToStringRoundTrip(-d);
      assert ("Overdue by " + n)[11..] == n;
      "Overdue by " + n
    else
      NatToStringRoundTrip(d);
      NatToString(d)
  }

  /** Different day counts give different labels. */
  lemma DaysLeftLabelInjective(a: int, b: int)
    requires DaysLeftLabel(a) == DaysLeftLabel(b)
    ensures a == b
  {
    var c := DaysLeftLabel(a);
    if a < 0 && b < 0 {
      assert -a == DigitsValue(c[11..]) == -b;
    }
  }

  datatype LabelColor = RedLabel | AmberLabel | GreenLabel

  /** Colour of the days-left label: red when overdue, amber up to 180 days, green beyond. */
  function DaysLeftColor(d: int): (c: LabelColor)
    ensures c == RedLabel <==> d < 0
    ensures c == AmberLabel <==> 0 <= d <= 180
    ensures c == GreenLabel <==> d > 180
  {
    if d < 0 then RedLabel
    else if d <= 30 then AmberLabel
    else if d <= 180 then AmberLabel
    else GreenLabel
  }

  /** The label colour follows the dashboard's tiers: tiers 2 and 3 share amber. */
  lemma DaysLeftColorFollowsTier(d: int)
    ensures DaysLeftColor(d) == RedLabel <==> Dashboard.GetPriority(d) == 1
    ensures DaysLeftColor(d) == AmberLabel <==> Dashboard.GetPriority(d) in {2, 3}
    ensures DaysLeftColor(d) == GreenLabel <==> Dashboard.GetPriority(d) == 4
  {
  }

  /** The status badge on a card. Unlike the case table, unknown statuses
      (including "Pending") get the default variant. */
  function CardStatusVariant(status: string): (v: Variant)
    ensures v == Secondary <==> status == "Processing"
    ensures v == Destructive <==> status == "Expired"
    ensures v == Default <==> status != "Processing" && status != "Expired"
  {
    match status
    case "Active" => Default
    case "Expired" => Destructive
    case "Processing" => Secondary
    case _ => Default
  }

  /** The card and the case table agree on a status exactly when it is one of
      the three the directory uses. */
  lemma CardAndTableVariants(status: string)
    ensures CardStatusVariant(status) == StatusVariant(status)
        <==> status == "Active" || status == "Expired" || status == "Processing"
  {
  }
}
