/** The dashboard: the four priority tiers, the (tier, daysLeft) comparator
    sort of the bundled cases and the KPI counts shown in the stat cards. */
module Dashboard {
  import opened Wrappers
  import opened Seqs
  import opened DataTable

  /** Priority tier of a day count; lower is more urgent. */
  function GetPriority(daysLeft: int): (tier: int)
    ensures 1 <= tier <= 4
    ensures tier == 1 <==> daysLeft < 0
    ensures tier == 2 <==> 0 <= daysLeft <= 30
    ensures tier == 3 <==> 31 <= daysLeft <= 180
    ensures tier == 4 <==> daysLeft > 180
  {
    if daysLeft < 0 then 1
    else if daysLeft <= 30 then 2
    else if daysLeft <= 180 then 3
    else 4
  }

  /** A later expiry never gets a more urgent tier. */
  lemma PriorityMonotone(a: int, b: int)
    requires a <= b
    ensures GetPriority(a) <= GetPriority(b)
  {
  }

  /** The sort comparator: tier first, then days left. Because the tier is
      monotone in the day count, it orders cases exactly by days left. */
  function Compare(a: VisaCase, b: VisaCase): (c: int)
    ensures c <= 0 <==> a.daysLeft <= b.daysLeft
    ensures c == 0 <==> a.daysLeft == b.daysLeft
  {
    var priorityA := GetPriority(a.daysLeft);
    var priorityB := GetPriority(b.daysLeft);
    if priorityA != priorityB then priorityA - priorityB
    else a.daysLeft - b.daysLeft
  }

  /** Every earlier case compares at most equal to every later one (by
      `Compare`'s contract, days left never decrease along the sequence). */
  predicate IsSorted(s: seq<VisaCase>)
  {
    forall i, j :: 0 <= i < j < |s| ==> s[i].daysLeft <= s[j].daysLeft
  }

  /** Insert `x` in front of the first case that does not compare below it. */
  function Insert(x: VisaCase, t: seq<VisaCase>): (r: seq<VisaCase>)
    requires IsSorted(t)
    ensures IsSorted(r)
    ensures |r| == |t| + 1
    ensures r[0] == x || (t != [] && r[0] == t[0])
    decreases |t|
  {
    if t == [] then [x]
    else if Compare(x, t[0]) <= 0 then [x] + t
    else
      var rest := Insert(x, t[1..]);
      assert forall k :: 0 <= k < |rest| ==> t[0].daysLeft <= rest[k].daysLeft by {
        assert t[0].daysLeft <= rest[0].daysLeft;
      }
      [t[0]] + rest
  }

  /** `[...cases].sort(Compare)`: a stable sort of a copy (the argument, a
      value, is never reordered). Modelled as insertion sort; see
      `StableSortIsUnique` for why any stable sort gives the same result. */
  function SortByPriority(s: seq<VisaCase>): (r: seq<VisaCase>)
    ensures IsSorted(r)
    ensures |r| == |s|
    decreases |s|
  {
    if s == [] then [] else Insert(s[0], SortByPriority(s[1..]))
  }

  lemma {:induction false} InsertPermutation(x: VisaCase, t: seq<VisaCase>)
    requires IsSorted(t)
    ensures multiset(Insert(x, t)) == multiset(t) + multiset{x}
    decreases |t|
  {
    if t != [] && Compare(x, t[0]) > 0 {
      InsertPermutation(x, t[1..]);
      assert t == [t[0]] + t[1..];
    }
  }

  /** The sorted list holds exactly the input cases, with their multiplicities. */
  lemma {:induction false} SortIsPermutation(s: seq<VisaCase>)
    ensures multiset(SortByPriority(s)) == multiset(s)
    decreases |s|
  {
    if s != [] {
      SortIsPermutation(s[1..]);
      InsertPermutation(s[0], SortByPriority(s[1..]));
      assert s == [s[0]] + s[1..];
    }
  }

  function DaysLeftIs(d: int): VisaCase -> bool
  {
    (c: VisaCase) => c.daysLeft == d
  }

  /** Stability of one insertion: among cases with equal days left, the
      inserted case comes first. */
  lemma {:induction false} InsertStable(x: VisaCase, t: seq<VisaCase>, d: int)
    requires IsSorted(t)
    ensures Filter(Insert(x, t), DaysLeftIs(d))
         == (if x.daysLeft == d then [x] else []) + Filter(t, DaysLeftIs(d))
    decreases |t|
  {
    if t != [] && Compare(x, t[0]) > 0 {
      var p := DaysLeftIs(d);
      var rest := Insert(x, t[1..]);
      InsertStable(x, t[1..], d);
      assert Insert(x, t) == [t[0]] + rest;
      FilterCons(t[0], rest, p);
      assert Filter(t, p) == (if p(t[0]) then [t[0]] else []) + Filter(t[1..], p);
      if x.daysLeft == d {
        assert !p(t[0]);
        assert Filter(Insert(x, t), p) == Filter(rest, p);
      } else if p(t[0]) {
        assert Filter(Insert(x, t), p) == [t[0]] + Filter(rest, p);
      } else {
        assert Filter(Insert(x, t), p) == Filter(rest, p);
      }
    } else {
      FilterCons(x, t, DaysLeftIs(d));
    }
  }

  /** The sort is stable: the cases with any given day count keep their input order. */
  lemma {:induction false} SortIsStable(s: seq<VisaCase>, d: int)
    ensures Filter(SortByPriority(s), DaysLeftIs(d)) == Filter(s, DaysLeftIs(d))
    decreases |s|
  {
    if s != [] {
      SortIsStable(s[1..], d);
      InsertStable(s[0], SortByPriority(s[1..]), d);
    }
  }

  ghost predicate StableFor(r: seq<VisaCase>, s: seq<VisaCase>)
  {
    forall d :: Filter(r, DaysLeftIs(d)) == Filter(s, DaysLeftIs(d))
  }

  /** Two sorted sequences that agree on the order of every day-count class are
      equal. So the sorted, stable arrangement of a list is unique, and any
      stable sort with this comparator returns `SortByPriority`. */
  lemma {:induction false} StableSortIsUnique(a: seq<VisaCase>, b: seq<VisaCase>)
    requires IsSorted(a) && IsSorted(b) && StableFor(a, b)
    ensures a == b
    decreases |a| + |b|
  {
    if a == [] || b == [] {
      if b != [] { StableNonEmpty(b, a); }
      if a != [] { StableNonEmpty(a, b); }
    } else {
      SameHead(a, b);
      TailsStable(a, b);
      StableSortIsUnique(a[1..], b[1..]);
      assert a == [a[0]] + a[1..] && b == [b[0]] + b[1..];
    }
  }

  lemma StableNonEmpty(a: seq<VisaCase>, b: seq<VisaCase>)
    requires a != [] && StableFor(a, b)
    ensures b != []
  {
    HeadIsInClass(a);
    assert Filter(a, DaysLeftIs(a[0].daysLeft)) == Filter(b, DaysLeftIs(a[0].daysLeft));
  }

  lemma SameHead(a: seq<VisaCase>, b: seq<VisaCase>)
    requires a != [] && b != []
    requires IsSorted(a) && IsSorted(b) && StableFor(a, b)
    ensures a[0] == b[0]
  {
    var m, n := a[0].daysLeft, b[0].daysLeft;
    HeadIsInClass(a);
    HeadIsInClass(b);
    assert Filter(a, DaysLeftIs(m)) == Filter(b, DaysLeftIs(m));
    assert Filter(a, DaysLeftIs(n)) == Filter(b, DaysLeftIs(n));
    FilterMembers(b, DaysLeftIs(m), a[0]);
    FilterMembers(a, DaysLeftIs(n), b[0]);
    var k :| 0 <= k < |b| && b[k] == a[0];
    var l :| 0 <= l < |a| && a[l] == b[0];
    assert n <= b[k].daysLeft && m <= a[l].daysLeft;
    assert m == n;
    var p := DaysLeftIs(m);
    assert p(a[0]) && p(b[0]);
    assert Filter(a, p) == [a[0]] + Filter(a[1..], p);
    assert Filter(b, p) == [b[0]] + Filter(b[1..], p);
    assert Filter(a, p)[0] == a[0] && Filter(b, p)[0] == b[0];
  }

  lemma TailsStable(a: seq<VisaCase>, b: seq<VisaCase>)
    requires a != [] && b != [] && a[0] == b[0] && StableFor(a, b)
    ensures StableFor(a[1..], b[1..])
  {
    forall d
      ensures Filter(a[1..], DaysLeftIs(d)) == Filter(b[1..], DaysLeftIs(d))
    {
      var p := DaysLeftIs(d);
      assert Filter(a, p) == Filter(b, p);
      var head: seq<VisaCase> := if p(a[0]) then [a[0]] else [];
      assert Filter(a, p) == head + Filter(a[1..], p);
      assert Filter(b, p) == head + Filter(b[1..], p);
      assert Filter(a[1..], p) == Filter(a, p)[|head|..];
      assert Filter(b[1..], p) == Filter(b, p)[|head|..];
    }
  }

  /** Every element of a sorted sequence has at least the first one's day count. */
  lemma HeadIsInClass(s: seq<VisaCase>)
    requires s != []
    ensures s[0] in Filter(s, DaysLeftIs(s[0].daysLeft))
  {
  }

  /** Sorting twice is sorting once. */
  lemma SortIdempotent(s: seq<VisaCase>)
    ensures SortByPriority(SortByPriority(s)) == SortByPriority(s)
  {
    var r := SortByPriority(s);
    forall d
      ensures Filter(SortByPriority(r), DaysLeftIs(d)) == Filter(r, DaysLeftIs(d))
    {
      SortIsStable(r, d);
    }
    StableSortIsUnique(SortByPriority(r), r);
  }

  /** The sorted list is ascending in days left: overdue first, most overdue first. */
  lemma SortedAscending(s: seq<VisaCase>, i: int, j: int)
    requires 0 <= i < j < |SortByPriority(s)|
    ensures SortByPriority(s)[i].daysLeft <= SortByPriority(s)[j].daysLeft
    ensures GetPriority(SortByPriority(s)[i].daysLeft) <= GetPriority(SortByPriority(s)[j].daysLeft)
  {
  }

  /** A case as the bundled tables write it: name and department only. */
  function Case(id: string, name: string, department: string, visaType: string,
                status: string, expirationDate: string, daysLeft: int): VisaCase
  {
    VisaCase(id, Person(name, department, None, None), visaType, status, expirationDate, None, daysLeft)
  }

  /** The fourteen cases bundled with the dashboard, in their listed order. */
  const MockVisaCases: seq<VisaCase> := [
    Case("1", "Fatima Al-Rashid", "Finance", "F-1", "Expired", "2024-09-20", -42),
    Case("2", "Chen Wei", "Engineering", "OPT", "Expired", "2024-10-15", -17),
    Case("3", "Maria Gonzalez", "Marketing", "H-1B", "Active", "2024-11-15", 12),
    Case("4", "Raj Patel", "Sales", "OPT STEM", "Active", "2024-11-25", 22),
    Case("5", "Olumide Adebayo", "HR", "F-1", "Processing", "2024-11-30", 27),
    Case("6", "Sofia Petrov", "Engineering", "H-1B", "Active", "2024-12-20", 47),
    Case("7", "Kenji Nakamura", "Finance", "OPT", "Active", "2025-01-15", 73),
    Case("8", "Aisha Okonkwo", "Marketing", "F-1", "Active", "2025-03-10", 127),
    Case("9", "Viktor Kozlov", "Sales", "OPT STEM", "Active", "2025-04-05", 153),
    Case("10", "Isabella Rodriguez", "Engineering", "H-1B", "Active", "2025-08-15", 285),
    Case("11", "Samuel Okafor", "HR", "Permanent Resident", "Active", "2026-11-30", 753),
    Case("12", "Anastasia Volkov", "Finance", "Permanent Resident", "Active", "2027-03-20", 863),
    Case("13", "Diego Morales", "Marketing", "H-1B", "Active", "2025-07-08", 247),
    Case("14", "Priya Sharma", "Sales", "F-1", "Active", "2025-06-12", 221)
  ]

  function DaysLeftOf(s: seq<VisaCase>): (r: seq<int>)
    ensures |r| == |s| && forall i :: 0 <= i < |s| ==> r[i] == s[i].daysLeft
  {
    seq(|s|, i requires 0 <= i < |s| => s[i].daysLeft)
  }

  lemma SortStep(s: seq<VisaCase>, k: nat)
    requires k < |s|
    ensures SortByPriority(s[k..]) == Insert(s[k], SortByPriority(s[k + 1..]))
  {
    assert s[k..][1..] == s[k + 1..];
  }

  /** Sorting never produces a case below a bound every input case meets. */
  lemma {:induction false} SortKeepsLowerBound(t: seq<VisaCase>, v: int)
    requires forall j :: 0 <= j < |t| ==> v <= t[j].daysLeft
    ensures forall k :: 0 <= k < |SortByPriority(t)| ==> v <= SortByPriority(t)[k].daysLeft
    decreases |t|
  {
    if t != [] {
      SortKeepsLowerBound(t[1..], v);
      var r' := SortByPriority(t[1..]);
      assert SortByPriority(t) == Insert(t[0], r');
      assert v <= SortByPriority(t)[0].daysLeft;
    }
  }

  /** Every case of `p` has at most the day count of every case of `t`. */
  predicate Below(p: seq<VisaCase>, t: seq<VisaCase>)
  {
    forall i, j :: 0 <= i < |p| && 0 <= j < |t| ==> p[i].daysLeft <= t[j].daysLeft
  }

  lemma BelowTail(p: seq<VisaCase>, t: seq<VisaCase>)
    requires p != [] && Below(p, t)
    ensures Below(p[1..], t)
  {
    assert forall i :: 0 <= i < |p[1..]| ==> p[1..][i] == p[i + 1];
  }

  /** The head of `p` may go in front of the sorted rest. */
  lemma HeadBelow(p: seq<VisaCase>, t: seq<VisaCase>, tail: seq<VisaCase>)
    requires p != [] && IsSorted(p) && Below(p, t)
    requires tail == p[1..] + SortByPriority(t)
    ensures tail == [] || p[0].daysLeft <= tail[0].daysLeft
  {
    if |p| > 1 {
      assert tail[0] == p[1];
    } else {
      SortKeepsLowerBound(t, p[0].daysLeft);
      assert tail == SortByPriority(t);
    }
  }

  lemma ConsSplit(p: seq<VisaCase>, r: seq<VisaCase>)
    requires p != []
    ensures [p[0]] + (p[1..] + r) == p + r
  {
    assert p == [p[0]] + p[1..];
    assert [p[0]] + (p[1..] + r) == ([p[0]] + p[1..]) + r;
  }

  /** Sorting a sorted prefix whose day counts are all at most those of the
      rest leaves the prefix in front. */
  lemma {:induction false} SortKeepsSmallPrefix(p: seq<VisaCase>, t: seq<VisaCase>)
    requires IsSorted(p) && Below(p, t)
    ensures SortByPriority(p + t) == p + SortByPriority(t)
    decreases |p|
  {
    if p == [] {
      assert p + t == t;
    } else {
      var u := p[1..] + t;
      assert (p + t)[0] == p[0] && (p + t)[1..] == u;
      BelowTail(p, t);
      SortKeepsSmallPrefix(p[1..], t);
      var tail := SortByPriority(u);
      HeadBelow(p, t, tail);
      InsertBefore(p[0], tail);
      ConsSplit(p, SortByPriority(t));
    }
  }

  lemma InsertAfter(x: VisaCase, t: seq<VisaCase>)
    requires IsSorted(t) && t != [] && t[0].daysLeft < x.daysLeft
    ensures Insert(x, t) == [t[0]] + Insert(x, t[1..])
  {
  }

  lemma InsertBefore(x: VisaCase, t: seq<VisaCase>)
    requires IsSorted(t) && (t == [] || x.daysLeft <= t[0].daysLeft)
    ensures Insert(x, t) == [x] + t
  {
  }

  lemma SortTwo(d: VisaCase, e: VisaCase)
    requires e.daysLeft < d.daysLeft
    ensures SortByPriority([d, e]) == [e, d]
  {
    var s := [d, e];
    assert s[1..] == [e] && [e][1..] == [];
    SortStep(s, 1);
    SortStep(s, 0);
    InsertBefore(e, []);
    InsertAfter(d, [e]);
    InsertBefore(d, []);
    assert s[0..] == s;
  }

  lemma SortThree(c: VisaCase, d: VisaCase, e: VisaCase)
    requires e.daysLeft < d.daysLeft < c.daysLeft
    ensures SortByPriority([c, d, e]) == [e, d, c]
  {
    SortTwo(d, e);
    assert [c, d, e][1..] == [d, e];
    InsertAfter(c, [e, d]);
    assert [e, d][1..] == [d];
    InsertAfter(c, [d]);
    InsertBefore(c, []);
  }

  lemma SortFour(b: VisaCase, c: VisaCase, d: VisaCase, e: VisaCase)
    requires e.daysLeft < d.daysLeft < b.daysLeft < c.daysLeft
    ensures SortByPriority([b, c, d, e]) == [e, d, b, c]
  {
    SortThree(c, d, e);
    assert [b, c, d, e][1..] == [c, d, e];
    InsertAfter(b, [e, d, c]);
    assert [e, d, c][1..] == [d, c];
    InsertAfter(b, [d, c]);
    assert [d, c][1..] == [c];
    InsertBefore(b, [c]);
  }

  /** The shape of the bundled list's tail: three ascending cases followed by
      two that belong before them, in descending order. */
  lemma SortFive(a: VisaCase, b: VisaCase, c: VisaCase, d: VisaCase, e: VisaCase)
    requires e.daysLeft < d.daysLeft < a.daysLeft < b.daysLeft < c.daysLeft
    ensures SortByPriority([a, b, c, d, e]) == [e, d, a, b, c]
  {
    SortFour(b, c, d, e);
    assert [a, b, c, d, e][1..] == [b, c, d, e];
    InsertAfter(a, [e, d, b, c]);
    assert [e, d, b, c][1..] == [d, b, c];
    InsertAfter(a, [d, b, c]);
    assert [d, b, c][1..] == [b, c];
    InsertBefore(a, [b, c]);
  }

  lemma MockTailOrder()
    ensures SortByPriority(MockVisaCases[9..])
         == [MockVisaCases[13], MockVisaCases[12], MockVisaCases[9], MockVisaCases[10], MockVisaCases[11]]
  {
    var m := MockVisaCases;
    assert m[9..] == [m[9], m[10], m[11], m[12], m[13]];
    SortFive(m[9], m[10], m[11], m[12], m[13]);
  }

  /** Neighbour-by-neighbour order is enough for `IsSorted`. */
  lemma {:induction false} AdjacentSorted(s: seq<VisaCase>)
    requires forall i :: 0 <= i < |s| - 1 ==> s[i].daysLeft <= s[i + 1].daysLeft
    ensures IsSorted(s)
    decreases |s|
  {
    if |s| > 1 {
      AdjacentSorted(s[1..]);
      assert forall j :: 1 <= j < |s| ==> s[0].daysLeft <= s[j].daysLeft by {
        forall j | 1 <= j < |s|
          ensures s[0].daysLeft <= s[j].daysLeft
        {
          assert s[1..][0].daysLeft <= s[1..][j - 1].daysLeft;
        }
      }
    }
  }

  lemma MockDays()
    ensures DaysLeftOf(MockVisaCases)
         == [-42, -17, 12, 22, 27, 47, 73, 127, 153, 285, 753, 863, 247, 221]
  {
  }

  lemma MockSplit()
    ensures IsSorted(MockVisaCases[..9])
    ensures Below(MockVisaCases[..9], MockVisaCases[9..])
  {
    MockDays();
    var d := DaysLeftOf(MockVisaCases);
    assert forall i :: 0 <= i < 14 ==> MockVisaCases[i].daysLeft == d[i];
    AdjacentSorted(MockVisaCases[..9]);
  }

  lemma MockSortedDays()
    ensures var m := MockVisaCases;
      DaysLeftOf(m[..9] + [m[13], m[12], m[9], m[10], m[11]])
      == [-42, -17, 12, 22, 27, 47, 73, 127, 153, 221, 247, 285, 753, 863]
  {
    MockDays();
    var d := DaysLeftOf(MockVisaCases);
    assert forall i :: 0 <= i < 14 ==> MockVisaCases[i].daysLeft == d[i];
  }

  /** On the bundled cases the dashboard lists the day counts
      -42, -17, 12, 22, 27, 47, 73, 127, 153, 221, 247, 285, 753, 863. */
  lemma MockSortOrder()
    ensures DaysLeftOf(SortByPriority(MockVisaCases))
         == [-42, -17, 12, 22, 27, 47, 73, 127, 153, 221, 247, 285, 753, 863]
  {
    var m := MockVisaCases;
    MockTailOrder();
    MockSplit();
    var t := [m[13], m[12], m[9], m[10], m[11]];
    assert m == m[..9] + m[9..];
    SortKeepsSmallPrefix(m[..9], m[9..]);
    assert SortByPriority(m) == m[..9] + t;
    MockSortedDays();
  }

  // ---- KPI stat cards ----

  function HasStatus(status: string): VisaCase -> bool
  {
    (c: VisaCase) => c.status == status
  }

  /** `visa.daysLeft > 0 && visa.daysLeft <= 60`: a case expiring today is not counted. */
  function ExpiringWithin60(): VisaCase -> bool
  {
    (c: VisaCase) => 0 < c.daysLeft <= 60
  }

  function Overdue(): VisaCase -> bool
  {
    (c: VisaCase) => c.daysLeft < 0
  }

  function InTier(tier: int): VisaCase -> bool
  {
    (c: VisaCase) => GetPriority(c.daysLeft) == tier
  }

  datatype Kpis = Kpis(activeVisas: nat, expiringWithin60Days: nat, expired: nat,
                       pending: nat, completed: nat)

  /** The five stat cards. Expiring and expired never count the same case, nor do
      active and pending; the completed card is a fixed 312. */
  function ComputeKpis(cases: seq<VisaCase>): (k: Kpis)
    ensures k.activeVisas == |Filter(cases, HasStatus("Active"))|
    ensures k.expiringWithin60Days == |Filter(cases, ExpiringWithin60())|
    ensures k.expired == |Filter(cases, Overdue())|
    ensures k.pending == |Filter(cases, HasStatus("Processing"))|
    ensures k.activeVisas + k.pending <= |cases|
    ensures k.expiringWithin60Days + k.expired <= |cases|
    ensures k.expired == |Filter(cases, InTier(1))|
    ensures k.completed == 312
  {
    var active := Filter(cases, HasStatus("Active"));
    var expiring := Filter(cases, ExpiringWithin60());
    var expired := Filter(cases, Overdue());
    var pending := Filter(cases, HasStatus("Processing"));
    DisjointCounts(cases, HasStatus("Active"), HasStatus("Processing"));
    DisjointCounts(cases, ExpiringWithin60(), Overdue());
    FilterExtensional(cases, Overdue(), InTier(1));
    Kpis(|active|, |expiring|, |expired|, |pending|, 312)
  }

  /** Each card is the number of positions whose case meets its condition:
      status "Active", 1 to 60 days left (an expiry today is not counted),
      past the date, and status "Processing". */
  lemma KpiMembers(cases: seq<VisaCase>)
    ensures ComputeKpis(cases).activeVisas == |set i: nat | i < |cases| && cases[i].status == "Active"|
    ensures ComputeKpis(cases).expiringWithin60Days == |set i: nat | i < |cases| && 0 < cases[i].daysLeft <= 60|
    ensures ComputeKpis(cases).expired == |set i: nat | i < |cases| && cases[i].daysLeft < 0|
    ensures ComputeKpis(cases).pending == |set i: nat | i < |cases| && cases[i].status == "Processing"|
  {
    FilterCountIsIndexCount(cases, HasStatus("Active"));
    FilterCountIsIndexCount(cases, ExpiringWithin60());
    FilterCountIsIndexCount(cases, Overdue());
    FilterCountIsIndexCount(cases, HasStatus("Processing"));
    assert IndicesWhere(cases, HasStatus("Active")) == set i: nat | i < |cases| && cases[i].status == "Active";
    assert IndicesWhere(cases, ExpiringWithin60()) == set i: nat | i < |cases| && 0 < cases[i].daysLeft <= 60;
    assert IndicesWhere(cases, Overdue()) == set i: nat | i < |cases| && cases[i].daysLeft < 0;
    assert IndicesWhere(cases, HasStatus("Processing")) == set i: nat | i < |cases| && cases[i].status == "Processing";
  }

  /** Counting over the sorted list gives the same cards as counting over the
      bundled order (the cards are computed from the unsorted array). */
  lemma KpisIgnoreOrder(cases: seq<VisaCase>)
    ensures ComputeKpis(SortByPriority(cases)) == ComputeKpis(cases)
  {
    var r := SortByPriority(cases);
    SortIsPermutation(cases);
    FilterCountPermutation(r, cases, HasStatus("Active"));
    FilterCountPermutation(r, cases, ExpiringWithin60());
    FilterCountPermutation(r, cases, Overdue());
    FilterCountPermutation(r, cases, HasStatus("Processing"));
  }

  /** The row band, date chip and badges agree with the priority tier. */
  lemma BandsFollowTier(d: int)
    ensures GetPriority(d) == 1 <==> ShowsHighestPriority(d)
    ensures GetPriority(d) == 1 ==> RowBorderColor(d) == RedBand && DateChipStyle(d) == RedChip
    ensures GetPriority(d) == 4 ==> RowBorderColor(d) == GreenBand && DateChipStyle(d) == GrayChip
    ensures ShowsExtensionNeeded(d) <==> GetPriority(d) == 3 || (GetPriority(d) == 2 && d > 0)
  {
  }
}
