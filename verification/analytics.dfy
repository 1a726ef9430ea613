/** The aggregation engine of src/hooks/useAnalytics.ts: per-area counts for the
    pie and bar charts, the ranking of areas, and the three percentage KPIs.
    Everything here is a pure function of the three lists. */
module Analytics {
  import opened Records

  // ---------------------------------------------------------------------------
  // Counting references to an area

  /** The `areaId` column of the volunteers. */
  function VolunteerRefs(vs: seq<Volunteer>): (r: seq<Option<string>>)
    ensures |r| == |vs| && forall i :: 0 <= i < |vs| ==> r[i] == vs[i].areaId
  {
    seq(|vs|, i requires 0 <= i < |vs| => vs[i].areaId)
  }

  /** The `areaId` column of the donations. */
  function DonationRefs(ds: seq<Donation>): (r: seq<Option<string>>)
    ensures |r| == |ds| && forall i :: 0 <= i < |ds| ==> r[i] == ds[i].areaId
  {
    seq(|ds|, i requires 0 <= i < |ds| => ds[i].areaId)
  }

  /** `xs.filter(x => x.areaId === id).length`. */
  function CountRefs(refs: seq<Option<string>>, id: string): (r: nat)
    ensures r <= |refs|
  {
    if refs == [] then 0
    else (if refs[0] == Some(id) then 1 else 0) + CountRefs(refs[1..], id)
  }

  /** The count is the multiplicity of `Some(id)` among the references, so an
      absent `areaId` (None) is never counted for any area. */
  lemma {:induction false} CountRefsIsMultiplicity(refs: seq<Option<string>>, id: string)
    ensures CountRefs(refs, id) == multiset(refs)[Some(id)]
  {
    if refs != [] {
      assert refs == [refs[0]] + refs[1..];
      CountRefsIsMultiplicity(refs[1..], id);
    }
  }

  /** `volunteers.filter(v => v.areaId === a.id).length`: how many times the
      area's id occurs among the volunteers' references. */
  function VolunteersIn(vs: seq<Volunteer>, a: Area): (r: nat)
    ensures r == multiset(VolunteerRefs(vs))[Some(a.id)]
  {
    CountRefsIsMultiplicity(VolunteerRefs(vs), a.id);
    CountRefs(VolunteerRefs(vs), a.id)
  }

  /** `donations.filter(d => d.areaId === a.id).length`, likewise. */
  function DonationsIn(ds: seq<Donation>, a: Area): (r: nat)
    ensures r == multiset(DonationRefs(ds))[Some(a.id)]
  {
    CountRefsIsMultiplicity(DonationRefs(ds), a.id);
    CountRefs(DonationRefs(ds), a.id)
  }

  /** A record without an area (`areaId` null or undefined) adds to no
      area's count. */
  lemma UnlinkedNeverCounted(vs: seq<Volunteer>, v: Volunteer, ds: seq<Donation>, d: Donation, a: Area)
    requires v.areaId.None? && d.areaId.None?
    ensures VolunteersIn(vs + [v], a) == VolunteersIn(vs, a)
    ensures DonationsIn(ds + [d], a) == DonationsIn(ds, a)
  {
    assert VolunteerRefs(vs + [v]) == VolunteerRefs(vs) + [None];
    assert DonationRefs(ds + [d]) == DonationRefs(ds) + [None];
    CountRefsIsMultiplicity(VolunteerRefs(vs + [v]), a.id);
    CountRefsIsMultiplicity(VolunteerRefs(vs), a.id);
    CountRefsIsMultiplicity(DonationRefs(ds + [d]), a.id);
    CountRefsIsMultiplicity(DonationRefs(ds), a.id);
  }

  // ---------------------------------------------------------------------------
  // pieData

  datatype PieEntry = PieEntry(name: string, value: nat)

  /** `pieData`: per area, in area order, its name and number of volunteers;
      areas with no volunteer are left out. */
  function PieData(areas: seq<Area>, vs: seq<Volunteer>): (r: seq<PieEntry>)
    ensures |r| <= |areas|
    ensures forall k :: 0 <= k < |r| ==> r[k].value > 0
  {
    if areas == [] then []
    else
      var c := VolunteersIn(vs, areas[0]);
      (if c > 0 then [PieEntry(areas[0].name, c)] else []) + PieData(areas[1..], vs)
  }

  /** The pie entries of two runs of areas are those of the first run followed
      by those of the second: area order is kept. */
  lemma {:induction false} PieDataAppend(a: seq<Area>, b: seq<Area>, vs: seq<Volunteer>)
    ensures PieData(a + b, vs) == PieData(a, vs) + PieData(b, vs)
  {
    if a == [] {
      assert a + b == b;
    } else {
      assert (a + b)[0] == a[0] && (a + b)[1..] == a[1..] + b;
      PieDataAppend(a[1..], b, vs);
      var c := VolunteersIn(vs, a[0]);
      var head := if c > 0 then [PieEntry(a[0].name, c)] else [];
      assert PieData(a + b, vs) == head + PieData(a[1..] + b, vs);
      assert PieData(a, vs) == head + PieData(a[1..], vs);
    }
  }

  /** An entry is in the pie exactly when some area has that name and that
      many volunteers, and the count is not zero. */
  lemma {:induction false} PieDataMembers(areas: seq<Area>, vs: seq<Volunteer>, e: PieEntry)
    ensures e in PieData(areas, vs) <==>
            exists i :: 0 <= i < |areas| && VolunteersIn(vs, areas[i]) > 0
                        && e == PieEntry(areas[i].name, VolunteersIn(vs, areas[i]))
  {
    if areas != [] {
      PieDataMembers(areas[1..], vs, e);
      if exists i :: 0 <= i < |areas[1..]| && VolunteersIn(vs, areas[1..][i]) > 0
                     && e == PieEntry(areas[1..][i].name, VolunteersIn(vs, areas[1..][i])) {
        var i :| 0 <= i < |areas[1..]| && VolunteersIn(vs, areas[1..][i]) > 0
                 && e == PieEntry(areas[1..][i].name, VolunteersIn(vs, areas[1..][i]));
        assert areas[i + 1] == areas[1..][i];
      }
      forall i | 0 <= i < |areas| && VolunteersIn(vs, areas[i]) > 0
                 && e == PieEntry(areas[i].name, VolunteersIn(vs, areas[i]))
        ensures e in PieData(areas, vs)
      {
        if i > 0 {
          assert areas[1..][i - 1] == areas[i];
        }
      }
    }
  }

  // ---------------------------------------------------------------------------
  // barData

  datatype BarRow = BarRow(name: string, donationsCount: nat, volunteersCount: nat)

  /** `barData`: exactly one row per area, in area order, with its name and
      exact donation and volunteer counts; areas counting zero are kept. */
  function BarData(areas: seq<Area>, vs: seq<Volunteer>, ds: seq<Donation>): (r: seq<BarRow>)
    ensures |r| == |areas|
    ensures forall i :: 0 <= i < |areas| ==>
              r[i] == BarRow(areas[i].name, DonationsIn(ds, areas[i]), VolunteersIn(vs, areas[i]))
  {
    if areas == [] then []
    else [BarRow(areas[0].name, DonationsIn(ds, areas[0]), VolunteersIn(vs, areas[0]))]
         + BarData(areas[1..], vs, ds)
  }

  /** The pie is the bar chart's volunteer column with the zero rows dropped. */
  lemma {:induction false} PieIsBarWithoutZeros(areas: seq<Area>, vs: seq<Volunteer>, ds: seq<Donation>)
    ensures PieData(areas, vs) == NonZeroVolunteerRows(BarData(areas, vs, ds))
  {
    if areas != [] {
      PieIsBarWithoutZeros(areas[1..], vs, ds);
      assert BarData(areas, vs, ds)[1..] == BarData(areas[1..], vs, ds);
    }
  }

  function NonZeroVolunteerRows(rows: seq<BarRow>): seq<PieEntry> {
    if rows == [] then []
    else (if rows[0].volunteersCount > 0 then [PieEntry(rows[0].name, rows[0].volunteersCount)] else [])
         + NonZeroVolunteerRows(rows[1..])
  }

  predicate DistinctIds(areas: seq<Area>) {
    forall i, j :: 0 <= i < j < |areas| ==> areas[i].id != areas[j].id
  }

  function SumVolunteerCounts(rows: seq<BarRow>): nat {
    if rows == [] then 0 else rows[0].volunteersCount + SumVolunteerCounts(rows[1..])
  }

  /** Number of references that point at some area of the list. */
  function CountMatched(refs: seq<Option<string>>, areas: seq<Area>): (r: nat)
    ensures r <= |refs|
  {
    if refs == [] then 0
    else (if FindAreaIndex(areas, refs[0]).Some? then 1 else 0) + CountMatched(refs[1..], areas)
  }

  /** Sum over the areas of how many references point at each. */
  function SumOverAreas(refs: seq<Option<string>>, areas: seq<Area>): nat {
    if areas == [] then 0 else CountRefs(refs, areas[0].id) + SumOverAreas(refs, areas[1..])
  }

  /** Number of areas a single reference points at. */
  function Hits(ref: Option<string>, areas: seq<Area>): nat {
    if areas == [] then 0 else (if RefersTo(ref, areas[0]) then 1 else 0) + Hits(ref, areas[1..])
  }

  lemma {:induction false} HitsOfDistinct(ref: Option<string>, areas: seq<Area>)
    requires DistinctIds(areas)
    ensures Hits(ref, areas) == if FindAreaIndex(areas, ref).Some? then 1 else 0
  {
    if areas != [] {
      HitsOfDistinct(ref, areas[1..]);
      if RefersTo(ref, areas[0]) {
        assert forall j :: 0 <= j < |areas[1..]| ==> areas[1..][j] == areas[j + 1];
        assert FindAreaIndex(areas[1..], ref).None?;
      } else if FindAreaIndex(areas[1..], ref).Some? {
        var i := FindAreaIndex(areas[1..], ref).value;
        assert RefersTo(ref, areas[i + 1]);
      }
    }
  }

  lemma {:induction false} SumOverAreasSplit(refs: seq<Option<string>>, areas: seq<Area>)
    requires refs != []
    ensures SumOverAreas(refs, areas) == Hits(refs[0], areas) + SumOverAreas(refs[1..], areas)
  {
    if areas != [] {
      SumOverAreasSplit(refs, areas[1..]);
    }
  }

  lemma {:induction false} SumOverAreasIsMatched(refs: seq<Option<string>>, areas: seq<Area>)
    requires DistinctIds(areas)
    ensures SumOverAreas(refs, areas) == CountMatched(refs, areas)
  {
    if refs == [] {
      SumOverAreasEmpty(areas);
    } else {
      SumOverAreasSplit(refs, areas);
      HitsOfDistinct(refs[0], areas);
      SumOverAreasIsMatched(refs[1..], areas);
    }
  }

  lemma {:induction false} SumOverAreasEmpty(areas: seq<Area>)
    ensures SumOverAreas([], areas) == 0
  {
    if areas != [] {
      SumOverAreasEmpty(areas[1..]);
    }
  }

  /** With distinct area ids, the bar chart's volunteer column adds up to the
      number of volunteers linked to an area of the list: each such volunteer
      is counted once, and unlinked or dangling ones not at all. */
  lemma {:induction false} BarVolunteersAddUp(areas: seq<Area>, vs: seq<Volunteer>, ds: seq<Donation>)
    requires DistinctIds(areas)
    ensures SumVolunteerCounts(BarData(areas, vs, ds)) == CountMatched(VolunteerRefs(vs), areas)
  {
    BarSumIsSumOverAreas(areas, vs, ds);
    SumOverAreasIsMatched(VolunteerRefs(vs), areas);
  }

  lemma {:induction false} BarSumIsSumOverAreas(areas: seq<Area>, vs: seq<Volunteer>, ds: seq<Donation>)
    ensures SumVolunteerCounts(BarData(areas, vs, ds)) == SumOverAreas(VolunteerRefs(vs), areas)
  {
    if areas != [] {
      BarSumIsSumOverAreas(areas[1..], vs, ds);
      assert BarData(areas, vs, ds)[1..] == BarData(areas[1..], vs, ds);
    }
  }

  // ---------------------------------------------------------------------------
  // areaRanking

  datatype RankEntry = RankEntry(id: string, name: string, vols: nat, dons: nat, total: nat)

  function RankEntryOf(a: Area, vs: seq<Volunteer>, ds: seq<Donation>): (r: RankEntry)
    ensures r.total == r.vols + r.dons
  {
    var v := VolunteersIn(vs, a);
    var d := DonationsIn(ds, a);
    RankEntry(a.id, a.name, v, d, v + d)
  }

  /** The ranking entries before sorting, one per area in area order. */
  function RankEntries(areas: seq<Area>, vs: seq<Volunteer>, ds: seq<Donation>): (r: seq<RankEntry>)
    ensures |r| == |areas|
    ensures forall i :: 0 <= i < |areas| ==> r[i] == RankEntryOf(areas[i], vs, ds)
  {
    seq(|areas|, i requires 0 <= i < |areas| => RankEntryOf(areas[i], vs, ds))
  }

  /** Each entry's total is at least the next one's. */
  predicate SortedByTotal(s: seq<RankEntry>) {
    |s| <= 1 || (s[0].total >= s[1].total && SortedByTotal(s[1..]))
  }

  /** Sorted by non-increasing total: every entry's total is at least that of
      every entry after it. */
  lemma {:induction false} SortedByTotalIff(s: seq<RankEntry>)
    ensures SortedByTotal(s) <==> forall i, j :: 0 <= i < j < |s| ==> s[i].total >= s[j].total
  {
    if |s| > 1 {
      SortedByTotalIff(s[1..]);
      if SortedByTotal(s) {
        forall i, j | 0 <= i < j < |s| ensures s[i].total >= s[j].total {
          if i == 0 {
            assert s[1..][0] == s[1] && s[1..][j - 1] == s[j];
          } else {
            assert s[1..][i - 1] == s[i] && s[1..][j - 1] == s[j];
          }
        }
      }
      if forall i, j :: 0 <= i < j < |s| ==> s[i].total >= s[j].total {
        forall i, j | 0 <= i < j < |s[1..]| ensures s[1..][i].total >= s[1..][j].total {
          assert s[1..][i] == s[i + 1] && s[1..][j] == s[j + 1];
        }
      }
    }
  }

  /** The entries of `s` with total `t`, in their order in `s`. */
  function WithTotal(s: seq<RankEntry>, t: nat): seq<RankEntry> {
    if s == [] then []
    else (if s[0].total == t then [s[0]] else []) + WithTotal(s[1..], t)
  }

  /** The entries with a given total of `[h] + s`: `h` if it has that total,
      then those of `s`. */
  lemma WithTotalCons(h: RankEntry, s: seq<RankEntry>)
    ensures forall t :: WithTotal([h] + s, t) == (if h.total == t then [h] else []) + WithTotal(s, t)
  {
    forall t ensures WithTotal([h] + s, t) == (if h.total == t then [h] else []) + WithTotal(s, t) {
      assert ([h] + s)[1..] == s;
    }
  }

  lemma SortedCons(h: RankEntry, s: seq<RankEntry>)
    requires SortedByTotal(s)
    requires s == [] || h.total >= s[0].total
    ensures SortedByTotal([h] + s)
  {
    assert ([h] + s)[1..] == s;
  }

  /** Places `x` before the first entry whose total does not exceed its own,
      that is, ahead of the entries it ties with. */
  function InsertByTotal(x: RankEntry, s: seq<RankEntry>): (r: seq<RankEntry>)
    requires SortedByTotal(s)
    ensures |r| == |s| + 1
    ensures r[0] == x || (s != [] && r[0] == s[0])
    ensures SortedByTotal(r)
  {
    if s == [] || x.total >= s[0].total then
      SortedCons(x, s);
      [x] + s
    else
      var rest := InsertByTotal(x, s[1..]);
      SortedCons(s[0], rest);
      [s[0]] + rest
  }

  /** Inserting adds `x` and loses nothing. */
  lemma {:induction false} InsertByTotalPermutes(x: RankEntry, s: seq<RankEntry>)
    requires SortedByTotal(s)
    ensures multiset(InsertByTotal(x, s)) == multiset(s) + multiset{x}
  {
    if s != [] && x.total < s[0].total {
      InsertByTotalPermutes(x, s[1..]);
      assert s == [s[0]] + s[1..];
    }
  }

  /** Among the entries with any one total, `x` comes first and the others
      keep their order: the insertion is stable. */
  lemma {:induction false} InsertByTotalStable(x: RankEntry, s: seq<RankEntry>)
    requires SortedByTotal(s)
    ensures forall t :: WithTotal(InsertByTotal(x, s), t) == (if x.total == t then [x] else []) + WithTotal(s, t)
  {
    if s == [] || x.total >= s[0].total {
      WithTotalCons(x, s);
    } else {
      var rest := InsertByTotal(x, s[1..]);
      InsertByTotalStable(x, s[1..]);
      assert s == [s[0]] + s[1..];
      WithTotalCons(s[0], rest);
      WithTotalCons(s[0], s[1..]);
    }
  }

  /** `.sort((a, b) => b.total - a.total)`: ECMAScript's `Array.prototype.sort`
      is stable, so this is a stable sort by non-increasing total (insertion
      sort; `SortByTotalPermutes` and `SortByTotalStable` state the rest). */
  function SortByTotal(s: seq<RankEntry>): (r: seq<RankEntry>)
    ensures |r| == |s|
    ensures SortedByTotal(r)
  {
    if s == [] then [] else InsertByTotal(s[0], SortByTotal(s[1..]))
  }

  /** Sorting neither adds nor loses an entry. */
  lemma {:induction false} SortByTotalPermutes(s: seq<RankEntry>)
    ensures multiset(SortByTotal(s)) == multiset(s)
  {
    if s != [] {
      var sorted := SortByTotal(s[1..]);
      SortByTotalPermutes(s[1..]);
      InsertByTotalPermutes(s[0], sorted);
      calc {
        multiset(SortByTotal(s));
        multiset(InsertByTotal(s[0], sorted));
        multiset(s[1..]) + multiset{s[0]};
        { assert s == [s[0]] + s[1..]; }
        multiset(s);
      }
    }
  }

  /** For every total, the entries with it come out in their input order. */
  lemma {:induction false} SortByTotalStable(s: seq<RankEntry>)
    ensures forall t :: WithTotal(SortByTotal(s), t) == WithTotal(s, t)
  {
    if s != [] {
      SortByTotalStable(s[1..]);
      InsertByTotalStable(s[0], SortByTotal(s[1..]));
      assert s == [s[0]] + s[1..];
      WithTotalCons(s[0], s[1..]);
    }
  }

  /** `areaRanking`: the per-area entries sorted by non-increasing total. It is
      a permutation of the unsorted entries, and entries that tie keep the
      order of their areas (for every total, the entries with that total come
      out in area order). The list of areas itself is a value and is not
      reordered. */
  function AreaRanking(areas: seq<Area>, vs: seq<Volunteer>, ds: seq<Donation>): (r: seq<RankEntry>)
    ensures |r| == |areas|
    ensures SortedByTotal(r)
    ensures multiset(r) == multiset(RankEntries(areas, vs, ds))
    ensures forall t :: WithTotal(r, t) == WithTotal(RankEntries(areas, vs, ds), t)
    ensures forall k :: 0 <= k < |r| ==> r[k].total == r[k].vols + r[k].dons
  {
    var entries := RankEntries(areas, vs, ds);
    SortByTotalPermutes(entries);
    SortByTotalStable(entries);
    var r := SortByTotal(entries);
    forall k | 0 <= k < |r| ensures r[k].total == r[k].vols + r[k].dons {
      assert r[k] in multiset(entries);
    }
    r
  }

  // ---------------------------------------------------------------------------
  // KPIs

  /** `Math.round(k / n * 100)`, taken as exact round-half-up, and 0 for an
      empty list: the result is the integer nearest to 100·k/n, halves rounded
      up. */
  function RoundPercent(k: nat, n: nat): (r: nat)
    ensures n == 0 ==> r == 0
    ensures n > 0 ==> 2 * n * r <= 200 * k + n < 2 * n * (r + 1)
    ensures k <= n ==> r <= 100
  {
    if n == 0 then 0
    else
      var q := (200 * k + n) / (2 * n);
      assert 2 * n * q + (200 * k + n) % (2 * n) == 200 * k + n;
      assert k <= n && q >= 101 ==> 2 * n * q >= 2 * n * 101;
      q
  }

  /** Number of references that are truthy (`x.areaId` set and not ''). */
  function CountLinked(refs: seq<Option<string>>): (r: nat)
    ensures r <= |refs|
  {
    if refs == [] then 0
    else (if IsLinked(refs[0]) then 1 else 0) + CountLinked(refs[1..])
  }

  /** Counting linked references adds up over concatenation. */
  lemma {:induction false} CountLinkedAppend(a: seq<Option<string>>, b: seq<Option<string>>)
    ensures CountLinked(a + b) == CountLinked(a) + CountLinked(b)
  {
    if a == [] {
      assert a + b == b;
    } else {
      assert (a + b)[0] == a[0] && (a + b)[1..] == a[1..] + b;
      CountLinkedAppend(a[1..], b);
    }
  }

  /** The KPI shared by volunteers and donations: 0 for an empty list, else
      the rounded percentage of records whose `areaId` is truthy. */
  function PercentLinked(refs: seq<Option<string>>): (r: nat)
    ensures r <= 100
    ensures refs == [] ==> r == 0
    ensures refs != [] ==> 2 * |refs| * r <= 200 * CountLinked(refs) + |refs| < 2 * |refs| * (r + 1)
  {
    if |refs| == 0 then 0 else RoundPercent(CountLinked(refs), |refs|)
  }

  lemma {:induction false} CountLinkedAll(refs: seq<Option<string>>)
    requires forall i :: 0 <= i < |refs| ==> IsLinked(refs[i])
    ensures CountLinked(refs) == |refs|
  {
    if refs != [] {
      CountLinkedAll(refs[1..]);
    }
  }

  lemma {:induction false} CountLinkedNone(refs: seq<Option<string>>)
    requires forall i :: 0 <= i < |refs| ==> !IsLinked(refs[i])
    ensures CountLinked(refs) == 0
  {
    if refs != [] {
      CountLinkedNone(refs[1..]);
    }
  }

  lemma MulMonotone(m: nat, a: nat, b: nat)
    ensures a <= b ==> m * a <= m * b
  {
    if a <= b {
      assert m * b == m * a + m * (b - a);
    }
  }

  lemma RoundPercentOfWhole(n: nat)
    requires n > 0
    ensures RoundPercent(n, n) == 100
  {
    var r := RoundPercent(n, n);
    MulMonotone(2 * n, r + 1, 100);
  }

  lemma RoundPercentOfNothing(n: nat)
    requires n > 0
    ensures RoundPercent(0, n) == 0
  {
    var r := RoundPercent(0, n);
    MulMonotone(2 * n, 1, r);
  }

  /** The extremes: every record linked gives 100, none linked gives 0. */
  lemma PercentLinkedExtremes(refs: seq<Option<string>>)
    ensures (forall i :: 0 <= i < |refs| ==> IsLinked(refs[i])) && refs != [] ==> PercentLinked(refs) == 100
    ensures (forall i :: 0 <= i < |refs| ==> !IsLinked(refs[i])) ==> PercentLinked(refs) == 0
  {
    if forall i :: 0 <= i < |refs| ==> IsLinked(refs[i]) {
      CountLinkedAll(refs);
      if refs != [] {
        RoundPercentOfWhole(|refs|);
      }
    }
    if forall i :: 0 <= i < |refs| ==> !IsLinked(refs[i]) {
      CountLinkedNone(refs);
      if refs != [] {
        RoundPercentOfNothing(|refs|);
      }
    }
  }

  /** `kpiPercentVolWithArea`. */
  function KpiPercentVolWithArea(vs: seq<Volunteer>): (r: nat)
    ensures r <= 100
    ensures vs == [] ==> r == 0
    ensures vs != [] ==> var k := CountLinked(VolunteerRefs(vs));
                         2 * |vs| * r <= 200 * k + |vs| < 2 * |vs| * (r + 1)
  {
    PercentLinked(VolunteerRefs(vs))
  }

  /** `kpiPercentDonationsLinked`. */
  function KpiPercentDonationsLinked(ds: seq<Donation>): (r: nat)
    ensures r <= 100
    ensures ds == [] ==> r == 0
    ensures ds != [] ==> var k := CountLinked(DonationRefs(ds));
                         2 * |ds| * r <= 200 * k + |ds| < 2 * |ds| * (r + 1)
  {
    PercentLinked(DonationRefs(ds))
  }

  /** `donations.some(d => d.areaId === a.id)`. */
  function AnyRefersTo(refs: seq<Option<string>>, a: Area): (r: bool)
    ensures r <==> exists i :: 0 <= i < |refs| && RefersTo(refs[i], a)
  {
    if refs == [] then false
    else if RefersTo(refs[0], a) then true
    else
      var r := AnyRefersTo(refs[1..], a);
      assert forall i :: 1 <= i < |refs| ==> refs[i] == refs[1..][i - 1];
      r
  }

  /** Number of areas with at least one donation pointing at them. */
  function AreasWithDonation(areas: seq<Area>, refs: seq<Option<string>>): (r: nat)
    ensures r <= |areas|
  {
    if areas == [] then 0
    else (if AnyRefersTo(refs, areas[0]) then 1 else 0) + AreasWithDonation(areas[1..], refs)
  }

  /** Counting covered areas adds up over concatenation of area lists. */
  lemma {:induction false} AreasWithDonationAppend(a: seq<Area>, b: seq<Area>, refs: seq<Option<string>>)
    ensures AreasWithDonation(a + b, refs) == AreasWithDonation(a, refs) + AreasWithDonation(b, refs)
  {
    if a == [] {
      assert a + b == b;
    } else {
      assert (a + b)[0] == a[0] && (a + b)[1..] == a[1..] + b;
      AreasWithDonationAppend(a[1..], b, refs);
    }
  }

  /** `kpiPercentAreasWithDon`: 0 with no areas, else the rounded percentage of
      areas that some donation points at. */
  function KpiPercentAreasWithDon(areas: seq<Area>, ds: seq<Donation>): (r: nat)
    ensures r <= 100
    ensures areas == [] ==> r == 0
    ensures areas != [] ==> var k := AreasWithDonation(areas, DonationRefs(ds));
                            2 * |areas| * r <= 200 * k + |areas| < 2 * |areas| * (r + 1)
  {
    if |areas| == 0 then 0 else RoundPercent(AreasWithDonation(areas, DonationRefs(ds)), |areas|)
  }

  lemma {:induction false} AreasWithDonationSameRefs(areas: seq<Area>, refs: seq<Option<string>>, refs': seq<Option<string>>)
    requires forall a :: AnyRefersTo(refs, a) == AnyRefersTo(refs', a)
    ensures AreasWithDonation(areas, refs) == AreasWithDonation(areas, refs')
  {
    if areas != [] {
      AreasWithDonationSameRefs(areas[1..], refs, refs');
    }
  }

  /** An area counts once however many donations point at it: one more
      donation for an area that already has one leaves the KPI unchanged. */
  lemma DonationForCoveredAreaKeepsKpi(areas: seq<Area>, ds: seq<Donation>, d: Donation)
    requires exists i :: 0 <= i < |ds| && ds[i].areaId == d.areaId
    ensures KpiPercentAreasWithDon(areas, ds + [d]) == KpiPercentAreasWithDon(areas, ds)
  {
    var refs, refs' := DonationRefs(ds), DonationRefs(ds + [d]);
    assert refs' == refs + [d.areaId];
    forall a ensures AnyRefersTo(refs, a) == AnyRefersTo(refs', a) {
      if AnyRefersTo(refs', a) {
        var i :| 0 <= i < |refs'| && RefersTo(refs'[i], a);
        if i == |refs| {
          var j :| 0 <= j < |ds| && ds[j].areaId == d.areaId;
          assert RefersTo(refs[j], a);
        } else {
          assert RefersTo(refs[i], a);
        }
      }
      if AnyRefersTo(refs, a) {
        var i :| 0 <= i < |refs| && RefersTo(refs[i], a);
        assert refs'[i] == refs[i];
      }
    }
    AreasWithDonationSameRefs(areas, refs, refs');
  }
}
