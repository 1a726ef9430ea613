/** The data set the repository's own tests load (src/App.test.tsx:48-50):
    two areas, three volunteers of whom one has no area, and three donations
    of which one has no area. The lemmas state the dashboard figures the tests
    expect for it. */
module DashboardExample {
  import opened Records
  import opened Analytics

  const AreaX := Area("a_1", "Area X", "12345-000", Some("CityX"), Some("CX"))
  const AreaY := Area("a_2", "Area Y", "54321-000", Some("CityY"), Some("CY"))
  const SampleAreas := [AreaX, AreaY]
  const SampleVolunteers := [Volunteer("v_1", "Alice", None, None, None, Some("a_1")),
                             Volunteer("v_2", "Bob", None, None, None, Some("a_2")),
                             Volunteer("v_3", "Charlie", None, None, None, None)]
  const SampleDonations := [Donation("d_1", "Water", 10, Some("a_1")),
                            Donation("d_2", "Blanket", 5, Some("a_1")),
                            Donation("d_3", "Food", 20, None)]

  /** Two of three volunteers have an area (67%), one of two areas has a
      donation (50%), two of three donations have an area (67%); with no
      data every KPI is 0. */
  lemma KpiExample()
    ensures KpiPercentVolWithArea(SampleVolunteers) == 67
    ensures KpiPercentAreasWithDon(SampleAreas, SampleDonations) == 50
    ensures KpiPercentDonationsLinked(SampleDonations) == 67
    ensures KpiPercentVolWithArea([]) == 0 && KpiPercentAreasWithDon([], []) == 0
            && KpiPercentDonationsLinked([]) == 0
  {
    assert CountLinked(VolunteerRefs(SampleVolunteers)) == 2 by {
      assert VolunteerRefs(SampleVolunteers) == [Some("a_1"), Some("a_2"), None];
    }
    assert CountLinked(DonationRefs(SampleDonations)) == 2 by {
      var refs := DonationRefs(SampleDonations);
      assert refs == [Some("a_1"), Some("a_1"), None];
      assert refs[1..] == [Some("a_1"), None] && refs[2..] == [None];
      assert CountLinked(refs[2..]) == 0;
    }
    assert AreasWithDonation(SampleAreas, DonationRefs(SampleDonations)) == 1 by {
      var refs := DonationRefs(SampleDonations);
      assert refs == [Some("a_1"), Some("a_1"), None];
      assert AnyRefersTo(refs, AreaX);
      assert !RefersTo(refs[0], AreaY) && !RefersTo(refs[1], AreaY) && !RefersTo(refs[2], AreaY);
      assert !AnyRefersTo(refs, AreaY);
    }
  }

  /** The per-area counts of the sample: Area X has one volunteer and two
      donations, Area Y one volunteer and none. */
  lemma SampleAreaCounts()
    ensures VolunteersIn(SampleVolunteers, AreaX) == 1 && DonationsIn(SampleDonations, AreaX) == 2
    ensures VolunteersIn(SampleVolunteers, AreaY) == 1 && DonationsIn(SampleDonations, AreaY) == 0
  {
    var vrefs := VolunteerRefs(SampleVolunteers);
    var drefs := DonationRefs(SampleDonations);
    assert vrefs == [Some("a_1"), Some("a_2"), None];
    assert drefs == [Some("a_1"), Some("a_1"), None];
    assert vrefs[1..] == [Some("a_2"), None] && vrefs[2..] == [None];
    assert CountRefs(vrefs[2..], "a_1") == 0 && CountRefs(vrefs[2..], "a_2") == 0;
    assert CountRefs(vrefs, "a_1") == 1 && CountRefs(vrefs, "a_2") == 1;
    assert CountRefs(drefs, "a_1") == 2 && CountRefs(drefs, "a_2") == 0;
  }

  /** Area X (one volunteer, two donations, total 3) is ranked above Area Y
      (one volunteer, no donation, total 1). */
  lemma RankingExample()
    ensures AreaRanking(SampleAreas, SampleVolunteers, SampleDonations)
            == [RankEntry("a_1", "Area X", 1, 2, 3), RankEntry("a_2", "Area Y", 1, 0, 1)]
  {
    SampleAreaCounts();
    var entries := RankEntries(SampleAreas, SampleVolunteers, SampleDonations);
    var x, y := RankEntry("a_1", "Area X", 1, 2, 3), RankEntry("a_2", "Area Y", 1, 0, 1);
    assert entries[0] == RankEntryOf(AreaX, SampleVolunteers, SampleDonations) == x;
    assert entries[1] == RankEntryOf(AreaY, SampleVolunteers, SampleDonations) == y;
    assert entries == [x, y];
    assert entries[1..] == [y];
    assert SortByTotal([y]) == [y];
    assert InsertByTotal(x, [y]) == [x, y];
  }
}
