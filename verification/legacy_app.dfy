/** The older single-component dashboard of src/App.tsx: it keeps the three
    lists itself, creates records locally with generated ids, looks CEPs up
    with its own, looser lookup and has its own CSV schema. Loading and saving
    the lists in local storage are not part of this model: the constructor
    takes the lists it starts from. */
module LegacyApp {
  import opened Text
  import opened Records
  import opened Cep
  import opened Csv
  import Exports
  import AreasPage

  /** `uid(p)`: the prefix, an underscore and a random suffix, which the
      model takes as a parameter. */
  function Uid(prefix: string, suffix: string): (r: string)
    ensures prefix + "_" <= r && r[|prefix| + 1..] == suffix
  {
    prefix + "_" + suffix
  }

  /** All the form inputs of the component. */
  datatype FormState = FormState(
    vName: string, vPhone: string, vEmail: string, vSkills: string, vArea: string,
    aName: string, aCep: string, aStatus: string,
    dDesc: string, dQty: int, dArea: string)

  /** The volunteer created by `addVolunteer`: trimmed fields, empty ones
      kept as empty strings, and no area when none is selected. */
  function NewVolunteer(id: string, f: FormState): (r: Volunteer)
    ensures r.id == id && r.name == Trim(f.vName)
    ensures r.phone == Some(Trim(f.vPhone)) && r.email == Some(Trim(f.vEmail))
            && r.skills == Some(Trim(f.vSkills))
    ensures r.areaId == SelectedArea(f.vArea)
  {
    Volunteer(id, Trim(f.vName), Some(Trim(f.vPhone)), Some(Trim(f.vEmail)), Some(Trim(f.vSkills)),
              SelectedArea(f.vArea))
  }

  /** The area created by `addArea`: trimmed name and CEP, and the city and
      state the looser lookup gives for the CEP input, absent when it gave
      nothing. */
  function NewArea(id: string, f: FormState, fetch: string -> FetchReply): (r: Area)
    ensures r.id == id && r.name == Trim(f.aName) && r.cep == Trim(f.aCep)
    ensures var info := LegacyLookupCep(f.aCep, fetch);
            && (info.None? ==> r.city.None? && r.state.None?)
            && (info.Some? ==> r.city == Some(info.value.localidade) && r.state == Some(info.value.uf))
  {
    match LegacyLookupCep(f.aCep, fetch)
    case None => Area(id, Trim(f.aName), Trim(f.aCep), None, None)
    case Some(data) => Area(id, Trim(f.aName), Trim(f.aCep), Some(data.localidade), Some(data.uf))
  }

  /** The donation created by `addDonation`. */
  function NewDonation(id: string, f: FormState): (r: Donation)
    ensures r.id == id && r.description == Trim(f.dDesc) && r.quantity == f.dQty
    ensures r.areaId == SelectedArea(f.dArea)
  {
    Donation(id, Trim(f.dDesc), f.dQty, SelectedArea(f.dArea))
  }

  /** For an eight-digit CEP the area this component creates has the fields
      of the one the area page posts, with the id added. */
  lemma NewAreaMatchesPage(id: string, f: FormState, fetch: string -> FetchReply)
    requires |Digits(f.aCep)| == 8
    ensures var a := NewArea(id, f, fetch);
            var d := AreasPage.NewAreaDraft(f.aName, f.aCep, LookupCep(f.aCep, fetch));
            a.name == d.name && a.cep == d.cep && a.city == d.city && a.state == d.state
  {
    LookupVariantsAgreeOnEightDigits(f.aCep, fetch);
  }

  const MissingName := "Informe o nome do voluntário"
  const MissingAreaFields := "Preencha nome e CEP"
  const MissingDonationFields := "Informe a doação e quantidade"
  const Consulting := "Consultando CEP..."

  class App {
    var volunteers: seq<Volunteer>
    var areas: seq<Area>
    var donations: seq<Donation>
    /** The form inputs. */
    var form: FormState

    /** Starts from the given lists, with empty inputs and quantity 1. */
    constructor(volunteers: seq<Volunteer>, areas: seq<Area>, donations: seq<Donation>)
      ensures this.volunteers == volunteers && this.areas == areas && this.donations == donations
      ensures form == FormState("", "", "", "", "", "", "", "", "", 1, "")
    {
      this.volunteers, this.areas, this.donations := volunteers, areas, donations;
      form := FormState("", "", "", "", "", "", "", "", "", 1, "");
    }

    /** `addVolunteer`: a blank name is refused and nothing changes;
        otherwise the new volunteer is put first and the volunteer inputs are
        cleared. */
    method AddVolunteer(idSuffix: string) returns (alert: Option<string>)
      modifies this
      ensures areas == old(areas) && donations == old(donations)
      ensures IsBlank(old(form.vName)) ==>
                alert == Some(MissingName) && volunteers == old(volunteers) && form == old(form)
      ensures !IsBlank(old(form.vName)) ==>
                alert == None
                && volunteers == [NewVolunteer(Uid("v", idSuffix), old(form))] + old(volunteers)
                && form == old(form).(vName := "", vPhone := "", vEmail := "", vSkills := "", vArea := "")
    {
      if IsBlank(form.vName) {
        return Some(MissingName);
      }
      CommitVolunteer(NewVolunteer(Uid("v", idSuffix), form));
      alert := None;
    }

    /** `setVolunteers(prev => [newV, ...prev])` and the clearing of the
        volunteer inputs. */
    method CommitVolunteer(v: Volunteer)
      modifies this
      ensures volunteers == [v] + old(volunteers) && areas == old(areas) && donations == old(donations)
      ensures form == old(form).(vName := "", vPhone := "", vEmail := "", vSkills := "", vArea := "")
    {
      volunteers := [v] + volunteers;
      form := form.(vName := "", vPhone := "", vEmail := "", vSkills := "", vArea := "");
    }

    /** `addArea`: a blank name or CEP is refused and nothing changes;
        otherwise the CEP is looked up with the looser lookup, the new area
        is put first whatever the lookup gave, and the area inputs and status
        are cleared. */
    method AddArea(idSuffix: string, fetch: string -> FetchReply) returns (alert: Option<string>)
      modifies this
      ensures volunteers == old(volunteers) && donations == old(donations)
      ensures IsBlank(old(form.aName)) || IsBlank(old(form.aCep)) ==>
                alert == Some(MissingAreaFields) && areas == old(areas) && form == old(form)
      ensures !IsBlank(old(form.aName)) && !IsBlank(old(form.aCep)) ==>
                alert == None
                && areas == [NewArea(Uid("a", idSuffix), old(form), fetch)] + old(areas)
                && form == old(form).(aName := "", aCep := "", aStatus := "")
    {
      if IsBlank(form.aName) || IsBlank(form.aCep) {
        return Some(MissingAreaFields);
      }
      CreateArea(idSuffix, fetch);
      alert := None;
    }

    /** The accepted path of `addArea`: the status shows the lookup in
        progress, the area is built from the lookup's answer, put first, and
        the area inputs and status are cleared. */
    method CreateArea(idSuffix: string, fetch: string -> FetchReply)
      modifies this
      ensures areas == [NewArea(Uid("a", idSuffix), old(form), fetch)] + old(areas)
      ensures volunteers == old(volunteers) && donations == old(donations)
      ensures form == old(form).(aName := "", aCep := "", aStatus := "")
    {
      var a := NewArea(Uid("a", idSuffix), form, fetch);
      form := form.(aStatus := Consulting);
      CommitArea(a);
    }

    /** `setAreas(prev => [newA, ...prev])` and the clearing of the area
        inputs and status. */
    method CommitArea(a: Area)
      modifies this
      ensures areas == [a] + old(areas) && volunteers == old(volunteers) && donations == old(donations)
      ensures form == old(form).(aName := "", aCep := "", aStatus := "")
    {
      areas := [a] + areas;
      form := form.(aName := "", aCep := "", aStatus := "");
    }

    /** `addDonation`: a blank description or a quantity that is not
        positive is refused and nothing changes; otherwise the new donation is
        put first and the donation inputs are reset, the quantity to 1. */
    method AddDonation(idSuffix: string) returns (alert: Option<string>)
      modifies this
      ensures volunteers == old(volunteers) && areas == old(areas)
      ensures IsBlank(old(form.dDesc)) || old(form.dQty) <= 0 ==>
                alert == Some(MissingDonationFields) && donations == old(donations) && form == old(form)
      ensures !IsBlank(old(form.dDesc)) && old(form.dQty) > 0 ==>
                alert == None
                && donations == [NewDonation(Uid("d", idSuffix), old(form))] + old(donations)
                && form == old(form).(dDesc := "", dQty := 1, dArea := "")
    {
      if IsBlank(form.dDesc) || form.dQty <= 0 {
        return Some(MissingDonationFields);
      }
      CommitDonation(NewDonation(Uid("d", idSuffix), form));
      alert := None;
    }

    /** `setDonations(prev => [newD, ...prev])` and the reset of the donation
        inputs. */
    method CommitDonation(d: Donation)
      modifies this
      ensures donations == [d] + old(donations) && volunteers == old(volunteers) && areas == old(areas)
      ensures form == old(form).(dDesc := "", dQty := 1, dArea := "")
    {
      donations := [d] + donations;
      form := form.(dDesc := "", dQty := 1, dArea := "");
    }
  }

  // ---------------------------------------------------------------------------
  // The component's own CSV

  /** The component's headers: the export module's, with `areaId` for the
      area column and, for areas, two coordinate columns after them. */
  function LegacyCsvHeader(t: Exports.ExportType): (r: seq<string>)
    ensures t == Exports.Areas ==> r == Exports.CsvHeader(t) + ["lat", "lng"]
    ensures t != Exports.Areas ==> |r| == |Exports.CsvHeader(t)| && r[|r| - 1] == "areaId"
                                   && r[..|r| - 1] == Exports.CsvHeader(t)[..|r| - 1]
  {
    match t
    case Volunteers => ["id", "name", "phone", "email", "skills", "areaId"]
    case Areas => ["id", "name", "cep", "city", "state", "lat", "lng"]
    case Donations => ["id", "description", "quantity", "areaId"]
  }

  /** Cells of record `i`: the area reference itself rather than the area's
      name, and for areas two coordinate cells, empty because coordinates are
      not part of this model. */
  function LegacyCsvRecord(t: Exports.ExportType, vs: seq<Volunteer>, areas: seq<Area>, ds: seq<Donation>, i: nat): (r: seq<string>)
    requires i < Exports.RecordCount(t, vs, areas, ds)
    ensures |r| == |LegacyCsvHeader(t)|
  {
    match t
    case Volunteers =>
      var v := vs[i];
      [v.id, v.name, OrEmpty(v.phone), OrEmpty(v.email), OrEmpty(v.skills), OrEmpty(v.areaId)]
    case Areas =>
      var a := areas[i];
      [a.id, a.name, a.cep, OrEmpty(a.city), OrEmpty(a.state), "", ""]
    case Donations =>
      var d := ds[i];
      [d.id, d.description, IntToString(d.quantity), OrEmpty(d.areaId)]
  }

  /** `rows`: the header, then one row per record in list order. */
  function LegacyCsvRows(t: Exports.ExportType, vs: seq<Volunteer>, areas: seq<Area>, ds: seq<Donation>): (r: seq<seq<string>>)
    ensures |r| == Exports.RecordCount(t, vs, areas, ds) + 1
    ensures r[0] == LegacyCsvHeader(t)
    ensures forall i :: 0 <= i < Exports.RecordCount(t, vs, areas, ds) ==> r[i + 1] == LegacyCsvRecord(t, vs, areas, ds, i)
  {
    var n := Exports.RecordCount(t, vs, areas, ds);
    [LegacyCsvHeader(t)] + seq(n, i requires 0 <= i < n => LegacyCsvRecord(t, vs, areas, ds, i))
  }

  /** The CSV text of the component's `generateCSV`: the same quoting and
      joining as the export module. */
  function LegacyCsv(t: Exports.ExportType, vs: seq<Volunteer>, areas: seq<Area>, ds: seq<Donation>): (r: string)
    ensures RenderRow(LegacyCsvHeader(t)) <= r
    ensures Exports.RecordCount(t, vs, areas, ds) > 0 ==> RenderRow(LegacyCsvHeader(t)) + "\n" <= r
  {
    RenderTableFirstLine(LegacyCsvRows(t, vs, areas, ds));
    RenderTable(LegacyCsvRows(t, vs, areas, ds))
  }

  /** Reading the text back gives the header and one row per record. */
  lemma LegacyCsvRoundTrip(t: Exports.ExportType, vs: seq<Volunteer>, areas: seq<Area>, ds: seq<Donation>)
    ensures ParseTable(LegacyCsv(t, vs, areas, ds)) == Some(LegacyCsvRows(t, vs, areas, ds))
  {
    var rows := LegacyCsvRows(t, vs, areas, ds);
    assert forall k :: 0 <= k < |rows| ==> |rows[k]| > 0 by {
      assert |LegacyCsvHeader(t)| > 0;
    }
    ParseRender(rows);
  }

  /** Where the two schemas differ: the legacy rows repeat the export
      module's cells except that the last column holds the raw area
      reference (empty when absent) instead of the area's name, and area rows
      carry two extra cells. */
  lemma LegacyRowsAgainstExport(t: Exports.ExportType, vs: seq<Volunteer>, areas: seq<Area>, ds: seq<Donation>, i: nat)
    requires i < Exports.RecordCount(t, vs, areas, ds)
    ensures var legacy := LegacyCsvRecord(t, vs, areas, ds, i);
            var current := Exports.CsvRecord(t, vs, areas, ds, i);
            && (t == Exports.Areas ==> legacy == current + ["", ""])
            && (t == Exports.Volunteers ==> legacy[..5] == current[..5] && legacy[5] == OrEmpty(vs[i].areaId))
            && (t == Exports.Donations ==> legacy[..3] == current[..3] && legacy[3] == OrEmpty(ds[i].areaId))
  {
  }
}
