/** The three record kinds, with the fields the dashboard's logic reads
    (src/App.tsx:5-29), and the lookups shared by the pages and exports. */
module Records {
  import opened Text

  /** `T | undefined` (and `T | null`, which the code treats the same way). */
  datatype Option<+T> = None | Some(value: T)

  datatype Volunteer = Volunteer(
    id: string,
    name: string,
    phone: Option<string>,
    email: Option<string>,
    skills: Option<string>,
    areaId: Option<string>)

  /** An area. Its optional latitude/longitude are floats used only by the map
      and are not part of this model. */
  datatype Area = Area(
    id: string,
    name: string,
    cep: string,
    city: Option<string>,
    state: Option<string>)

  /** A donation; `quantity` is the JavaScript number, taken to be an integer. */
  datatype Donation = Donation(
    id: string,
    description: string,
    quantity: int,
    areaId: Option<string>)

  /** The bodies posted to the backend: a record without its `id`
      (`Omit<X, 'id'>`), which the backend assigns. */
  datatype VolunteerDraft = VolunteerDraft(
    name: string,
    phone: Option<string>,
    email: Option<string>,
    skills: Option<string>,
    areaId: Option<string>)

  datatype AreaDraft = AreaDraft(
    name: string,
    cep: string,
    city: Option<string>,
    state: Option<string>)

  datatype DonationDraft = DonationDraft(
    description: string,
    quantity: int,
    areaId: Option<string>)

  /** `x || ''` for an optional text field: absent renders as the empty string. */
  function OrEmpty(x: Option<string>): (r: string)
    ensures x.Some? ==> r == x.value
    ensures x.None? ==> r == ""
  {
    match x
    case None => ""
    case Some(s) => s
  }

  /** JavaScript truthiness of an `areaId`: present and not the empty string. */
  predicate IsLinked(areaId: Option<string>): (r: bool)
    ensures r <==> areaId !in {None, Some("")}
  {
    areaId.Some? && areaId.value != ""
  }

  /** `a.id === ref`: an absent reference never equals an area's id. */
  predicate RefersTo(ref: Option<string>, a: Area): (r: bool)
    ensures ref.None? ==> !r
    ensures r ==> ref.value == a.id
    ensures r ==> IsLinked(ref) || a.id == ""
  {
    ref == Some(a.id)
  }

  /** Index of the area `areas.find(a => a.id === ref)` returns, if any: the
      first one whose id equals `ref`. */
  function FindAreaIndex(areas: seq<Area>, ref: Option<string>): (r: Option<nat>)
    ensures r.Some? ==> r.value < |areas| && RefersTo(ref, areas[r.value])
                        && forall j :: 0 <= j < r.value ==> !RefersTo(ref, areas[j])
    ensures r.None? <==> forall j :: 0 <= j < |areas| ==> !RefersTo(ref, areas[j])
  {
    if areas == [] then None
    else if RefersTo(ref, areas[0]) then Some(0)
    else
      match FindAreaIndex(areas[1..], ref)
      case None => None
      case Some(i) => Some(i + 1)
  }

  /** `areas.find(a => a.id === ref)?.name || fallback`: the name of the first
      area whose id is `ref`, or `fallback` when there is none or its name is
      empty (the empty string is falsy). */
  function AreaNameOr(areas: seq<Area>, ref: Option<string>, fallback: string): (r: string)
    ensures ref.None? ==> r == fallback
    ensures (forall j :: 0 <= j < |areas| ==> !RefersTo(ref, areas[j])) ==> r == fallback
    ensures forall i :: 0 <= i < |areas| && RefersTo(ref, areas[i])
                        && (forall j :: 0 <= j < i ==> !RefersTo(ref, areas[j]))
                        ==> r == if areas[i].name != "" then areas[i].name else fallback
  {
    match FindAreaIndex(areas, ref)
    case None => fallback
    case Some(i) => if areas[i].name != "" then areas[i].name else fallback
  }

  /** What the lists and the PDF show for an unlinked or unknown area. */
  const Placeholder := "—"

  /** `area?.name || '—'` in the volunteer and donation lists: the name of
      the first area whose id is `ref`, or the placeholder when there is no
      such area or its name is empty. The label is never empty. */
  function AreaLabel(areas: seq<Area>, ref: Option<string>): (r: string)
    ensures r != ""
    ensures (forall j :: 0 <= j < |areas| ==> !RefersTo(ref, areas[j])) ==> r == Placeholder
    ensures forall i :: 0 <= i < |areas| && RefersTo(ref, areas[i])
                        && (forall j :: 0 <= j < i ==> !RefersTo(ref, areas[j]))
                        ==> r == if areas[i].name != "" then areas[i].name else Placeholder
  {
    AreaNameOr(areas, ref, Placeholder)
  }

  /** One entry of an area `<Select>`: the value posted and the text shown. */
  datatype SelectOption = SelectOption(value: string, caption: string)

  const NoAreaLabel := "— Nenhuma —"

  /** The area picker of the volunteer and donation forms: a leading "none"
      option with value '' and then one option per area, in list order,
      labelled `name • cep`. */
  function AreaOptions(areas: seq<Area>): (r: seq<SelectOption>)
    ensures |r| == |areas| + 1
    ensures r[0] == SelectOption("", NoAreaLabel)
    ensures forall i :: 0 <= i < |areas| ==>
              r[i + 1] == SelectOption(areas[i].id, areas[i].name + " • " + areas[i].cep)
  {
    [SelectOption("", NoAreaLabel)]
      + seq(|areas|, i requires 0 <= i < |areas| => SelectOption(areas[i].id, areas[i].name + " • " + areas[i].cep))
  }

  /** `x || null` for the selected area: the empty selection means no area. */
  function SelectedArea(selected: string): (r: Option<string>)
    ensures r.None? <==> selected == ""
    ensures r.Some? ==> r.value == selected
  {
    if selected == "" then None else Some(selected)
  }

  /** Choosing an option of the picker and reading it back through
      `SelectedArea` gives no area for the leading option and the area's id
      otherwise. */
  lemma SelectOptionRoundTrip(areas: seq<Area>, k: nat)
    requires k < |areas| + 1
    requires forall i :: 0 <= i < |areas| ==> areas[i].id != ""
    ensures var ref := SelectedArea(AreaOptions(areas)[k].value);
            (k == 0 ==> ref.None?) && (k > 0 ==> RefersTo(ref, areas[k - 1]))
  {
  }
}
