/** The volunteer page of src/pages/Volunteers.tsx: the new-volunteer form,
    the area picker and the area shown beside each volunteer (the picker and
    the label are `Records.AreaOptions` and `Records.AreaLabel`). The `alert`
    dialog is the message the handler returns. */
module VolunteersPage {
  import opened Text
  import opened Records
  import opened Api
  import VolunteerStore

  /** `x.trim() || undefined`: the trimmed text, or absent when it is empty. */
  function OptionalField(s: string): (r: Option<string>)
    ensures r.None? <==> IsBlank(s)
    ensures r.Some? ==> r.value == Trim(s) && r.value != ""
  {
    if Trim(s) == [] then None else Some(Trim(s))
  }

  /** The text fields of the form. */
  datatype Fields = Fields(name: string, phone: string, email: string, skills: string, area: string)

  const Cleared := Fields("", "", "", "", "")

  /** The record posted for a new volunteer: trimmed name, the optional
      fields trimmed and absent when empty, and no area when none is
      selected. */
  function NewVolunteerDraft(f: Fields): (r: VolunteerDraft)
    ensures r.name == Trim(f.name)
    ensures r.phone == OptionalField(f.phone) && r.email == OptionalField(f.email)
            && r.skills == OptionalField(f.skills)
    ensures r.areaId == SelectedArea(f.area)
  {
    VolunteerDraft(Trim(f.name), OptionalField(f.phone), OptionalField(f.email),
                   OptionalField(f.skills), SelectedArea(f.area))
  }

  /** A posted volunteer never carries an empty optional text, and is linked
      to an area exactly when one was selected. */
  lemma DraftHasNoEmptyFields(f: Fields)
    ensures var d := NewVolunteerDraft(f);
            && d.phone != Some("") && d.email != Some("") && d.skills != Some("")
            && (IsLinked(d.areaId) <==> f.area != "")
  {
  }

  const MissingName := "Informe o nome do voluntário"
  const SaveFallback := "Erro ao salvar voluntário"

  class Form {
    var name: string
    var phone: string
    var email: string
    var skills: string
    var area: string
    const store: VolunteerStore.Store

    constructor(store: VolunteerStore.Store)
      ensures this.store == store && Current() == Cleared
    {
      this.store := store;
      name, phone, email, skills, area := "", "", "", "", "";
    }

    function Current(): Fields
      reads this
    {
      Fields(name, phone, email, skills, area)
    }

    /** The outcome of saving `draft`: on success the saved volunteer comes
        first and the form is cleared; on failure the fields stay and the
        store's message is shown. */
    ghost predicate Saved(outcome: ApiOutcome<Volunteer>, fields0: Fields,
                          list0: seq<Volunteer>, error0: Option<string>, alert: Option<string>)
      reads this, store
    {
      && (outcome.Success? ==>
            store.volunteers == [outcome.data] + list0 && store.error == error0
            && Current() == Cleared && alert == None)
      && (outcome.Failure? ==>
            store.volunteers == list0
            && store.error == Some(MessageOf(outcome.thrown, VolunteerStore.AddFallback))
            && Current() == fields0 && alert == store.error)
    }

    /** `handleSubmit`: a blank name is refused before any request and
        nothing changes; otherwise the volunteer built from the form is
        saved. */
    method Submit(post: VolunteerDraft -> ApiOutcome<Volunteer>) returns (alert: Option<string>)
      modifies this, store
      ensures store.loading == old(store.loading)
      ensures IsBlank(old(name)) ==>
                alert == Some(MissingName) && Current() == old(Current())
                && store.volunteers == old(store.volunteers) && store.error == old(store.error)
      ensures !IsBlank(old(name)) ==>
                var draft := NewVolunteerDraft(old(Current()));
                Saved(post(draft), old(Current()), old(store.volunteers), old(store.error), alert)
    {
      if IsBlank(name) {
        alert := Some(MissingName);
        return;
      }
      alert := Save(NewVolunteerDraft(Current()), post);
    }

    /** The part of `handleSubmit` after the check. */
    method Save(draft: VolunteerDraft, post: VolunteerDraft -> ApiOutcome<Volunteer>) returns (alert: Option<string>)
      modifies this, store
      ensures store.loading == old(store.loading)
      ensures Saved(post(draft), old(Current()), old(store.volunteers), old(store.error), alert)
    {
      var r := store.Add(draft, post);
      match r {
        case Ok(_) =>
          name, phone, email, skills, area := "", "", "", "", "";
          alert := None;
        case Err(m) =>
          alert := Some(MessageOf(ErrorInstance(m), SaveFallback));
      }
    }
  }
}
