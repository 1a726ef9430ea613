/** The donation page of src/pages/Donations.tsx: the new-donation form, the
    area picker and the area shown beside each donation (the picker and the
    label are `Records.AreaOptions` and `Records.AreaLabel`). The `alert`
    dialog is the message the handler returns. */
module DonationsPage {
  import opened Text
  import opened Records
  import opened Api
  import DonationStore

  /** The fields of the form; the quantity input holds a number. */
  datatype Fields = Fields(description: string, quantity: int, area: string)

  /** The form after a donation is saved: quantity back to 1. */
  const Cleared := Fields("", 1, "")

  /** A submission is refused when the description is blank or the quantity
      is not positive. */
  predicate Rejected(f: Fields): (r: bool)
    ensures r <==> AllWhitespace(f.description) || f.quantity <= 0
  {
    BlankIff(f.description);
    IsBlank(f.description) || f.quantity <= 0
  }

  /** The record posted for a new donation: trimmed description, the
      quantity as entered and no area when none is selected. */
  function NewDonationDraft(f: Fields): (r: DonationDraft)
    ensures r.description == Trim(f.description) && r.quantity == f.quantity
    ensures r.areaId == SelectedArea(f.area)
  {
    DonationDraft(Trim(f.description), f.quantity, SelectedArea(f.area))
  }

  /** Whatever is posted has a description that is not empty and a positive
      quantity. */
  lemma AcceptedDraftIsWellFormed(f: Fields)
    requires !Rejected(f)
    ensures var d := NewDonationDraft(f);
            d.description != "" && d.quantity > 0 && (IsLinked(d.areaId) <==> f.area != "")
  {
  }

  const MissingFields := "Informe a doação e quantidade"
  const SaveFallback := "Erro ao salvar doação"

  class Form {
    var description: string
    var quantity: int
    var area: string
    const store: DonationStore.Store

    constructor(store: DonationStore.Store)
      ensures this.store == store && Current() == Cleared
    {
      this.store := store;
      description, quantity, area := "", 1, "";
    }

    function Current(): Fields
      reads this
    {
      Fields(description, quantity, area)
    }

    /** The outcome of saving: on success the saved donation comes first and
        the form is reset; on failure the fields stay and the store's message
        is shown. */
    ghost predicate Saved(outcome: ApiOutcome<Donation>, fields0: Fields,
                          list0: seq<Donation>, error0: Option<string>, alert: Option<string>)
      reads this, store
    {
      && (outcome.Success? ==>
            store.donations == [outcome.data] + list0 && store.error == error0
            && Current() == Cleared && alert == None)
      && (outcome.Failure? ==>
            store.donations == list0
            && store.error == Some(MessageOf(outcome.thrown, DonationStore.AddFallback))
            && Current() == fields0 && alert == store.error)
    }

    /** `handleSubmit`: a blank description or a quantity that is not
        positive is refused before any request and nothing changes;
        otherwise the donation built from the form is saved. */
    method Submit(post: DonationDraft -> ApiOutcome<Donation>) returns (alert: Option<string>)
      modifies this, store
      ensures store.loading == old(store.loading)
      ensures Rejected(old(Current())) ==>
                alert == Some(MissingFields) && Current() == old(Current())
                && store.donations == old(store.donations) && store.error == old(store.error)
      ensures !Rejected(old(Current())) ==>
                var draft := NewDonationDraft(old(Current()));
                Saved(post(draft), old(Current()), old(store.donations), old(store.error), alert)
    {
      if Rejected(Current()) {
        alert := Some(MissingFields);
        return;
      }
      alert := Save(NewDonationDraft(Current()), post);
    }

    /** The part of `handleSubmit` after the check. */
    method Save(draft: DonationDraft, post: DonationDraft -> ApiOutcome<Donation>) returns (alert: Option<string>)
      modifies this, store
      ensures store.loading == old(store.loading)
      ensures Saved(post(draft), old(Current()), old(store.donations), old(store.error), alert)
    {
      var r := store.Add(draft, post);
      match r {
        case Ok(_) =>
          description, quantity, area := "", 1, "";
          alert := None;
        case Err(m) =>
          alert := Some(MessageOf(ErrorInstance(m), SaveFallback));
      }
    }
  }
}
