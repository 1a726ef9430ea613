/** The area page of src/pages/Areas.tsx: the CEP search over the list, the
    new-area form and the delete button. The `alert` dialog is the message the
    handlers return; `confirm` is a boolean input. */
module AreasPage {
  import opened Text
  import opened Records
  import opened Api
  import opened Cep
  import AreaStore

  /** Areas whose CEP, digits only, contains `code`, in list order. */
  function KeepCepMatches(areas: seq<Area>, code: string): (r: seq<Area>)
    ensures |r| <= |areas|
    ensures forall a :: a in r <==> a in areas && Includes(Digits(a.cep), code)
  {
    if areas == [] then []
    else if Includes(Digits(areas[0].cep), code) then [areas[0]] + KeepCepMatches(areas[1..], code)
    else KeepCepMatches(areas[1..], code)
  }

  /** `filteredAreas`: a blank search shows every area; otherwise the areas
      whose CEP digits contain the search's digits. */
  function FilteredAreas(areas: seq<Area>, cepSearch: string): (r: seq<Area>)
    ensures IsBlank(cepSearch) ==> r == areas
    ensures !IsBlank(cepSearch) ==>
              forall a :: a in r <==> a in areas && Includes(Digits(a.cep), Digits(cepSearch))
  {
    if IsBlank(cepSearch) then areas else KeepCepMatches(areas, Digits(cepSearch))
  }

  lemma {:induction false} KeepCepMatchesAppend(s: seq<Area>, t: seq<Area>, code: string)
    ensures KeepCepMatches(s + t, code) == KeepCepMatches(s, code) + KeepCepMatches(t, code)
  {
    if s == [] {
      assert s + t == t;
    } else {
      assert (s + t)[1..] == s[1..] + t;
      KeepCepMatchesAppend(s[1..], t, code);
    }
  }

  /** The filter keeps the list order: filtering a concatenation is
      concatenating the filtered parts. */
  lemma FilterKeepsOrder(s: seq<Area>, t: seq<Area>, cepSearch: string)
    ensures FilteredAreas(s + t, cepSearch) == FilteredAreas(s, cepSearch) + FilteredAreas(t, cepSearch)
  {
    if !IsBlank(cepSearch) {
      KeepCepMatchesAppend(s, t, Digits(cepSearch));
    }
  }

  lemma {:induction false} KeepCepMatchesEmpty(areas: seq<Area>)
    ensures KeepCepMatches(areas, []) == areas
  {
    if areas != [] {
      IncludesEmpty(Digits(areas[0].cep));
      KeepCepMatchesEmpty(areas[1..]);
      assert [areas[0]] + areas[1..] == areas;
    }
  }

  /** A search without a single digit (say "abc") matches every area, since
      every CEP contains the empty string. */
  lemma SearchWithoutDigitsKeepsAll(areas: seq<Area>, cepSearch: string)
    requires Digits(cepSearch) == []
    ensures FilteredAreas(areas, cepSearch) == areas
  {
    KeepCepMatchesEmpty(areas);
  }

  /** The record posted for a new area: trimmed name and CEP, and the city
      and state of the lookup, absent when the lookup gave nothing. */
  function NewAreaDraft(name: string, cep: string, info: Option<ViaCepResponse>): (r: AreaDraft)
    ensures r.name == Trim(name) && r.cep == Trim(cep)
    ensures info.None? ==> r.city.None? && r.state.None?
    ensures info.Some? ==> r.city == Some(info.value.localidade) && r.state == Some(info.value.uf)
  {
    match info
    case None => AreaDraft(Trim(name), Trim(cep), None, None)
    case Some(data) => AreaDraft(Trim(name), Trim(cep), Some(data.localidade), Some(data.uf))
  }

  const MissingFields := "Preencha nome e CEP"
  const Consulting := "Consultando CEP..."
  const LookupFailed := "Erro ao consultar CEP"
  const SaveFallback := "Erro ao salvar área"

  class Form {
    var name: string
    var cep: string
    var status: string
    const store: AreaStore.Store

    constructor(store: AreaStore.Store)
      ensures this.store == store
      ensures name == "" && cep == "" && status == ""
    {
      this.store := store;
      name := "";
      cep := "";
      status := "";
    }

    /** `handleSubmit`. A blank name or CEP is refused before any lookup or
        request and nothing changes. Otherwise the form is saved. */
    method Submit(fetch: string -> FetchReply, post: AreaDraft -> ApiOutcome<Area>) returns (alert: Option<string>)
      modifies this, store
      ensures store.loading == old(store.loading)
      ensures IsBlank(old(name)) || IsBlank(old(cep)) ==>
                alert == Some(MissingFields)
                && name == old(name) && cep == old(cep) && status == old(status)
                && store.areas == old(store.areas) && store.error == old(store.error)
      ensures !IsBlank(old(name)) && !IsBlank(old(cep)) ==>
                var draft := NewAreaDraft(old(name), old(cep), LookupCep(old(cep), fetch));
                Saved(draft, post(draft), old(name), old(cep), old(store.areas), old(store.error), alert)
    {
      if IsBlank(name) || IsBlank(cep) {
        alert := Some(MissingFields);
        return;
      }
      var draft := NewAreaDraft(name, cep, LookupCep(cep, fetch));
      alert := Save(draft, post);
    }

    /** The outcome of saving `draft`: on success the posted area comes first
        in the list and the form is cleared; on failure the fields stay, the
        status reports the failure and the store's message is shown. */
    ghost predicate Saved(draft: AreaDraft, outcome: ApiOutcome<Area>, name0: string, cep0: string,
                          areas0: seq<Area>, error0: Option<string>, alert: Option<string>)
      reads this, store
    {
      && (outcome.Success? ==>
            store.areas == [outcome.data] + areas0 && store.error == error0
            && name == "" && cep == "" && status == "" && alert == None)
      && (outcome.Failure? ==>
            store.areas == areas0
            && store.error == Some(MessageOf(outcome.thrown, AreaStore.AddFallback))
            && name == name0 && cep == cep0 && status == LookupFailed
            && alert == store.error)
    }

    /** The part of `handleSubmit` after the check: post the area built from
        the form and the CEP lookup and update the form by the outcome. */
    method Save(draft: AreaDraft, post: AreaDraft -> ApiOutcome<Area>) returns (alert: Option<string>)
      modifies this, store
      ensures store.loading == old(store.loading)
      ensures Saved(draft, post(draft), old(name), old(cep), old(store.areas), old(store.error), alert)
    {
      status := Consulting;
      var r := store.Add(draft, post);
      match r {
        case Ok(_) =>
          name := "";
          cep := "";
          status := "";
          alert := None;
        case Err(m) =>
          status := LookupFailed;
          alert := Some(MessageOf(ErrorInstance(m), SaveFallback));
      }
    }

    /** `handleDelete`: nothing happens unless the user confirms; then the
        store deletes the area and a failure's message is shown. */
    method Delete(id: string, confirmed: bool, reply: ApiOutcome<()>) returns (alert: Option<string>)
      modifies store
      ensures store.loading == old(store.loading)
      ensures !confirmed ==> alert == None && store.areas == old(store.areas) && store.error == old(store.error)
      ensures confirmed && reply.Success? ==>
                alert == None && store.areas == AreaStore.RemoveId(old(store.areas), id)
                && store.error == old(store.error)
      ensures confirmed && reply.Failure? ==>
                store.areas == old(store.areas)
                && store.error == Some(MessageOf(reply.thrown, AreaStore.DeleteFallback))
                && alert == store.error
    {
      if !confirmed {
        return None;
      }
      var r := store.Delete(id, reply);
      match r {
        case Ok(_) => alert := None;
        case Err(m) => alert := Some(MessageOf(ErrorInstance(m), AreaStore.DeleteFallback));
      }
    }
  }
}
