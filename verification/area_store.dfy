/** The area collection hook of src/hooks/useAreas.ts: the list, the loading
    flag and the last error message, with its load, add and delete
    transitions. Each backend call is supplied as its settled outcome. */
module AreaStore {
  import opened Records
  import opened Api

  const LoadFallback := "Erro ao carregar áreas"
  const AddFallback := "Erro ao adicionar área"
  const DeleteFallback := "Erro ao excluir área"

  /** `prev.filter(a => a.id !== id)`. */
  function RemoveId(s: seq<Area>, id: string): (r: seq<Area>)
    ensures |r| <= |s|
    ensures forall a :: a in r <==> a in s && a.id != id
  {
    if s == [] then []
    else if s[0].id != id then [s[0]] + RemoveId(s[1..], id)
    else RemoveId(s[1..], id)
  }

  /** Filtering distributes over concatenation, so the areas that remain keep
      their relative order. */
  lemma {:induction false} RemoveIdAppend(s: seq<Area>, t: seq<Area>, id: string)
    ensures RemoveId(s + t, id) == RemoveId(s, id) + RemoveId(t, id)
  {
    if s == [] {
      assert s + t == t;
    } else {
      assert (s + t)[1..] == s[1..] + t;
      RemoveIdAppend(s[1..], t, id);
    }
  }

  /** Deleting an id no area carries leaves the list as it was. */
  lemma {:induction false} RemoveAbsentId(s: seq<Area>, id: string)
    requires forall k :: 0 <= k < |s| ==> s[k].id != id
    ensures RemoveId(s, id) == s
  {
    if s != [] {
      RemoveAbsentId(s[1..], id);
      assert [s[0]] + s[1..] == s;
    }
  }

  /** Deleting twice is deleting once. */
  lemma {:induction false} RemoveIdIdempotent(s: seq<Area>, id: string)
    ensures RemoveId(RemoveId(s, id), id) == RemoveId(s, id)
  {
    var r := RemoveId(s, id);
    forall k | 0 <= k < |r| ensures r[k].id != id {
      assert r[k] in r;
    }
    RemoveAbsentId(r, id);
  }

  /** Deleting a freshly added area whose id was new gives back the list
      from before the addition. */
  lemma DeleteUndoesAdd(saved: Area, s: seq<Area>)
    requires forall k :: 0 <= k < |s| ==> s[k].id != saved.id
    ensures RemoveId([saved] + s, saved.id) == s
  {
    RemoveIdAppend([saved], s, saved.id);
    RemoveAbsentId(s, saved.id);
  }

  class Store {
    var areas: seq<Area>
    var loading: bool
    var error: Option<string>

    /** The state the hook starts in. */
    constructor()
      ensures areas == [] && loading && error == None
    {
      areas := [];
      loading := true;
      error := None;
    }

    /** `loadAreas`: a successful fetch replaces the list and clears the
        error; a failed one keeps the list and records the message. Loading
        is over either way. */
    method Load(reply: ApiOutcome<seq<Area>>)
      modifies this
      ensures reply.Success? ==> areas == reply.data && error == None
      ensures reply.Failure? ==> areas == old(areas)
                                 && error == Some(MessageOf(reply.thrown, LoadFallback))
      ensures !loading
    {
      loading := true;
      error := None;
      match reply {
        case Success(data) =>
          areas := data;
        case Failure(thrown) =>
          error := Some(MessageOf(thrown, LoadFallback));
      }
      loading := false;
    }

    /** `addArea`: posts the draft; the saved area is put first and returned.
        On failure the list is kept, the error recorded and the same message
        rethrown. */
    method Add(draft: AreaDraft, post: AreaDraft -> ApiOutcome<Area>) returns (r: Result<Area>)
      modifies this
      ensures loading == old(loading)
      ensures post(draft).Success? ==>
                areas == [post(draft).data] + old(areas) && error == old(error)
                && r == Ok(post(draft).data)
      ensures post(draft).Failure? ==>
                var msg := MessageOf(post(draft).thrown, AddFallback);
                areas == old(areas) && error == Some(msg) && r == Err(msg)
    {
      match post(draft) {
        case Success(saved) =>
          areas := [saved] + areas;
          r := Ok(saved);
        case Failure(thrown) =>
          var msg := MessageOf(thrown, AddFallback);
          error := Some(msg);
          r := Err(msg);
      }
    }

    /** `deleteArea`: once the backend has deleted the area, every area with
        that id leaves the list and the others keep their order. On failure
        the list is kept, the error recorded and the message rethrown.
        Volunteers and donations that refer to the id are not touched. */
    method Delete(id: string, reply: ApiOutcome<()>) returns (r: Result<()>)
      modifies this
      ensures loading == old(loading)
      ensures reply.Success? ==> areas == RemoveId(old(areas), id) && error == old(error) && r == Ok(())
      ensures reply.Failure? ==>
                var msg := MessageOf(reply.thrown, DeleteFallback);
                areas == old(areas) && error == Some(msg) && r == Err(msg)
    {
      match reply {
        case Success(_) =>
          areas := RemoveId(areas, id);
          r := Ok(());
        case Failure(thrown) =>
          var msg := MessageOf(thrown, DeleteFallback);
          error := Some(msg);
          r := Err(msg);
      }
    }
  }
}
