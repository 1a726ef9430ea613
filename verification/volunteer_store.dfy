/** The volunteer collection hook of src/hooks/useVolunteers.ts: the list,
    the loading flag and the last error message, with its load and add
    transitions. Each backend call is supplied as its settled outcome. */
module VolunteerStore {
  import opened Records
  import opened Api

  const LoadFallback := "Erro ao carregar voluntários"
  const AddFallback := "Erro ao adicionar voluntário"

  class Store {
    var volunteers: seq<Volunteer>
    var loading: bool
    var error: Option<string>

    /** The state the hook starts in. */
    constructor()
      ensures volunteers == [] && loading && error == None
    {
      volunteers := [];
      loading := true;
      error := None;
    }

    /** `loadVolunteers`: a successful fetch replaces the list and clears the
        error; a failed one keeps the list and records the message. Loading
        is over either way. */
    method Load(reply: ApiOutcome<seq<Volunteer>>)
      modifies this
      ensures reply.Success? ==> volunteers == reply.data && error == None
      ensures reply.Failure? ==> volunteers == old(volunteers)
                                 && error == Some(MessageOf(reply.thrown, LoadFallback))
      ensures !loading
    {
      loading := true;
      error := None;
      match reply {
        case Success(data) =>
          volunteers := data;
        case Failure(thrown) =>
          error := Some(MessageOf(thrown, LoadFallback));
      }
      loading := false;
    }

    /** `addVolunteer`: posts the draft; the saved volunteer is put first and
        returned. On failure the list is kept, the error recorded and the
        same message rethrown. */
    method Add(draft: VolunteerDraft, post: VolunteerDraft -> ApiOutcome<Volunteer>) returns (r: Result<Volunteer>)
      modifies this
      ensures loading == old(loading)
      ensures post(draft).Success? ==>
                volunteers == [post(draft).data] + old(volunteers) && error == old(error)
                && r == Ok(post(draft).data)
      ensures post(draft).Failure? ==>
                var msg := MessageOf(post(draft).thrown, AddFallback);
                volunteers == old(volunteers) && error == Some(msg) && r == Err(msg)
    {
      match post(draft) {
        case Success(saved) =>
          volunteers := [saved] + volunteers;
          r := Ok(saved);
        case Failure(thrown) =>
          var msg := MessageOf(thrown, AddFallback);
          error := Some(msg);
          r := Err(msg);
      }
    }
  }
}
