/** The donation collection hook of src/hooks/useDonations.ts: the list,
    the loading flag and the last error message, with its load and add
    transitions. Each backend call is supplied as its settled outcome. */
module DonationStore {
  import opened Records
  import opened Api

  const LoadFallback := "Erro ao carregar doações"
  const AddFallback := "Erro ao adicionar doação"

  class Store {
    var donations: seq<Donation>
    var loading: bool
    var error: Option<string>

    /** The state the hook starts in. */
    constructor()
      ensures donations == [] && loading && error == None
    {
      donations := [];
      loading := true;
      error := None;
    }

    /** `loadDonations`: a successful fetch replaces the list and clears the
        error; a failed one keeps the list and records the message. Loading
        is over either way. */
    method Load(reply: ApiOutcome<seq<Donation>>)
      modifies this
      ensures reply.Success? ==> donations == reply.data && error == None
      ensures reply.Failure? ==> donations == old(donations)
                                 && error == Some(MessageOf(reply.thrown, LoadFallback))
      ensures !loading
    {
      loading := true;
      error := None;
      match reply {
        case Success(data) =>
          donations := data;
        case Failure(thrown) =>
          error := Some(MessageOf(thrown, LoadFallback));
      }
      loading := false;
    }

    /** `addDonation`: posts the draft; the saved donation is put first and
        returned. On failure the list is kept, the error recorded and the
        same message rethrown. */
    method Add(draft: DonationDraft, post: DonationDraft -> ApiOutcome<Donation>) returns (r: Result<Donation>)
      modifies this
      ensures loading == old(loading)
      ensures post(draft).Success? ==>
                donations == [post(draft).data] + old(donations) && error == old(error)
                && r == Ok(post(draft).data)
      ensures post(draft).Failure? ==>
                var msg := MessageOf(post(draft).thrown, AddFallback);
                donations == old(donations) && error == Some(msg) && r == Err(msg)
    {
      match post(draft) {
        case Success(saved) =>
          donations := [saved] + donations;
          r := Ok(saved);
        case Failure(thrown) =>
          var msg := MessageOf(thrown, AddFallback);
          error := Some(msg);
          r := Err(msg);
      }
    }
  }
}
