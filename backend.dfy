/**
 * The backend canister: the id counter cell and the proposal map as fields,
 * and its six entry points. Each update clones a record out of the map,
 * changes the clone field by field and inserts it back, as the backend does;
 * each is proved to do exactly what the corresponding step of `Store` says.
 */
module Backend {
  import opened Wrappers
  import opened Proposals
  import opened Store

  class Canister {
    var nextId: nat
    var store: map<nat, Proposal>

    /** The counter and the map as one value. */
    function Snapshot(): State
      reads this
    {
      State(nextId, store)
    }

    ghost predicate Valid()
      reads this
    {
      Store.Valid(Snapshot())
    }

    constructor ()
      ensures Valid() && Snapshot() == Init
    {
      nextId := 0;
      store := map[];
    }

    method AddProposal(payload: ProposalPayload, caller: Principal, now: nat) returns (p: Proposal)
      requires Valid()
      modifies this
      ensures Valid()
      ensures (p, Snapshot()) == AddStep(old(Snapshot()), payload, caller, now)
      ensures p.id == old(nextId) && p.id !in old(store)
    {
      // Setting the counter cell hands back the value it held before.
      var previous := nextId;
      nextId := previous + 1;
      var id := previous;
      p := Proposal(
        id := id,
        title := payload.title,
        description := payload.description,
        approve := 0,
        reject := 0,
        pass := 0,
        votes := [],
        createdAt := now,
        owner := caller,
        voted := [],
        hasEnded := false);
      store := store[id := p];
    }

    method CastVote(id: nat, option: nat) returns (r: Result<Proposal, VoteError>)
      requires Valid()
      modifies this
      ensures Valid()
      ensures Outcome(r, Snapshot()) == VoteStep(old(Snapshot()), id, option)
      ensures r.Failure? ==> unchanged(this)
    {
      if id in store {
        var proposal := store[id];
        if option == 0 {
          proposal := proposal.(approve := proposal.approve + 1);
          store := store[id := proposal];
          r := Success(proposal);
        } else if option == 1 {
          proposal := proposal.(reject := proposal.reject + 1);
          store := store[id := proposal];
          r := Success(proposal);
        } else if option == 2 {
          proposal := proposal.(pass := proposal.pass + 1);
          store := store[id := proposal];
          r := Success(proposal);
        } else if option == 3 {
          proposal := proposal.(pass := proposal.pass + 1);
          store := store[id := proposal];
          r := Success(proposal);
        } else {
          r := Failure(InvalidOption(option));
        }
      } else {
        r := Failure(NotFound(id));
      }
    }

    /** `get_proposal`: a copy of the stored record, or `NotFound`. */
    function GetProposal(id: nat): (r: Result<Proposal, VoteError>)
      reads this
      ensures r.Success? <==> id in store
      ensures r.Success? ==> r.value == store[id]
      ensures r.Failure? ==> r.error == NotFound(id)
    {
      if id in store then Success(store[id]) else Failure(NotFound(id))
    }

    /** `get_all_proposals`: every stored record, once each, in ascending id order. */
    function GetAllProposals(): (r: seq<Proposal>)
      reads this
      requires Valid()
      ensures forall i, j :: 0 <= i < j < |r| ==> r[i].id < r[j].id
      ensures forall p :: p in r <==> p in store.Values
    {
      var r := Ascending(store, 0, nextId);
      assert forall p :: p in store.Values ==> p.id in store && store[p.id] == p;
      r
    }

    method EditProposal(payload: EditProposalPayload, caller: Principal) returns (r: Result<Proposal, VoteError>)
      requires Valid()
      modifies this
      ensures Valid()
      ensures Outcome(r, Snapshot()) == EditStep(old(Snapshot()), payload, caller)
      ensures r.Failure? ==> unchanged(this)
    {
      if payload.id in store {
        var proposal := store[payload.id];
        if proposal.owner != caller {
          return Failure(Unauthorized(NotOwnerEditMsg));
        }
        if proposal.hasEnded {
          return Failure(Unauthorized(EndedEditMsg));
        }
        if payload.title.Some? {
          proposal := proposal.(title := payload.title.value);
        }
        if payload.description.Some? {
          proposal := proposal.(description := payload.description.value);
        }
        proposal := proposal.(reject := 0);
        proposal := proposal.(approve := 0);
        proposal := proposal.(pass := 0);
        store := store[payload.id := proposal];
        r := Success(proposal);
      } else {
        r := Failure(NotFound(payload.id));
      }
    }

    method EndProposal(id: nat, caller: Principal) returns (r: Result<Proposal, VoteError>)
      requires Valid()
      modifies this
      ensures Valid()
      ensures Outcome(r, Snapshot()) == EndStep(old(Snapshot()), id, caller)
      ensures r.Failure? ==> unchanged(this)
    {
      if id in store {
        var proposal := store[id];
        if proposal.owner != caller {
          return Failure(Unauthorized(NotOwnerEndMsg));
        }
        if proposal.hasEnded {
          return Failure(Unauthorized(AlreadyEndedMsg));
        }
        proposal := proposal.(hasEnded := true);
        store := store[id := proposal];
        r := Success(proposal);
      } else {
        r := Failure(NotFound(id));
      }
    }
  }
}
