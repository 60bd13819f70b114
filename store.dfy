/**
 * The backend's state: the id counter and the proposal map, and what each
 * entry point that updates them does to the pair. Every update clones the
 * record, changes the clone and inserts it back under the same key; an error
 * leaves the state as it was.
 */
module Store {
  import opened Wrappers
  import opened Proposals

  datatype State = State(nextId: nat, store: map<nat, Proposal>)

  /** What an update entry point returns, and the state it leaves behind. */
  datatype Outcome = Outcome(reply: Result<Proposal, VoteError>, next: State)

  /** The state of a freshly installed backend: the counter starts at 0, the map empty. */
  const Init := State(0, map[])

  /** Every record is stored under its own id. */
  predicate Keyed(store: map<nat, Proposal>)
  {
    forall k :: k in store ==> store[k].id == k
  }

  /** The state invariant: records are keyed by their ids, and every id is below the counter. */
  predicate Valid(s: State)
  {
    Keyed(s.store) && forall k :: k in s.store ==> k < s.nextId
  }

  /** Writes a successful reply back under `id`; an error writes nothing. */
  function Commit(s: State, id: nat, reply: Result<Proposal, VoteError>): State
  {
    if reply.Success? then s.(store := s.store[id := reply.value]) else s
  }

  /**
   * `add_proposal`: the id handed out is the counter before the call (setting
   * the cell returns its previous value); the counter advances by one and the
   * new record is inserted under that id.
   */
  function AddStep(s: State, payload: ProposalPayload, caller: Principal, now: nat): (r: (Proposal, State))
    ensures r.0.id == s.nextId && r.1.nextId == s.nextId + 1
    ensures Valid(s) ==> s.nextId !in s.store
    ensures r.1.store == s.store[r.0.id := r.0]
    ensures r.0.owner == caller && r.0.createdAt == now
    ensures r.0.title == payload.title && r.0.description == payload.description
    ensures Tally(r.0) == 0 && !r.0.hasEnded && r.0.voted == [] && r.0.votes == []
    ensures Valid(s) ==> Valid(r.1)
  {
    var id := s.nextId;
    var p := Created(id, payload, caller, now);
    (p, State(id + 1, s.store[id := p]))
  }

  /** `cast_vote`: a missing id is `NotFound`; otherwise the record-level vote decides. */
  function VoteStep(s: State, id: nat, option: nat): (o: Outcome)
    ensures o.reply.Failure? <==> id !in s.store || OptionChoice(option).None?
    ensures id !in s.store ==> o.reply == Failure(NotFound(id))
    ensures id in s.store ==> o.reply == ApplyVote(s.store[id], option)
    ensures o.reply.Failure? ==> o.next == s
    ensures o.reply.Success? ==> o.next == s.(store := s.store[id := o.reply.value])
    ensures Valid(s) ==> Valid(o.next)
  {
    var reply := if id in s.store then ApplyVote(s.store[id], option) else Failure(NotFound(id));
    Outcome(reply, Commit(s, id, reply))
  }

  /** `edit_proposal`: a missing id is `NotFound`; otherwise the record-level edit decides. */
  function EditStep(s: State, payload: EditProposalPayload, caller: Principal): (o: Outcome)
    ensures o.reply.Failure? <==>
      payload.id !in s.store || s.store[payload.id].owner != caller || s.store[payload.id].hasEnded
    ensures payload.id !in s.store ==> o.reply == Failure(NotFound(payload.id))
    ensures payload.id in s.store ==> o.reply == ApplyEdit(s.store[payload.id], payload, caller)
    ensures o.reply.Failure? ==> o.next == s
    ensures o.reply.Success? ==> o.next == s.(store := s.store[payload.id := o.reply.value])
    ensures Valid(s) ==> Valid(o.next)
  {
    var reply :=
      if payload.id in s.store then ApplyEdit(s.store[payload.id], payload, caller)
      else Failure(NotFound(payload.id));
    Outcome(reply, Commit(s, payload.id, reply))
  }

  /** `end_proposal`: a missing id is `NotFound`; otherwise the record-level close decides. */
  function EndStep(s: State, id: nat, caller: Principal): (o: Outcome)
    ensures o.reply.Failure? <==> id !in s.store || s.store[id].owner != caller || s.store[id].hasEnded
    ensures id !in s.store ==> o.reply == Failure(NotFound(id))
    ensures id in s.store ==> o.reply == ApplyEnd(s.store[id], caller)
    ensures o.reply.Failure? ==> o.next == s
    ensures o.reply.Success? ==> o.next == s.(store := s.store[id := o.reply.value])
    ensures Valid(s) ==> Valid(o.next)
  {
    var reply := if id in s.store then ApplyEnd(s.store[id], caller) else Failure(NotFound(id));
    Outcome(reply, Commit(s, id, reply))
  }

  /**
   * The records whose ids lie in [lo, hi), in ascending id order: the order in
   * which a `BTreeMap` yields its entries.
   */
  function Ascending(store: map<nat, Proposal>, lo: nat, hi: nat): (r: seq<Proposal>)
    requires Keyed(store)
    ensures forall i, j :: 0 <= i < j < |r| ==> r[i].id < r[j].id
    ensures forall p :: p in r <==> p.id in store && lo <= p.id < hi && store[p.id] == p
    decreases hi - lo
  {
    if lo >= hi then []
    else if lo in store then
      var rest := Ascending(store, lo + 1, hi);
      assert forall i :: 0 <= i < |rest| ==> rest[i] in rest;
      [store[lo]] + rest
    else Ascending(store, lo + 1, hi)
  }
}
