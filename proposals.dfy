/**
 * The proposal record, the payloads the entry points take, the error kinds
 * they return, and the change each entry point makes to one record once it
 * has been cloned out of the store.
 */
module Proposals {
  import opened Wrappers

  /** A caller identity (an Internet Computer principal); only ever compared with `==`. */
  datatype Principal = Principal(bytes: seq<bv8>)

  datatype Proposal = Proposal(
    id: nat,
    title: string,
    description: string,
    approve: nat,
    reject: nat,
    pass: nat,
    votes: seq<nat>,
    createdAt: nat,
    owner: Principal,
    voted: seq<Principal>,
    hasEnded: bool)

  /**
   * The three error kinds. `NotFound` and `InvalidOption` keep the id and the
   * index their messages are formatted from; `Unauthorized` keeps its fixed message.
   */
  datatype VoteError =
    | NotFound(id: nat)
    | InvalidOption(index: nat)
    | Unauthorized(msg: string)

  datatype ProposalPayload = ProposalPayload(title: string, description: string)

  datatype EditProposalPayload = EditProposalPayload(
    id: nat,
    title: Option<string>,
    description: Option<string>,
    options: Option<seq<string>>)

  const NotOwnerEditMsg := "Only the owner can edit the proposal"
  const EndedEditMsg := "Cannot edit an ended proposal"
  const NotOwnerEndMsg := "Only the owner can end the proposal"
  const AlreadyEndedMsg := "Proposal is already ended"

  /** The three counters a vote can go to. */
  datatype Choice = Approve | Reject | Pass

  /** The published meaning of a vote option index: 0 approves, 1 rejects, 2 and 3 both pass. */
  function OptionChoice(option: nat): Option<Choice>
  {
    match option
    case 0 => Some(Approve)
    case 1 => Some(Reject)
    case 2 => Some(Pass)
    case 3 => Some(Pass)
    case _ => None
  }

  function Count(p: Proposal, c: Choice): nat
  {
    match c
    case Approve => p.approve
    case Reject => p.reject
    case Pass => p.pass
  }

  /** Number of votes counted on the record. */
  function Tally(p: Proposal): nat
  {
    p.approve + p.reject + p.pass
  }

  /** `q` differs from `p` at most in its three counters. */
  predicate SameExceptCounters(p: Proposal, q: Proposal)
  {
    q.(approve := p.approve, reject := p.reject, pass := p.pass) == p
  }

  /** The record `add_proposal` builds under a freshly allocated id. */
  function Created(id: nat, payload: ProposalPayload, caller: Principal, now: nat): Proposal
  {
    Proposal(
      id := id,
      title := payload.title,
      description := payload.description,
      approve := 0,
      reject := 0,
      pass := 0,
      votes := [],
      createdAt := now,
      owner := caller,
      voted := [],
      hasEnded := false)
  }

  /**
   * `cast_vote` on a record that exists: the counter the option selects goes
   * up by one; an index outside 0..3 is rejected. Neither the caller, the
   * voter list nor `hasEnded` is consulted.
   */
  function ApplyVote(p: Proposal, option: nat): (r: Result<Proposal, VoteError>)
    ensures r.Failure? <==> OptionChoice(option).None?
    ensures r.Failure? ==> r.error == InvalidOption(option)
    ensures r.Success? ==> SameExceptCounters(p, r.value) && Tally(r.value) == Tally(p) + 1
    ensures r.Success? ==>
      forall c :: Count(r.value, c) == Count(p, c) + (if OptionChoice(option) == Some(c) then 1 else 0)
  {
    if option == 0 then Success(p.(approve := p.approve + 1))
    else if option == 1 then Success(p.(reject := p.reject + 1))
    else if option == 2 then Success(p.(pass := p.pass + 1))
    else if option == 3 then Success(p.(pass := p.pass + 1))
    else Failure(InvalidOption(option))
  }

  /**
   * `edit_proposal` on a record that exists: only the owner may edit, and only
   * before the proposal has ended (the owner check comes first). A successful
   * edit takes each given text field and zeroes all three counters.
   */
  function ApplyEdit(p: Proposal, payload: EditProposalPayload, caller: Principal): (r: Result<Proposal, VoteError>)
    ensures r.Failure? <==> p.owner != caller || p.hasEnded
    ensures p.owner != caller ==> r == Failure(Unauthorized(NotOwnerEditMsg))
    ensures p.owner == caller && p.hasEnded ==> r == Failure(Unauthorized(EndedEditMsg))
    ensures r.Success? ==> Tally(r.value) == 0 && !r.value.hasEnded
    ensures r.Success? && payload.title.Some? ==> r.value.title == payload.title.value
    ensures r.Success? && payload.title.None? ==> r.value.title == p.title
    ensures r.Success? && payload.description.Some? ==> r.value.description == payload.description.value
    ensures r.Success? && payload.description.None? ==> r.value.description == p.description
    ensures r.Success? ==>
      r.value.(title := p.title, description := p.description,
               approve := p.approve, reject := p.reject, pass := p.pass) == p
  {
    if p.owner != caller then Failure(Unauthorized(NotOwnerEditMsg))
    else if p.hasEnded then Failure(Unauthorized(EndedEditMsg))
    else
      var title := match payload.title case Some(t) => t case None => p.title;
      var description := match payload.description case Some(d) => d case None => p.description;
      Success(p.(title := title, description := description, reject := 0, approve := 0, pass := 0))
  }

  /**
   * `end_proposal` on a record that exists: only the owner may end it, and
   * only once. Success sets `hasEnded` and nothing else.
   */
  function ApplyEnd(p: Proposal, caller: Principal): (r: Result<Proposal, VoteError>)
    ensures r.Failure? <==> p.owner != caller || p.hasEnded
    ensures p.owner != caller ==> r == Failure(Unauthorized(NotOwnerEndMsg))
    ensures p.owner == caller && p.hasEnded ==> r == Failure(Unauthorized(AlreadyEndedMsg))
    ensures r.Success? ==> r.value.hasEnded && r.value.(hasEnded := false) == p
  {
    if p.owner != caller then Failure(Unauthorized(NotOwnerEndMsg))
    else if p.hasEnded then Failure(Unauthorized(AlreadyEndedMsg))
    else Success(p.(hasEnded := true))
  }

  /** Ending twice fails: the second call finds the proposal already ended. */
  lemma EndTwiceFails(p: Proposal, caller: Principal)
    requires ApplyEnd(p, caller).Success?
    ensures ApplyEnd(ApplyEnd(p, caller).value, caller) == Failure(Unauthorized(AlreadyEndedMsg))
  {
  }

  /** The `options` field of an edit payload has no effect. */
  lemma EditIgnoresOptions(p: Proposal, payload: EditProposalPayload, caller: Principal, options: Option<seq<string>>)
    ensures ApplyEdit(p, payload.(options := options), caller) == ApplyEdit(p, payload, caller)
  {
  }
}
