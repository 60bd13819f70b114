/**
 * Sequences of calls to the backend's six entry points, and what holds of
 * every state they reach: the invariant, ids handed out consecutively, records
 * that never disappear and never change owner, `hasEnded` that is never reset,
 * counters that count the votes, and voter lists that are never written.
 */
module Lifecycle {
  import opened Wrappers
  import opened Proposals
  import opened Store

  /** One call to an entry point, with the caller and the clock the host supplies. */
  datatype Call =
    | Add(payload: ProposalPayload, caller: Principal, now: nat)
    | Vote(id: nat, option: nat)
    | Edit(edit: EditProposalPayload, caller: Principal)
    | End(id: nat, caller: Principal)
    | Get(id: nat)
    | GetAll

  /** The state after one call; the two queries leave it alone. */
  function Step(s: State, c: Call): (t: State)
    ensures Valid(s) ==> Valid(t)
    ensures t.nextId == if c.Add? then s.nextId + 1 else s.nextId
    ensures c.Get? || c.GetAll? ==> t == s
  {
    match c
    case Add(payload, caller, now) => AddStep(s, payload, caller, now).1
    case Vote(id, option) => VoteStep(s, id, option).next
    case Edit(edit, caller) => EditStep(s, edit, caller).next
    case End(id, caller) => EndStep(s, id, caller).next
    case Get(_) => s
    case GetAll => s
  }

  function Run(s: State, calls: seq<Call>): State
    decreases |calls|
  {
    if calls == [] then s else Run(Step(s, calls[0]), calls[1..])
  }

  lemma {:induction false} RunPreservesValid(s: State, calls: seq<Call>)
    requires Valid(s)
    ensures Valid(Run(s, calls))
    decreases |calls|
  {
    if calls != [] {
      RunPreservesValid(Step(s, calls[0]), calls[1..]);
    }
  }

  /**
   * The ids `add_proposal` hands out along a run, in order: consecutive from
   * the counter's starting value, so strictly increasing, never repeated, and
   * never a key the store already held.
   */
  function Issued(s: State, calls: seq<Call>): (r: seq<nat>)
    ensures forall i :: 0 <= i < |r| ==> r[i] == s.nextId + i
    ensures forall i, j :: 0 <= i < j < |r| ==> r[i] < r[j]
    ensures Run(s, calls).nextId == s.nextId + |r|
    ensures Valid(s) ==> forall i :: 0 <= i < |r| ==> r[i] !in s.store
    decreases |calls|
  {
    if calls == [] then []
    else
      var c := calls[0];
      var here := if c.Add? then [AddStep(s, c.payload, c.caller, c.now).0.id] else [];
      here + Issued(Step(s, calls[0]), calls[1..])
  }

  /** What a single call keeps of a record that exists. */
  predicate Keeps(p: Proposal, q: Proposal)
  {
    && q.id == p.id
    && q.owner == p.owner
    && q.createdAt == p.createdAt
    && (p.hasEnded ==> q.hasEnded && q.title == p.title && q.description == p.description)
  }

  lemma StepKeeps(s: State, c: Call, k: nat)
    requires Valid(s) && k in s.store
    ensures k in Step(s, c).store && Keeps(s.store[k], Step(s, c).store[k])
  {
  }

  /**
   * A record, once created, stays in the store with the same id, owner and
   * creation time; once ended it stays ended, and its title and description
   * no longer change. No call removes a record or reopens a proposal.
   */
  lemma {:induction false} RecordPersists(s: State, calls: seq<Call>, k: nat)
    requires Valid(s) && k in s.store
    ensures k in Run(s, calls).store && Keeps(s.store[k], Run(s, calls).store[k])
    decreases |calls|
  {
    if calls != [] {
      var t := Step(s, calls[0]);
      StepKeeps(s, calls[0], k);
      RecordPersists(t, calls[1..], k);
    }
  }

  /** The number of calls that vote on `k` with a valid option index. */
  function VotesOn(calls: seq<Call>, k: nat): nat
    decreases |calls|
  {
    if calls == [] then 0
    else
      var c := calls[0];
      (if c.Vote? && c.id == k && OptionChoice(c.option).Some? then 1 else 0) + VotesOn(calls[1..], k)
  }

  /** None of the calls tries to edit `k`. */
  predicate NoEditOf(calls: seq<Call>, k: nat)
  {
    forall i :: 0 <= i < |calls| ==> !(calls[i].Edit? && calls[i].edit.id == k)
  }

  /**
   * Without an edit of `k`, the counters of `k` grow by exactly the number of
   * valid votes cast on it, whether or not the proposal has ended and however
   * often the same caller votes.
   */
  lemma {:induction false} TallyCountsVotes(s: State, calls: seq<Call>, k: nat)
    requires Valid(s) && k in s.store && NoEditOf(calls, k)
    ensures k in Run(s, calls).store
    ensures Tally(Run(s, calls).store[k]) == Tally(s.store[k]) + VotesOn(calls, k)
    decreases |calls|
  {
    if calls != [] {
      var c := calls[0];
      var t := Step(s, c);
      StepKeeps(s, c, k);
      assert Tally(t.store[k]) == Tally(s.store[k]) + (if c.Vote? && c.id == k && OptionChoice(c.option).Some? then 1 else 0);
      assert NoEditOf(calls[1..], k) by {
        forall i | 0 <= i < |calls[1..]| ensures !(calls[1..][i].Edit? && calls[1..][i].edit.id == k) {
          assert calls[1..][i] == calls[i + 1];
        }
      }
      TallyCountsVotes(t, calls[1..], k);
    }
  }

  /** No record has a voter or a vote recorded in it. */
  predicate NoVotersRecorded(s: State)
  {
    forall k :: k in s.store ==> s.store[k].voted == [] && s.store[k].votes == []
  }

  /**
   * The voter list and the vote list of every record stay empty: no entry
   * point ever appends to them.
   */
  lemma {:induction false} VotersNeverRecorded(s: State, calls: seq<Call>)
    requires NoVotersRecorded(s)
    ensures NoVotersRecorded(Run(s, calls))
    decreases |calls|
  {
    if calls != [] {
      var t := Step(s, calls[0]);
      assert NoVotersRecorded(t);
      VotersNeverRecorded(t, calls[1..]);
    }
  }

  /** Everything above, for the runs that start from a fresh installation. */
  lemma {:induction false} FromInstall(calls: seq<Call>)
    ensures Valid(Run(Init, calls)) && NoVotersRecorded(Run(Init, calls))
    ensures forall i :: 0 <= i < |Issued(Init, calls)| ==> Issued(Init, calls)[i] == i
  {
    RunPreservesValid(Init, calls);
    VotersNeverRecorded(Init, calls);
  }

  /**
   * Owner `o` creates "Upgrade"; `a` approves and `b` rejects (a vote carries
   * no caller); the record then shows one approval and one rejection; `o` ends
   * it, after which `o` can no longer edit it.
   */
  lemma Scenario(o: Principal, now: nat)
    ensures
      var (p, s1) := AddStep(Init, ProposalPayload("Upgrade", "desc"), o, now);
      var s2 := VoteStep(s1, p.id, 0).next;
      var s3 := VoteStep(s2, p.id, 1).next;
      var got := s3.store[p.id];
      var closed := EndStep(s3, p.id, o);
      var edit := EditProposalPayload(p.id, Some("x"), None, None);
      && p.id == 0
      && got.approve == 1 && got.reject == 1 && got.pass == 0
      && closed.reply.Success? && closed.reply.value.hasEnded
      && EditStep(closed.next, edit, o).reply == Failure(Unauthorized(EndedEditMsg))
  {
  }
}
