# Proposal lifecycle backend, in Dafny

A model of the proposal/voting backend canister in `src/fe_1_backend/src/lib.rs`.
The backend keeps two pieces of state: an id counter cell and an in-memory
`BTreeMap` from id to proposal record. Six entry points read and update them:

- `add_proposal` allocates the next id and inserts a fresh record owned by the caller.
- `cast_vote` adds one to the approve, reject or pass counter that an option index selects.
- `get_proposal` looks up one record.
- `get_all_proposals` lists every record.
- `edit_proposal` changes the title and description, only for the owner and only before the proposal has ended. It resets the counters.
- `end_proposal` closes a proposal once, and only for the owner.

The model has five files; `wrappers.dfy` is support code:

- `wrappers.dfy` holds `Option` and `Result`.
- `proposals.dfy` holds the record, the payloads and the error kinds. It also holds the change each update makes to a single record once that record has been cloned out of the map: `ApplyVote`, `ApplyEdit` and `ApplyEnd`.
- `store.dfy` holds the state, meaning the counter plus the map, and its invariant: every record sits under its own id, and every id is below the counter. It also holds one step function per update entry point, and the ascending listing.
- `lifecycle.dfy` runs arbitrary sequences of calls. It proves what holds of every state they reach.
- `backend.dfy` is the canister as a class. Its fields are `nextId` and `store`, and its methods are written imperatively in the source's own style: clone the record, change the clone field by field, insert it back. Each method is proved equal to its step function, and each preserves the invariant.

Values from the host are passed in as parameters:

- `ic_cdk::caller()` becomes `caller`, of type `Principal`. It is compared only with `==`.
- `time()` becomes `now`.

Integers are unbounded `nat`s.

Behaviour of the code worth knowing:

- `cast_vote` takes `option_index: usize`; it is modelled as a `nat`.
- `Proposal` has `voted` and `votes` lists, but no entry point writes them. `Lifecycle.VotersNeverRecorded` proves both stay empty.
- `cast_vote` does not check `has_ended`, so votes on an ended proposal are counted. `cast_vote` takes no caller, so a repeat vote cannot be told apart from any other and is counted. `Lifecycle.TallyCountsVotes` states this.

## Model

| member | source | states |
|---|---|---|
| `Proposals.ApplyVote` | src/fe_1_backend/src/lib.rs:109-133 | An index outside 0..3 gives `InvalidOption(index)`. Otherwise the counter the index selects goes up by exactly one: 0 is approve, 1 is reject, and both 2 and 3 are pass. The other counters stay the same, the total goes up by one, and every other field is unchanged. |
| `Proposals.ApplyEdit` | src/fe_1_backend/src/lib.rs:176-199 | It fails exactly when the caller is not the owner or the proposal has ended. A non-owner gets the owner message, even when the proposal has ended. On success each given field replaces the old one, a missing field keeps the old one, and all three counters become 0. Nothing else changes. |
| `Proposals.ApplyEnd` | src/fe_1_backend/src/lib.rs:214-226 | It fails exactly when the caller is not the owner or the proposal has already ended, with the owner check first. On success it sets `hasEnded` and changes nothing else. |
| `Proposals.EndTwiceFails` | src/fe_1_backend/src/lib.rs:220-224 | After a successful close, a second close by the same caller fails with the already-ended error. |
| `Proposals.EditIgnoresOptions` | src/fe_1_backend/src/lib.rs:164-169 | The `options` field of an edit payload has no effect on the edit. |
| `Store.AddStep` | src/fe_1_backend/src/lib.rs:70-96 | The new id is the counter before the call, and the counter advances by one. Under the invariant the id was not already a key. The record is stored under its id. It has zero counters, is not ended, has empty voter and vote lists, is owned by the caller, is stamped with `now`, and takes its text from the payload. The invariant is preserved. |
| `Store.VoteStep` | src/fe_1_backend/src/lib.rs:105-140 | A missing id gives `NotFound(id)`, and so does nothing else. On an existing id the result is the record-level vote. A failure leaves the state unchanged. A success rewrites only that key, keeps the counter, and preserves the invariant. |
| `Store.EditStep` | src/fe_1_backend/src/lib.rs:172-208 | A missing id gives `NotFound`, checked before ownership and before the ended flag. Otherwise the result is the record-level edit. A failure leaves the state unchanged. A success rewrites only that key, and the invariant is preserved. |
| `Store.EndStep` | src/fe_1_backend/src/lib.rs:210-235 | A missing id gives `NotFound`. Otherwise the result is the record-level close. A failure leaves the state unchanged. A success rewrites only that key, and the invariant is preserved. |
| `Store.Ascending` | src/fe_1_backend/src/lib.rs:154-162 | Ids in the result strictly increase, so they follow map order and none repeats. A record is in the result exactly when it is stored under its id within the range. |
| `Lifecycle.Step` | src/fe_1_backend/src/lib.rs:69-235 | Every entry point preserves the invariant. Only `add_proposal` moves the counter, and it moves it by one. The queries change nothing. |
| `Lifecycle.RunPreservesValid` | src/fe_1_backend/src/lib.rs:71-94 | Every sequence of calls preserves the invariant: records are keyed by their ids, and all ids are below the counter. |
| `Lifecycle.Issued` | src/fe_1_backend/src/lib.rs:71-76 | Along any run, the ids handed out are consecutive from the starting counter. So they strictly increase and never repeat. The final counter is the start plus their number, and none of them was already a key. |
| `Lifecycle.StepKeeps` | src/fe_1_backend/src/lib.rs:175-228 | One call keeps an existing record's id, owner and creation time. It never reopens an ended proposal, and it never changes an ended proposal's title or description. |
| `Lifecycle.RecordPersists` | src/fe_1_backend/src/lib.rs:175-228 | Over any run, an existing record stays in the store with the same id, owner and creation time. Once ended it stays ended, and its text no longer changes. |
| `Lifecycle.TallyCountsVotes` | src/fe_1_backend/src/lib.rs:109-127 | If a run has no edit of a record, that record's vote total grows by exactly the number of valid-index votes cast on it. This holds whether or not the proposal has ended. A vote carries no caller, so repeat votes are counted like any other. |
| `Lifecycle.VotersNeverRecorded` | src/fe_1_backend/src/lib.rs:78-91 | If every record's voter and vote lists are empty, they stay empty after any run. |
| `Lifecycle.FromInstall` | src/fe_1_backend/src/lib.rs:49-61 | From the freshly installed state (counter 0, empty map), every reachable state satisfies the invariant and has empty voter lists. The i-th id handed out is i. |
| `Lifecycle.Scenario` | src/fe_1_backend/src/lib.rs:70-235 | Create "Upgrade" as owner o, which gets id 0. Vote 0, then vote 1, which gives approve 1, reject 1, pass 0. The owner's close succeeds, and a later edit by the owner fails with the ended-proposal error. |
| `Backend.Canister.constructor` | src/fe_1_backend/src/lib.rs:49-61 | The counter starts at 0 and the map starts empty. |
| `Backend.Canister.AddProposal` | src/fe_1_backend/src/lib.rs:70-96 | It returns the record and leaves the state exactly as `Store.AddStep` gives them, and it keeps the invariant. The id is the old counter and was not already a key. |
| `Backend.Canister.CastVote` | src/fe_1_backend/src/lib.rs:105-140 | Its reply and new state are exactly those of `Store.VoteStep`, and it keeps the invariant. An error leaves the object unchanged. |
| `Backend.Canister.GetProposal` | src/fe_1_backend/src/lib.rs:142-151 | It succeeds exactly when the id is stored, and then returns the stored record. Otherwise it returns `NotFound(id)`. |
| `Backend.Canister.GetAllProposals` | src/fe_1_backend/src/lib.rs:154-162 | A record is in the result exactly when it is one of the map's values. The ids strictly increase, so the result is in map order with no record twice. |
| `Backend.Canister.EditProposal` | src/fe_1_backend/src/lib.rs:172-208 | Its reply and new state are exactly those of `Store.EditStep`, and it keeps the invariant. An error leaves the object unchanged. |
| `Backend.Canister.EndProposal` | src/fe_1_backend/src/lib.rs:210-235 | Its reply and new state are exactly those of `Store.EndStep`, and it keeps the invariant. An error leaves the object unchanged. |

## Left out

- Candid serialisation of records (the `Storable` impl, lines 33-41): an encoding library outside this model.
- Stable memory plumbing (`MemoryManager`, `VirtualMemory`, `Cell::init`, lines 44-52). The counter is a plain field, and survival across upgrades is not modelled; the stable map is commented out in the source anyway.
- `ID_STORE` (line 54): it is declared and never used.
- `thread_local!` and `RefCell`: the canister runs one call at a time, and the model is sequential.
- `ic_cdk::caller()` and `time()`: host calls, taken as the `caller` and `now` parameters.
- 64-bit overflow of the counter and of the vote counters is not modelled, and neither are the `.expect` panics (lines 51, 76). All integers are unbounded.
- The formatted messages of `NotFound` and `InvalidOption` are not modelled as text. The model keeps the id or index that each message is built from. The `Unauthorized` messages are kept verbatim.
- `add_proposal` returns `Option<Proposal>` but always returns `Some`. The model returns the record itself.
- The React frontend (`src/fe_1_frontend/src/App.jsx`) is not part of this model.
