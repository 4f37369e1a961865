# Capix Code, verified

A Dafny model of the parts of Capix Code whose correctness a reader cannot see from one function
body: the edit planner that must be all-or-nothing, the Merkle verifier, the pipeline from response
text to model parts, the protocols between processes, timers and requests, and the money and index
code around them. Each module models one component and takes that component's form: objects that
change are classes, loops are loops, and what is pure is a function. Methods are proved against
functions on values or against direct statements; the theorems are about those.

| Modules | Component |
|---|---|
| `TextLines`, `CommonSubsequence`, `LineDiff`, `DiffHunks`, `EditPlanner` | line diff, hunks, plans, atomic apply and rollback (`src/editing/atomic-edit-planner.ts`) |
| `MerkleEncoding`, `MerkleProof`, `MerkleTree`, `HexText` | canonical encoding, proof verification, hexadecimal (`launcher/src/merkle_verify.rs`) |
| `ProviderTypes`, `EventStream`, `ModelStream`, `Openings`, `RetryLoop`, `Pipeline`, `Wire` | event parser, part transducer, retries, and all of them together (`src/capix-provider.ts`, `src/ai-sdk-provider.ts`, `src/plugin.ts`) |
| `RefreshLock` | the refresh-token lock shared by launcher processes (`launcher/src/main.rs`) |
| `CompletionEngine`, `InlineCompletion` | debounced completions and their partial acceptance (`src/completion/`) |
| `Supervisor` | bounded restarts of the tool server (`src/mcp-supervisor.ts`) |
| `Decimal`, `MoneyText`, `SpendLedger`, `CapExport` | exact money text and the spend cap (`launcher/src/format.rs`, `launcher/src/main.rs`, `src/routing-client.ts`, `src/spend-cap.ts`) |
| `Base64Url` | unpadded base64url (`src/broker.ts`) |
| `CodebaseIndex` | files and derived import and symbol maps (`src/codebase-index/indexer.ts`) |
| `Wrappers`, `Whitespace` | optional values, results, trimming |

`dafny verify dfyconfig.toml` checks everything.

## How the outside world appears

- SHA-256 (FIPS 180-4) is a parameter `H`. Nothing is assumed of it. Soundness of proofs reads "the
  same, or two different inputs with one digest among the inputs that were hashed", so it cannot be
  met by a collision that exists only in principle.
- The JSON reader, the transient-error classification, aborts, and what each attempt, file
  operation, exchange or child process does are parameters or steps; the theorems hold for all of
  them and for every interleaving.
- A character is a Unicode scalar value. Decoding bytes to text happens before the event parser.

## What turned out not to hold everywhere

- The diff is minimal exactly up to the table guard, or when the texts share no line
  (`LineDiff.DiffOpsMinimal`, `LineDiff.LargeCopyNotMinimal`).
- The field encoding can be read back exactly when every body is shorter than 2^32
  (`MerkleEncoding.EncodingDecodes`, `MerkleEncoding.LongBodiesCollide`).
- `hex_decode` is documented to answer `None` for malformed text, but it tests the number of bytes,
  not of characters, and drops an unpaired last character: `HexText.AcceptsHexText` says exactly for
  which texts, `HexText.OddTextAccepted` gives one.
- Lines are joined and split again unchanged exactly when none holds a newline and they are not a
  single empty line (`LineDiff.LinesOfTextOf`).
- A stream that ends without a finish closes its text and reasoning but leaves tool inputs open, and
  one that ends in an error leaves everything open (`ModelStream.StreamSettles`).
- A promise that is older than the current request need not have been answered with null: it may
  have been answered while it was current (`CompletionEngine.EveryRunFromIdle` states both cases).
- Starting the supervisor again over a pending restart overspends the restart bound
  (`Supervisor.DoubleStartOverspends`); a run keeps it exactly when every start finds no restart
  pending (`Supervisor.BoundedExactlyWhenSensible`).
- A rollback leaves one thing behind: a file that a failing write has torn
  (`EditPlanner.TornWriteStays`). An apply that ends rolled back leaves the disk of planning time
  exactly when the failing operation tears nothing (`EditPlanner.ApplyIsAtomic`).
- The refresh lock promises never to take a lock from a process at work, and does: from one that
  holds it for more than 30 seconds, which its own timeouts allow, and when two waiters recover one
  abandoned lock (`RefreshLock.LiveHolderIsRobbed`, `RefreshLock.StaleTakeoverIsNotExclusive`). After
  such a theft the thief's own next step puts two processes to work (`RefreshLock.ThiefIsSecond`),
  and a theft is exactly what allows two to work together without a further theft
  (`RefreshLock.TheftExactlyLetsTwoIn`, `RefreshLock.ApartExactlyWithoutTheft`). For there to be none
  it is enough that holders are prompt and one waiter recovers at a time
  (`RefreshLock.PromptNeverSteals`).
- A rotated token that is not stored is presented again (`RefreshLock.LostRotationIsReplayed`), and so
  is one that a keyring write given up after its timeout puts back later
  (`RefreshLock.LateWriteIsReplayed`). A run keeps the invariant that excludes all this exactly when it
  has no theft, no lost rotation and no such late write (`RefreshLock.SafeExactlyWhenCareful`).
- A disposed completion session can still show an answer that the engine gave just before the
  disposal (`InlineCompletion.DisposedMayShow`), but no other
  (`InlineCompletion.OnlyEarlierAnswersAfterDispose`).
- The two money printers of the launcher differ at one amount (`MoneyText.PrintersAgree`), and the
  client's printer keeps superfluous zeros in front (`MoneyText.MoneyDigitsAgree`).
- `recordSpendCapCost` is documented to answer the status after the update. It does so exactly when
  it does not warn; the call that warns answers the flag from before
  (`SpendLedger.SpendCapLedger.RecordSpendCapCost`, `SpendLedger.NineOfTenWarns`).
- `AcceptedCompletion.remaining` is documented for partial accepts and never set; the model follows
  the code and has no such field.

## Model

| member | source | states |
|---|---|---|
| LineDiff.LinesOfTextOf | src/editing/atomic-edit-planner.ts:116-119 | Joining lines and splitting them again is the identity exactly when no line holds a newline and the lines are not one empty line |
| LineDiff.FillRow | src/editing/atomic-edit-planner.ts:135-140 | From the row below, the inner loop fills row i with the lengths for the suffixes, and leaves every other row as it was |
| LineDiff.FillTable | src/editing/atomic-edit-planner.ts:132-141 | Every cell of the table holds the length for its two suffixes |
| LineDiff.CellIsLongest | src/editing/atomic-edit-planner.ts:132-141 | That length is attained by a common subsequence of the suffixes, and no common subsequence is longer |
| LineDiff.WalkTable | src/editing/atomic-edit-planner.ts:142-160 | The greedy walk over the filled table yields the specified diff lines, a tie removing before it adds; that this order is the right one is what LineDiff.DiffOpsIs says |
| LineDiff.LcsOps | src/editing/atomic-edit-planner.ts:125-161 | Guard, table and walk together yield a diff that is fixed by what it is, as in the next row |
| LineDiff.DiffOpsIs | src/editing/atomic-edit-planner.ts:113-161 | Up to 4,000,000 table cells the diff is the one minimal numbered script that, where it first differs in kind from any other minimal script, keeps a line, or removes one where the other adds; past that the one numbered script that removes every old line and then adds every new one |
| LineDiff.RemovesBeforeAdds | src/editing/atomic-edit-planner.ts:113-161 | On both paths no added line is directly followed by a removed one |
| LineDiff.DiffOpsIsScript | src/editing/atomic-edit-planner.ts:125-161 | On both paths the diff turns the old lines into the new ones, and its line numbers count each side from 1 |
| LineDiff.DiffOpsMinimal | src/editing/atomic-edit-planner.ts:125-161 | No script between the same lines has fewer added plus removed lines, exactly when the table fits the guard or no line is shared |
| LineDiff.LargeCopyNotMinimal | src/editing/atomic-edit-planner.ts:113-131 | Two equal texts of 2001 lines are past the guard, and their diff is not minimal |
| DiffHunks.MergeRanges | src/editing/atomic-edit-planner.ts:171-185 | The merge loop groups the changed positions as specified |
| DiffHunks.RangesAreRuns | src/editing/atomic-edit-planner.ts:168-185 | The ranges are in bounds, ordered, apart from one another, and cover exactly the positions within the context of a change |
| DiffHunks.RunsAreUnique | src/editing/atomic-edit-planner.ts:168-185 | Only one list of separated ranges covers given positions |
| DiffHunks.GroupHunks | src/editing/atomic-edit-planner.ts:164-201 | The hunks are the slices of the diff at the maximal runs near a change, with their starts and counts |
| DiffHunks.DiffLines | src/editing/atomic-edit-planner.ts:116-122 | The hunks are those of the full diff of the two texts' lines, an empty text having none |
| DiffHunks.DiffIsDetermined | src/editing/atomic-edit-planner.ts:116-201 | The contract of the diff admits one answer for each pair of texts |
| DiffHunks.DiffRoundTrip | src/editing/atomic-edit-planner.ts:116-201 | Applied at the recorded starts and counts, the hunks turn the old text into the new one, and reversed the new text into the old one |
| DiffHunks.ChangeInOneHunk | src/editing/atomic-edit-planner.ts:164-201 | Every changed line lies in one range of the diff, and in no other |
| DiffHunks.StartsAtZero | src/editing/atomic-edit-planner.ts:187-199 | A recorded start is 0 exactly when that side's text is empty |
| DiffHunks.TotalsBalance | src/editing/atomic-edit-planner.ts:229-230 | The added and removed figures add up to the cost of the diff, and their difference is the difference in lines |
| DiffHunks.NoHunks | src/editing/atomic-edit-planner.ts:208-212 | There are no hunks exactly when the texts are equal and within the guard |
| EditPlanner.EditFileSystem.WriteFile | src/editing/atomic-edit-planner.ts:81-100 | A write puts the content at its path; one that fails leaves every other path alone, and its own either as it was or with whatever the failure tore it to |
| EditPlanner.EditFileSystem.DeleteFile | src/editing/atomic-edit-planner.ts:81-104 | A delete removes the path, or fails in the same way |
| EditPlanner.AtomicEditPlanner.PlanFile | src/editing/atomic-edit-planner.ts:216-232 | The kind, the remembered content, the hunks and the figures of one change, or the read error |
| EditPlanner.AtomicEditPlanner.Plan | src/editing/atomic-edit-planner.ts:213-252 | A plan is stored with one entry for each change in order, and the disk is untouched; one failing read stores nothing |
| EditPlanner.AtomicEditPlanner.SetDecision | src/editing/atomic-edit-planner.ts:280-286 | The first entry for the path is decided, every other entry and all else stays; an unknown plan or path is refused |
| EditPlanner.AtomicEditPlanner.SetAll | src/editing/atomic-edit-planner.ts:268-278 | Every entry of the plan is decided |
| EditPlanner.AtomicEditPlanner.Apply | src/editing/atomic-edit-planner.ts:294-322 | Plan and disk after an apply are those of the specification, for every pattern of failing operations |
| EditPlanner.AtomicEditPlanner.Rollback | src/editing/atomic-edit-planner.ts:330-352 | Plan and disk after a rollback are those of the specification, restores running from the last to the first |
| EditPlanner.ApplyOutcome | src/editing/atomic-edit-planner.ts:288-352 | For any apply, an earlier one or earlier torn files included, the first failing operation and the restores after it decide the status, the applied paths, the errors and the disk |
| EditPlanner.ApplyFollowsPlan | src/editing/atomic-edit-planner.ts:296-313 | The accepted entries, which are those at the increasing list of exactly the accepted places of the plan, are worked through in that order: the applied paths grow by their paths up to the first failing operation, whose error is recorded at its own entry, the only one that can be torn; applied means none failed, rejected that there was none |
| EditPlanner.AppliedIsProposed | src/editing/atomic-edit-planner.ts:296-321 | After an apply each path holds the content of the accepted entry for it that comes last in the plan, and any other what it held |
| EditPlanner.ApplyIsAtomic | src/editing/atomic-edit-planner.ts:288-352 | An apply that finds the disk of planning time ends with all accepted content in place and nothing else touched, or marked rolled back, with the disk of planning time exactly when the failing operation tears nothing, or marked failed because a restore failed |
| EditPlanner.PathAfterApply | src/editing/atomic-edit-planner.ts:288-352 | Path by path, duplicates included, an apply that finds the disk of planning time leaves the content of the last accepted entry of the plan everywhere or the original one everywhere but at a torn path, unless the plan is marked failed |
| EditPlanner.UnacceptedUntouched | src/editing/atomic-edit-planner.ts:294-352 | A path neither accepted nor applied before never changes, whatever fails |
| EditPlanner.WrittenLookup | src/editing/atomic-edit-planner.ts:302-306 | Writing a list of entries leaves at each path the last content proposed for it |
| EditPlanner.RollbackOutcome | src/editing/atomic-edit-planner.ts:324-352 | A rollback is marked rolled back exactly when no restore failed, adds the errors of the next row and no other, restores every path whose own restores succeed whatever becomes of the rest, and keeps the planning invariant |
| EditPlanner.RestoreErrorsAre | src/editing/atomic-edit-planner.ts:332-346 | Operation j of a rollback restores the applied path that is j places before the last; each that fails, in that order, leaves one error with its path and the words "rollback failed: " before its message |
| EditPlanner.RollbackUndoesApply | src/editing/atomic-edit-planner.ts:324-352 | After a full apply, a rollback without failures restores the disk of planning time |
| EditPlanner.TornWriteStays | src/editing/atomic-edit-planner.ts:301-322 | A write that fails half way stays on disk though the plan is marked rolled back, as its path is not among the applied ones |
| EditPlanner.RunsTrack | src/editing/atomic-edit-planner.ts:254-352 | Over any run of decisions, applies and rollbacks, with any failing operations, only applied and torn paths differ from the disk of planning time, and only torn ones while the plan is marked rolled back |
| EditPlanner.FreshPlanTracks | src/editing/atomic-edit-planner.ts:213-252 | A new plan satisfies the invariant those runs start from |
| MerkleEncoding.EncodeField | launcher/src/merkle_verify.rs:75-108 | A field is appended byte by byte: its kind byte from 1 to 7, its length as the four low bytes from the lowest on, its number as eight, and its body |
| MerkleEncoding.FieldBytesAre | launcher/src/merkle_verify.rs:75-108 | Those bytes, and no others, are the encoding of the field |
| MerkleEncoding.EncodeFields | launcher/src/merkle_verify.rs:111-117 | The encoding of a list is the concatenation of its fields' encodings |
| MerkleEncoding.EncodingDecodes | launcher/src/merkle_verify.rs:75-117 | A decoder reads a field list back exactly when every body fits its length prefix |
| MerkleEncoding.EncodingIsInjective | launcher/src/merkle_verify.rs:75-117 | Field lists of any lengths with one encoding are equal when their bodies fit |
| MerkleEncoding.LongBodiesCollide | launcher/src/merkle_verify.rs:75-117 | With a body of 2^32 bytes two different lists have one encoding |
| MerkleProof.DomainsAreSeparate | launcher/src/merkle_verify.rs:21-22 | No leaf preimage is a node preimage |
| MerkleProof.ConstantTimeEq | launcher/src/merkle_verify.rs:343-349 | Or-ing the differences of all bytes tells whether two digests are equal |
| MerkleProof.Verify | launcher/src/merkle_verify.rs:288-331 | The loop accepts exactly the proofs of the declarative check, and exactly those that hash up to the root in bytes, as in the next row |
| MerkleProof.AcceptedInBytes | launcher/src/merkle_verify.rs:288-340 | A proof is accepted exactly when category and version 1 agree and the digests climb from H of "capix:merkle:leaf:v1", the bytes 1, 0, 0, 0 and the encoded fields to the root, each step hashing the 84 bytes of "capix:merkle:node:v1", the left and the right digest, the sibling being on the right exactly where the index has a zero bit; a single leaf is hashed with itself and has no path |
| MerkleProof.PositionBinding | launcher/src/merkle_verify.rs:288-340 | Two accepted proofs with one root, one path length and one position carry the same encoded leaf and the same siblings, or checking them hashed a collision |
| MerkleProof.LeafBinding | launcher/src/merkle_verify.rs:288-340 | With bodies that fit, the leaf fields themselves are the same, or checking hashed a collision |
| MerkleProof.NoShortcut | launcher/src/merkle_verify.rs:288-340 | A leaf cannot be passed off as an inner node of a longer path without a hashed collision |
| MerkleProof.HonestProofAccepted | launcher/src/merkle_verify.rs:288-331 | Each of the 2^k leaves of a perfect tree has an accepted proof against its root, which for a single leaf is the node that doubles it |
| MerkleProof.AcceptedIsInTree | launcher/src/merkle_verify.rs:288-331 | Against the root of a perfect tree, an accepted proof of full length carries the encoded leaf that the tree has at its index, or a collision lies between what checking it and checking the honest proof of that leaf hash |
| MerkleTree.AcceptedLeadsToLeaf | launcher/src/merkle_verify.rs:288-340 | Against the root of a tree of any shape, an accepted proof of any path length and any claimed leaf count leads along its path to a leaf with its encoding, or a collision lies between what checking it and building the tree hash |
| MerkleTree.AcceptedInPerfectTree | launcher/src/merkle_verify.rs:288-340 | Against the root of a perfect tree, an accepted proof has the length of the height of the tree and carries the encoded leaf at the position it claims, or exhibits such a collision; so a shorter or longer one, or one with a false leaf count, always does |
| MerkleTree.LeafInPerfectTree | launcher/src/merkle_verify.rs:288-340 | With bodies that fit, the leaf fields themselves are those of the tree at that position, or a collision was hashed |
| HexText.HexDecode | launcher/src/merkle_verify.rs:158-168 | The loop decodes pairs of characters as specified, refusing an odd number of bytes |
| HexText.FromHex32 | launcher/src/merkle_verify.rs:147-155 | A digest is read exactly from texts that decode to 32 bytes |
| HexText.AcceptsHexText | launcher/src/merkle_verify.rs:158-168 | Acceptance and well-formedness, in digits of either case, agree except for texts of odd character count and even byte count whose pairs are hexadecimal |
| HexText.OddTextAccepted | launcher/src/merkle_verify.rs:158-168 | A text of three characters whose last is not hexadecimal is accepted |
| HexText.HexRoundTrip | launcher/src/merkle_verify.rs:158-168 | Decoding inverts encoding on all byte strings |
| HexText.HexDecodesToText | launcher/src/merkle_verify.rs:158-182 | What is decoded from well-formed text encodes to that text in lower case |
| EventStream.HandleEvent | src/capix-provider.ts:563-586 | One event delivers its chunk, before it a usage chunk made from the final figures when none came earlier, and enters its cost in the ledger |
| EventStream.HandleLine | src/capix-provider.ts:552-587 | One complete line is an event type, data under the last event type, the end mark or nothing |
| EventStream.Stream | src/capix-provider.ts:535-588 | However the text is cut into reads, what is delivered is the one-pass meaning of the whole text |
| EventStream.RunIsStreamOutput | src/capix-provider.ts:535-588 | The line-by-line machine delivers what the list of events of the text stands for |
| EventStream.StreamCarriesEvents | src/capix-provider.ts:376-445 | Chunk number i carries event number i field by field for each of the six event types, a usage event by units before tokens before nested tokens before 0; after them come the chunks of the last event: none for an unknown type, and a final event with the first figures of its stream brings these before its finish |
| EventStream.CostsEntered | src/capix-provider.ts:563-582 | Each cost delivered with a usage event is entered in the ledger once and in order, that of a final event is not |
| EventStream.FramesAreRead | src/capix-provider.ts:341-360 | Frames written as type, data and empty lines are read as their events in order, each under the type its own data names, else under that of its frame, followed by whatever the rest of the text is read as |
| EventStream.DoneEnds | src/capix-provider.ts:555-560 | Nothing after the end mark is read |
| EventStream.TerminalIsLast | src/capix-provider.ts:535-588 | At most one finish or error is delivered, and it is last |
| EventStream.UsageSynthesisedOnce | src/capix-provider.ts:568-577 | A usage chunk is synthesised exactly when the stream ends in a final event with figures and no usage event came before |
| ModelStream.TableStep | src/ai-sdk-provider.ts:314-332 | Extending the entry of a delta's id, or opening one at the end, keeps the table that of all deltas so far: ids in order of first appearance, each with its last name and all its arguments |
| ModelStream.HandleChunk | src/ai-sdk-provider.ts:282-350 | One chunk moves the adapter's variables along with what the chunks so far amount to, and emits that chunk's parts |
| ModelStream.DoStream | src/ai-sdk-provider.ts:268-412 | The transducer emits the specified parts, stopping at the first finish or error |
| ModelStream.StreamAccepted | src/ai-sdk-provider.ts:268-412 | Every emitted stream is well bracketed: text, reasoning and each tool input are opened at most once and before use, ended at most once, and called after they end |
| ModelStream.StreamSettles | src/ai-sdk-provider.ts:268-412 | Everything opened is closed exactly when the stream finishes, or ends before any tool call, or fails before any content |
| ModelStream.CallsCarryTheirDeltas | src/ai-sdk-provider.ts:268-412 | In every stream the emitted text is the text received; exactly in a finished one there are calls, one for each id in order of first appearance, and the input of each is the concatenation of the deltas emitted for it |
| Openings.StreamOpens | src/ai-sdk-provider.ts:282-332 | Text is opened under the receipt of the route announced last before it, and the tool inputs in order of the first appearance of their ids, each under the name its first delta gives, or "unknown" |
| Openings.StreamInTurn | src/ai-sdk-provider.ts:352-412 | Closing goes one way: reasoning, text, tool inputs, the end; a tool input that ends is followed at once by its call |
| ModelStream.EndIsLast | src/ai-sdk-provider.ts:366-409 | An error part is emitted exactly when the stream fails, a finish part exactly when it finishes, and either is the last part |
| ModelStream.DoGenerate | src/ai-sdk-provider.ts:414-436 | The non-streaming call returns the concatenated text, if any, followed by the calls, with the reason, usage and metadata of the finish or their defaults, or throws the stream's error |
| RetryLoop.Chunks | src/ai-sdk-provider.ts:222-246 | At most three attempts; each but the last failed transiently, without content and without an abort, and the last did not, or was the third; everything delivered is delivered in order |
| RetryLoop.ContentFromLastAttempt | src/ai-sdk-provider.ts:222-246 | All text, reasoning and tool chunks delivered are those of the last attempt |
| RetryLoop.InvokeOnce | src/plugin.ts:381-407 | One attempt is bridged up to its first error chunk or thrown error |
| RetryLoop.Invoke | src/plugin.ts:340-421 | At most four attempts under the same rule; the error of the last is thrown |
| RetryLoop.InvokedContentFromLast | src/plugin.ts:340-421 | All content the runtime sees is that of the last attempt |
| Pipeline.SeenIsOnTheWire | src/ai-sdk-provider.ts:222-412 | However responses are cut into reads and whatever earlier attempts did, the text and each tool input the engine sees are exactly those of the last response on the wire |
| Pipeline.CallsAreOnTheWire | src/ai-sdk-provider.ts:352-371 | Every tool call the engine sees carries the arguments that the last response has on the wire for its id |
| Wire.SeenInOrder | src/ai-sdk-provider.ts:268-412 | The parts that carry something are, in the order of the wire and over all attempts, the receipt and model of each route, each piece of text, and each piece of a tool input that is not empty; there are no others |
| Wire.FinishIsOnTheWire | src/ai-sdk-provider.ts:333-390 | When the last response ends in a final event the last part is its finish: its reason under the six names, its receipt or else that of the last route, its retries, the figures that came last on the wire over all attempts (input, output and cache reads each by units before tokens before nested tokens; those of the final event only where its response had none before), and the last cost that came with any |
| Wire.FailureIsOnTheWire | src/capix-provider.ts:555-588 | An attempt fails exactly with the error of a last error event, with that for a last event of unknown type, or, where neither such an event nor the end mark stopped it, with what ended the reading; it finishes exactly when its last event is a final one |
| Wire.RuntimeInOrder | src/plugin.ts:381-407 | What the runtime is handed over all attempts is each piece of text and each set of figures in the order of the wire, the cost being its amount, or 0 where none is given |
| Wire.Generate | src/ai-sdk-provider.ts:222-436 | The non-streaming call over all its attempts throws the error that the last response ends with on the wire; otherwise it answers the text of that response, and when it finishes its tool calls in order of first appearance, each with its last name and all its arguments on the wire, and the reason, figures, cost, receipt and retries of the finish of Wire.FinishIsOnTheWire |
| RefreshLock.StepKeepsMutexIff | launcher/src/main.rs:658-697 | A step keeps whoever is at work alone and its lock directory in place exactly when it does not remove that directory |
| RefreshLock.MutexExactlyWithoutTheft | launcher/src/main.rs:658-697 | Whoever is at work is alone and its directory in place in every state of a run exactly when the directory of a process at work is never removed |
| RefreshLock.MutexIsNeverTwo | launcher/src/main.rs:658-697 | In any state, no theft-free continuation puts two processes to work together exactly when at most one is at work, with its directory in place |
| RefreshLock.TheftExactlyLetsTwoIn | launcher/src/main.rs:658-697 | After a step some continuation without a further theft puts two processes to work together exactly when that step was a theft |
| RefreshLock.ThiefIsSecond | launcher/src/main.rs:665-676 | After any theft the thief's own next attempt to create the directory puts two processes to work together |
| RefreshLock.ApartExactlyWithoutTheft | launcher/src/main.rs:658-697 | Through every state of a run it stays true that no theft-free continuation brings two together, exactly when the run has no theft |
| RefreshLock.StepKeepsSafeIff | launcher/src/main.rs:730-964 | Safe means: whoever is at work is alone with its directory in place; no token was used twice, and the current one is unused; and in a live session whoever has a token has the current one, the stored credential is the current one but between an exchange and its storing, no file of an old install is left beside a keyring token or a token in use, and a write given up carries no newer token. A step keeps this exactly when it neither loses a rotated token, nor steals a lock, nor lands a stale write |
| RefreshLock.SafeExactlyWhenCareful | launcher/src/main.rs:730-964 | A run is safe in that sense in every state exactly when none of the three happens on the way; nothing is assumed of timing or of crashes |
| RefreshLock.RefreshIsSafe | launcher/src/main.rs:893-964 | In every interleaving without the three, of any number of processes, with recovery of crashed ones and writes that land late, no two are at work together, no refresh token is presented twice, and while nobody is at work the stored credential of a live session is the current token |
| RefreshLock.WaiterIsPatient | launcher/src/main.rs:658-692 | Over any run, a process that began, and is idle again without having had the lock, has waited for 20,000 ms |
| RefreshLock.GivesUpExactly | launcher/src/main.rs:678-683 | A waiter goes idle exactly by looking, 20,000 ms after it began or later, at a lock that is not older than 30,000 ms |
| RefreshLock.WaiterGetsOn | launcher/src/main.rs:658-692 | From any state, a process that has waited for less than 20,000 ms takes a lock that is free, or was left more than 30,000 ms ago, in at most four steps of its own |
| RefreshLock.DroppedLockIsTaken | launcher/src/main.rs:658-698 | In particular after the holder drops its lock |
| RefreshLock.RemovesOnlyStale | launcher/src/main.rs:668-677 | A process is about to remove a lock exactly after having seen it older than 30,000 ms |
| RefreshLock.RefreshSucceeds | launcher/src/main.rs:893-964 | An undisturbed refresh of a live session, from the keyring or from the file of an old install, exchanges the token once, leaves the new one in the keyring, and frees the lock |
| RefreshLock.OnlyRefusalForgets | launcher/src/main.rs:928-948 | A step empties the keyring exactly when the server refuses the token presented; an exchange that does not get through keeps it |
| RefreshLock.PromptNeverSteals | launcher/src/main.rs:665-676 | No lock is stolen when nobody works under one for more than 30 seconds and one waiter at a time recovers an abandoned one |
| RefreshLock.TimelyNeverSteals | launcher/src/main.rs:665-676 | In particular none is stolen when every lock is released within 30 seconds |
| RefreshLock.StaleTakeoverIsNotExclusive | launcher/src/main.rs:665-676 | After a crash and 30 seconds two waiters can hold the lock together |
| RefreshLock.LiveHolderIsRobbed | launcher/src/main.rs:665-676 | Without a crash and without a lost token, a holder slower than 30 seconds loses its lock, and one token is presented twice |
| RefreshLock.LostRotationIsReplayed | launcher/src/main.rs:953-962 | A token exchanged but not stored is presented again later |
| RefreshLock.LateWriteIsReplayed | launcher/src/main.rs:730-745 | A keyring write that timed out in a migration lands after another process stored a newer token, and the old one is presented again, without a crash, a theft or a lost token |
| CompletionEngine.Debouncer.Schedule | src/completion/completion-engine.ts:305-332 | A new request settles the open promise with null, aborts its request, and arms its own timer |
| CompletionEngine.Debouncer.CancelPending | src/completion/completion-engine.ts:335-343 | Cancelling settles the open promise with null and disarms the timer |
| CompletionEngine.Debouncer.OnTimer | src/completion/completion-engine.ts:317-321 | A timer starts a request only for the current call |
| CompletionEngine.Debouncer.OnAnswer | src/completion/completion-engine.ts:321-328 | An answer is delivered only to the current call; an error delivers null |
| CompletionEngine.RunKeeps | src/completion/completion-engine.ts:305-343 | Every event keeps the supersession invariant |
| CompletionEngine.EveryRunFromIdle | src/completion/completion-engine.ts:305-343 | In every reachable state at most the newest promise is open, and a completion was only ever delivered to the call that was current when it came |
| CompletionEngine.SettledForGood | src/completion/completion-engine.ts:305-343 | A settled promise never changes, and a superseding event settles the open one with null |
| CompletionEngine.OpenPromiseCanSettle | src/completion/completion-engine.ts:315-331 | No promise hangs: from every reachable state at most two events of its own settle an open promise with what its request comes out as |
| CompletionEngine.CacheGet | src/completion/completion-engine.ts:438-449 | A live hit moves to the young end, an expired entry is dropped, the rest is untouched |
| CompletionEngine.CacheSet | src/completion/completion-engine.ts:451-458 | The entry takes the place of its key or comes last, all others stay as they are, and of the result exactly the youngest entries up to the limit survive |
| CompletionEngine.LongestSuffixPrefixOverlap | src/completion/completion-engine.ts:253-260 | The longest prefix of one text, of at least eight characters, that the other ends with |
| Supervisor.McpSupervisor.StartUp | src/mcp-supervisor.ts:41-50 | Starting clears the restart count and spawns |
| Supervisor.McpSupervisor.SpawnProcess | src/mcp-supervisor.ts:52-108 | A spawn replaces the child, or fails and leaves it |
| Supervisor.McpSupervisor.OnExit | src/mcp-supervisor.ts:74-99 | A crash of the current child arms one delayed restart while restarts are left |
| Supervisor.McpSupervisor.OnError | src/mcp-supervisor.ts:66-72 | An error of the current child drops it |
| Supervisor.McpSupervisor.OnTimer | src/mcp-supervisor.ts:88-93 | A delayed restart spawns only in the epoch it was armed in |
| Supervisor.McpSupervisor.Reconnect | src/mcp-supervisor.ts:186-199 | A reconnect opens a new epoch, clears the count and spawns |
| Supervisor.McpSupervisor.Stop | src/mcp-supervisor.ts:216-232 | A stop opens a new epoch and drops the child |
| Supervisor.RestartsAreBounded | src/mcp-supervisor.ts:41-108 | In every interleaving in which each start finds no delayed restart pending, at most one timer is live and at most four spawns follow the last start or reconnect; while the supervisor is active, these spawns plus live timers are one more than the restarts |
| Supervisor.RestartArmedExactly | src/mcp-supervisor.ts:74-99 | But for a stop or a reconnect, an event arms a delayed restart exactly when it is the exit of the current child with a code other than 0 and fewer than three restarts were made |
| Supervisor.CrashIsMadeGood | src/mcp-supervisor.ts:74-99 | Such a crash leaves one live timer, and when that fires there is a new child |
| Supervisor.BoundedExactlyWhenSensible | src/mcp-supervisor.ts:41-108 | A run keeps the bound in every state exactly when every start in it finds no delayed restart pending |
| Supervisor.StartKeepsBoundIffQuiet | src/mcp-supervisor.ts:41-50 | Starting again keeps the bound exactly when no delayed restart is pending |
| Supervisor.DoubleStartOverspends | src/mcp-supervisor.ts:41-50 | Two starts around one crash spawn once too often |
| Supervisor.OldTimerNeverSpawns | src/mcp-supervisor.ts:88-93 | A timer armed before a stop or a reconnect never spawns, whatever happens in between |
| Supervisor.StoppedStaysDown | src/mcp-supervisor.ts:216-232 | After a stop nothing spawns until the next start or reconnect |
| MoneyText.ScaledAmountIsExact | launcher/src/format.rs:46-69 | Exactly the digit strings print, each as its number in units of 10^-scale |
| MoneyText.FormatCpxDisplay | launcher/src/format.rs:25-42 | A 64-bit amount prints exactly, whatever the number of decimals, but for the largest amount from 20 decimals on |
| MoneyText.PrintersAgree | launcher/src/format.rs:25-69 | The two printers agree on every amount and scale except 2^64-1 at 20 decimals or more |
| MoneyText.FormatMoneyIs | src/routing-client.ts:394-400 | Sign, currency and figures of the client's printer, for either sign |
| MoneyText.MoneyDigitsAgree | src/routing-client.ts:394-400 | The client's figures are the exact ones exactly when no superfluous zero leads the amount |
| MoneyText.CapIsExact | launcher/src/main.rs:382-427 | A text is accepted as a cap exactly when it is a plain decimal of at most six decimals within 64 bits of micro-dollars, and its exact value is the answer; every other text has one error: empty, signed, malformed, too fine or too large, in that order, a whole part of 128 bits or more being malformed |
| MoneyText.CapRoundTrip | launcher/src/main.rs:382-427 | Reading back a printed amount of micro-dollars gives that amount, up to 2^64-1 |
| SpendLedger.SpendCapLedger.Status | src/spend-cap.ts:94-102 | The status holds the numbers of ledger and cap as text, and whether the cap is reached |
| SpendLedger.CapIsRead | src/spend-cap.ts:53-61 | The variable holds a cap exactly when it is one or more digits between white space, and then the number they write |
| SpendLedger.SpendCapLedger.RecordSpendCapCost | src/spend-cap.ts:76-91 | Recording adds the cost, warns exactly when the ledger enters the band below the cap for the first time, and answers the status after the update exactly when it does not warn |
| SpendLedger.FirstCostWarns | src/spend-cap.ts:82-90 | A first cost warns exactly from nine tenths of the cap up to, but not at, the cap |
| SpendLedger.NineOfTenWarns | src/spend-cap.ts:82-90 | A first cost of nine micro-dollars under a cap of ten is such a warning |
| SpendLedger.SpendCapLedger.AssertSpendCapNotExceeded | src/spend-cap.ts:114-119 | A request passes exactly when no cap is set or less than the cap is spent |
| SpendLedger.LedgerBound | src/spend-cap.ts:63-91 | The ledger never exceeds the true sum, falls short of it by less than one micro-dollar for each cost in finer units, and is exact without such costs |
| SpendLedger.OvershootIsBounded | src/spend-cap.ts:110-119 | In any interleaving of requests and costs the ledger stays below the cap plus what was recorded since the last request that passed |
| SpendLedger.RefusedForGood | src/spend-cap.ts:110-119 | After a refusal every later request under the same cap is refused |
| SpendLedger.WarnsOnce | src/spend-cap.ts:84-91 | One warning is given when some cost leaves the ledger between nine tenths of the cap and the cap, and none otherwise |
| CapExport.CapSurvivesExport | launcher/src/main.rs:382-427 | The cap a user gives the launcher is read back by the ledger as its exact number of micro-dollars |
| Base64Url.EncodeBytes | src/broker.ts:728-741 | The loop of three bytes encodes as specified, group by group, without padding |
| Base64Url.EncodesExactly | src/broker.ts:728-741 | A text decodes to given bytes under section 5 of RFC 4648 exactly when it is their encoding |
| Base64Url.DecodeEncode | src/broker.ts:728-741 | Decoding undoes encoding on every byte string |
| Base64Url.EncodeDecode | src/broker.ts:728-741 | Every text the strict decoder accepts is the encoding of what it decodes to |
| Base64Url.EncodeLength | src/broker.ts:728-741 | Four symbols for every three bytes, rounded up |
| Base64Url.SymbolTable | src/broker.ts:729-730 | The symbols for 0 to 63 are those of table 2 of RFC 4648, section 5 |
| Base64Url.GroupWritesBits | src/broker.ts:731-738 | The four symbols of three bytes write their 24 bits from the highest to the lowest |
| Base64Url.EncodeIsUrlSafe | src/broker.ts:729-730 | Every symbol is in the URL-safe alphabet |
| Base64Url.VerifierLengths | src/broker.ts:717-726 | Encoded random bytes are a code verifier of section 4.1 of RFC 7636 exactly for 32 to 96 bytes; 64 bytes give 86 characters |
| InlineCompletion.InlineCompletionSession.UpdateStart | src/completion/inline-completion.ts:123-139 | An update takes the next number, settles what is open with null, hides what is shown and becomes the pending one |
| InlineCompletion.InlineCompletionSession.UpdateAnswered | src/completion/inline-completion.ts:139-154 | An answer is shown only for the newest update |
| InlineCompletion.InlineCompletionSession.Accept | src/completion/inline-completion.ts:160-166 | The whole text is inserted, recorded, and the session is idle |
| InlineCompletion.InlineCompletionSession.AcceptLineOf | src/completion/inline-completion.ts:169-175 | The first line is inserted, with its newline when lines follow |
| InlineCompletion.InlineCompletionSession.AcceptWordOf | src/completion/inline-completion.ts:178-185 | Leading white space and the word after it are inserted, or everything when there is no word |
| InlineCompletion.FirstWord | src/completion/inline-completion.ts:180-182 | A prefix of white space and then non-space, both as long as possible; absent exactly for a blank text |
| InlineCompletion.LineIsFirst | src/completion/inline-completion.ts:169-175 | Accepting a line inserts what stands before the first newline, and that newline where there is one |
| InlineCompletion.AcceptIsRecorded | src/completion/inline-completion.ts:160-256 | Every accept is recorded as the newest of ten edits, under the path of the session, as a complete or a partial one, by the first line of what it inserts, of which more than 80 characters are cut to 77 and dots; what is still shown is from the same model and not from the cache |
| InlineCompletion.RejectIsRecorded | src/completion/inline-completion.ts:188-199 | A reject of what is shown is recorded likewise, and a reject of nothing is not |
| InlineCompletion.InlineCompletionSession.ApplyPartial | src/completion/inline-completion.ts:238-256 | The rest is shown, split anew, unless it is blank |
| InlineCompletion.InlineCompletionSession.Reject | src/completion/inline-completion.ts:188-199 | A reject supersedes every update, settles what is open with null and hides what is shown |
| InlineCompletion.InlineCompletionSession.Dispose | src/completion/inline-completion.ts:231-236 | What is shown is hidden and what is open is settled with null; an update answered before is not superseded |
| InlineCompletion.InlineCompletionSession.HandleKey | src/completion/inline-completion.ts:205-218 | Which keys are taken, and that an escape in an idle session changes nothing |
| InlineCompletion.InlineCompletionSession.RecordEdit | src/completion/inline-completion.ts:114-117 | The newest ten edits are kept |
| InlineCompletion.RunKeeps | src/completion/inline-completion.ts:114-236 | In every session reachable by updates, settled promises, keys, rejects, edits and disposal something is shown exactly in the showing phase, its lines are its text split, a pending session waits for its newest update, only the newest update of a pending session can be open, and at most ten edits are kept |
| InlineCompletion.AcceptsConserve | src/completion/inline-completion.ts:160-256 | For any mix of accepts the insertions are the suggestion from its start; with what is still shown they are all of it, every accept shortens what is shown, and what is left out in the end is white space, which is never shown on its own |
| InlineCompletion.UpdateIsAnswered | src/completion/inline-completion.ts:123-154 | In any session, an update that nothing supersedes shows the whole answer of the engine with its model, or nothing when that is null |
| InlineCompletion.ShownAnswersNewest | src/completion/inline-completion.ts:123-236 | What is shown is a tail of a completion with which the engine settled the newest update while its promise was open, so before any later update, reject or disposal |
| InlineCompletion.OnlyEarlierAnswersAfterDispose | src/completion/inline-completion.ts:139-236 | After a disposal, whatever else happens before the next update, only a tail of the completion that the newest update had been given by then is ever shown |
| InlineCompletion.NothingAfterReject | src/completion/inline-completion.ts:139-199 | After a reject, whatever else happens before the next update, nothing is shown |
| InlineCompletion.DisposedMayShow | src/completion/inline-completion.ts:139-236 | An answer that was given before a disposal and goes on after it is shown |
| CodebaseIndex.AddSymbols | src/codebase-index/indexer.ts:1027-1033 | The symbol table stays that of all symbols so far |
| CodebaseIndex.AddImports | src/codebase-index/indexer.ts:1034-1044 | The targets of one file without repetition, and its place in the lists of the files it imports |
| CodebaseIndex.CodebaseIndexer.RebuildDerivedMaps | src/codebase-index/indexer.ts:1020-1051 | All three derived maps agree with the stored files |
| CodebaseIndex.FirstIs | src/codebase-index/indexer.ts:1027-1033 | The entry of a name is the first matching symbol: a function, class, variable, export, interface or type alias of that name, exported if asked for, nothing before it matching |
| CodebaseIndex.DefinitionStep | src/codebase-index/indexer.ts:1029-1032 | Replacing an entry only by the first exported symbol after it computes: the first exported eligible symbol, else the first eligible one |
| CodebaseIndex.GraphsAgree | src/codebase-index/indexer.ts:1034-1045 | d is in the list of f exactly when f is in the reverse list of d, exactly when some import of f resolves to d; both lists are free of duplicates |
| CodebaseIndex.CodebaseIndexer.IndexAll | src/codebase-index/indexer.ts:770-798 | A full index holds the walk in order up to the limit on files, with agreeing maps |
| CodebaseIndex.FullIndexMirrorsDisk | src/codebase-index/indexer.ts:770-798 | Within the limit it holds exactly the files that were walked, read and parsed |
| CodebaseIndex.FullIndexInWalkOrder | src/codebase-index/indexer.ts:770-798 | It lists its files in the order in which the walk first comes to them, and stops exactly at the end of the walk or after 5,000 parses |
| CodebaseIndex.CodebaseIndexer.IndexChanged | src/codebase-index/indexer.ts:800-839 | An update re-parses, deletes and rebuilds as specified, and the maps agree even when nothing is rebuilt |
| CodebaseIndex.CodebaseIndexer.Absorb | src/codebase-index/indexer.ts:808-823 | Walked files that are new or changed are re-parsed, unreadable ones are skipped, and a change is reported exactly when the stored files changed |
| CodebaseIndex.CodebaseIndexer.Drop | src/codebase-index/indexer.ts:824-829 | Entries the walk did not see are deleted, and a change is reported exactly when there were any |
| CodebaseIndex.RefreshMirrorsDisk | src/codebase-index/indexer.ts:800-839 | After an update only walked files remain; each that reads and parses has its entry from the disk, or its old one exactly when that has the same hash, and each that does not has its old entry |
| CodebaseIndex.RefreshKeepsOrder | src/codebase-index/indexer.ts:800-839 | The files that remain keep their order, and new ones follow in the order of the walk |
| CodebaseIndex.UniqueInOrder | src/codebase-index/indexer.ts:1034-1044 | Targets without repetition stand in the order of their first occurrence |
| CodebaseIndex.RefreshTwice | src/codebase-index/indexer.ts:800-839 | A second update of the same disk changes nothing |
| CodebaseIndex.CodebaseIndexer.IndexFile | src/codebase-index/indexer.ts:841-861 | One file is replaced in place or added, and the maps agree again |
| CodebaseIndex.CodebaseIndexer.GetDependents | src/codebase-index/indexer.ts:910-914 | The files with an import that resolves to the path, each once, in the order of the index |
| CodebaseIndex.CodebaseIndexer.GetDependencies | src/codebase-index/indexer.ts:916-920 | The files some import of the path resolves to, each once, in the order of the imports |

## Left out

- RefreshLock.RefreshIsSafe: login running beside a refresh, a failing or late keyring deletion, a failing removal of the old credentials file, and a store that verifies differently from what was written are not part of this model.
- Supervisor.RestartsAreBounded: the equality is stated while the supervisor is active; a stop discards a pending restart without lowering the count, so afterwards only the bound holds.
- MerkleProof.PositionBinding: leaf category and leaf count are compared only as the code compares them; the count is not related to the path length beyond the single leaf.
- CodebaseIndex.RefreshMirrorsDisk: entries are compared by content hash; imports of unchanged files are not resolved again.
- CodebaseIndex.CodebaseIndexer.IndexChanged: an index loaded from the cache file is taken to be one that was stored whole; loading, persisting, watching and the walk itself are not part of this model.
- InlineCompletion.RunKeeps: listeners and the construction of the completion context are not part of this model; the engine settles each promise once and settles what is open with null when asked to cancel, as `CompletionEngine.SettledForGood` states of it.
- Wire.FailureIsOnTheWire: an error thrown without a code has the empty code, and its class is what the parameters for transient errors make of it.
- EventStream.Stream: an abort or a transport failure is the error that reading ends with; a stall cancels the reader, so reading ends as if the response were complete. Refreshing the token after a 401 and the timers that detect stalls are not part of this model. A `type` member that is neither absent nor text is reported like an absent one, as undefined.
- JSON reading, including `proof_from_json` and `field_from_json`, is a parameter or left out; so are SHA-256, Ed25519 and the TypeScript syntax tree.
- `addMoney`, `zeroMoney` and the dollar reference printer.
- The figures that the adapter derives from the cost, and the route observer.
- Backoff delays, jitter and wall-clock limits: only "the timer fires" and "time passes" are steps.
- The supervisor's health label, its handshake and its periodic health checks: late output can change the label after a stop, so only spawns are stated.
- Consumers that cancel a stream half way.
- `postProcessCompletion`, model selection and cache keys of the completion engine.
- `findDefinition` and `findReferences` of the index; the symbol table they read is modelled.
- Plan ids, timestamps and log lines of the edit planner; the directories that a write creates along the way.
- UTF-16 code units: lengths of previews and of overlaps count characters.
- The agent timeline and profiler, whose sources are not part of the repository; intelligence, planner, skill and template modules.
