# Verified model of Wovyr's core protocols and algorithms

This project models, in Dafny, the parts of Wovyr whose correctness is an argument rather than a
reading, and proves what they promise. `dafny verify dfyconfig.toml` checks everything.

| file | models |
|---|---|
| `AuditModel`, `AuditScan`, `AuditPages` | the audit log's page reads: the default page, the backward chunked scan over the file's bytes, the cursor walk |
| `AuditChain`, `AuditProtocol`, `AuditLog` | the keyed hash chain and head anchor, `record` by many processes with crashes, and the log as an object over its files |
| `Context`, `Runtime` | token-budgeted compaction and the agent loop that uses it, driven by an arbitrary model and arbitrary tools |
| `KmsModel`, `LocalKms` | the key hierarchy as sequential operations, and the file-backed store and methods that compute them |
| `KmsProtocol`, `KmsSafety`, `KmsTheorems` | the same operations by many processes on one file, one effect per step, and what every run guarantees before and after a crypto-shred |
| `Webhooks`, `Catalog` | the encrypting webhook store as a refinement of the in-memory one |
| `AtomicFile` | `atomic_write` over inodes, and the generate-once root key |
| `Chunk` | splitting a document into overlapping windows |
| `CivilDate`, `UriXml` | timestamps, percent-encoding and the listing scan of the object-store client |
| `Redactor`, `RedactorSafety`, `RedactorExact` | the PII redactor, that nothing sensitive is left, and what exactly is replaced |
| `Prompts` | immutable prompt versions and weighted experiment arms |
| `Seqs`, `Text` | shared sequence functions and characters |

How the outside world enters:

- HMAC-SHA256 and SHA-256 are an arbitrary function to 64 hex digits. Binding is never assumed: where
  it is needed, the theorem says "equal, or here are two different inputs with the same digest".
- AES-GCM is a free constructor that opens under the sealing key only; keys and nonces are identities
  that are never reused.
- JSON is a pair of functions of which decoding undoes encoding, on newline-free lines starting with a
  brace (log lines) or a non-empty array (hash bodies).
- Model replies, stream errors, tool outcomes, output guardrails, token counts, template validation and
  rendering are arbitrary functions. Clocks and randomness are parameters.

Where the code and its own words differ, the model follows the code:

- `apps/wovyr-cli/src/kms.rs:18-21` says a destroyed tenant is silently re-provisioned by the next seal. The
  code refuses (`crates/wovyr-kms/src/kms.rs:67-73`); see `KmsTheorems.ShredEndsKeyGeneration`.
- `verify` takes no lock and reads the log before the anchor, so it can reject an honest log;
  `AuditProtocol.SplitVerifyAcceptsIff` says exactly when.
- `crates/wovyr-audit/src/log.rs:623-625` calls the window between append and anchor harmless. The very
  first one is not: `AuditProtocol.CrashBeforeFirstAnchor`, with the exact condition in
  `AuditProtocol.VerifyAcceptsIff`.
- Reading everything trims Unicode whitespace and the backward scan only ASCII whitespace, so a line holding
  just a vertical tab is blank to one and corrupt to the other (`AuditPages.VerticalTabFile`).
  `AuditPages.ScanIsDefaultPageIff` says exactly when the page is still right; no file the log writes holds
  such a line (`AuditPages.RenderReadsBack`).
- A tenant's shred does not stop an unwrap or a rewrap that has already read the record
  (`KmsTheorems.ReadersInFlightReadBefore`). Such an unwrap still returns the plaintext data key, and `open` then
  the payload, exactly if the key opened under what it read (`KmsTheorems.UnwrapReturnsIff`); such a rewrap still
  returns a wrapped key (`KmsTheorems.LateRewrapReturnsIff`), which every later read refuses
  (`KmsTheorems.LateRewrapIsUseless`). Neither yields a data key made after the shred
  (`KmsTheorems.OnlyOldKeysComeOut`).

What a promise covers, where the repository gives no bound:

- `crates/wovyr-memory/src/chunk.rs:26-28`: a fact across a boundary is whole in every document if and only if it is
  one word, or is within `max_chars` and its words without the first and the last, each with a space, come to
  less than the overlap (`Chunk.NeverCutIff`). So, within `max_chars`, two neighbouring words are never cut apart
  once there is any overlap (`Chunk.NeighboursStayTogether`), nor is a fact at most two characters longer than the
  overlap (`Chunk.ShortFactsAppearWhole`); for overlaps of two and more some fact three characters longer is
  (`Chunk.OneMoreCanBeCut`).
- Timestamps order as strings up to the end of year 9999 (`CivilDate.AmzDateOrders`), and beyond it exactly as
  `CivilDate.AmzDateOrdersIff` says.

## Model

| member | source | states |
|---|---|---|
| `AuditModel.SortDescIsAStableSort` | crates/wovyr-audit/src/log.rs:210-230 | the default page's sort is descending by sequence number, loses and invents nothing, and keeps entries of equal number in log order |
| `AuditModel.DefaultPageOfAscending` | crates/wovyr-audit/src/log.rs:210-230 | on an ascending log the default page is the newest `limit` matches below the cursor, newest first, with a cursor exactly when more remain |
| `AuditModel.DefaultPageAnswers` | crates/wovyr-audit/src/log.rs:210-230 | in terms of the fields asked for: every entry of the default page is a log entry of the asked tenant, principal and action, within the asked times and below the cursor, newest first and at most `limit`; with no next cursor every such entry is on the page |
| `AuditScan.CutLines` | crates/wovyr-audit/src/log.rs:403-418 | one buffer is cut at its newlines into exactly its lines |
| `AuditScan.ScanReverse` | crates/wovyr-audit/src/log.rs:344-453 | for every chunk size of at least one byte the backward read with its carry buffer visits exactly the lines of the file, last first, and ends |
| `AuditScan.WalkBackConcat` | crates/wovyr-audit/src/log.rs:344-453 | visiting the lines of a later buffer and then those of an earlier one is visiting all of them |
| `AuditPages.ScanIsDefaultPage` | crates/wovyr-audit/src/log.rs:210-230 | main theorem: on every readable ascending file both readers find the same blank lines in, the scan returns the page of the read-everything, filter, sort and truncate default, entries and cursor |
| `AuditPages.ScanIsDefaultPageIff` | crates/wovyr-audit/src/log.rs:296-309 | for every readable ascending file whatever its blank lines: the scan returns the default page if and only if no line is blank to the read-everything reader alone, or the matches behind the last such line overfill the page |
| `AuditPages.DisputedLineHidden` | crates/wovyr-audit/src/log.rs:420-443 | with one such line, the page is right exactly when the lines behind it hold more than `limit` matches |
| `AuditPages.VerticalTabFile` | crates/wovyr-audit/src/log.rs:296-309 | the shortest such file, a vertical tab and a newline: an empty log to one reader, corrupt to the other |
| `AuditPages.BadLineIsReportedIffReached` | crates/wovyr-audit/src/log.rs:420-443 | a corrupt line fails a page read if and only if the intact lines after it leave the page unfilled |
| `AuditPages.RenderReadsBack` | crates/wovyr-audit/src/log.rs:278-309 | a file written by appends reads back as the appended entries |
| `AuditPages.WalkSlices` | crates/wovyr-audit/src/log.rs:210-230 | page k of a cursor walk is the k-th slice of the first log's matches, even if the log grows between pages |
| `AuditPages.WalkYieldsAll` | crates/wovyr-audit/src/log.rs:664-671 | walking cursors with `limit >= 1` yields the matches present at the first page in descending order, each once, and all of them exactly when the cursor runs out; stated also by the tenant, principal, action and times asked for |
| `AuditPages.WalkTerminates` | crates/wovyr-audit/src/log.rs:664-671 | a walk has at most one page per match plus one |
| `AuditChain.ChainInputUnambiguous` | crates/wovyr-audit/src/log.rs:81-104 | previous hash followed by the JSON body determines both: no two entries hash the same bytes |
| `AuditChain.HeadInputUnambiguous` | crates/wovyr-audit/src/log.rs:124-131 | the anchor's MAC input determines the sequence number and the hash |
| `AuditChain.DomainsDisjoint` | crates/wovyr-audit/src/log.rs:122-131 | no chain input is ever an anchor's MAC input |
| `AuditChain.VerifyChain` | crates/wovyr-audit/src/log.rs:680-706 | accepts exactly the well-linked logs and otherwise names the first entry that breaks and which check failed first |
| `AuditChain.Verify` | crates/wovyr-audit/src/log.rs:680-755 | accepts if and only if the chain links and, keyed, the anchor is authentic and names a present entry; on a linked log each of the five anchor faults is reported exactly under its own condition |
| `AuditChain.AcceptedAnchorsAreMade` | crates/wovyr-audit/src/log.rs:673-755 | a keyed verify accepts exactly the linked logs with an anchor that `record` makes for one of their entries |
| `AuditChain.SharedHashBinds` | crates/wovyr-audit/src/log.rs:81-104 | two accepted logs with the same hash at i are identical through i, or exhibit a collision of the digest at or below i |
| `AuditChain.AnchorBinds` | crates/wovyr-audit/src/log.rs:673-755 | a log accepted against an untouched anchor agrees with the genuine one up to the anchor, or exhibits a collision: edits, deletions, reorderings and truncation below it are caught |
| `AuditChain.AnchorMacBinds` | crates/wovyr-audit/src/log.rs:110-131 | an anchor reusing a genuine MAC is that anchor, or exhibits a collision |
| `AuditChain.NextEntryExtends` | crates/wovyr-audit/src/log.rs:606-622 | the entry `record` builds from the tip keeps the log an accepted chain |
| `AuditProtocol.StepKeepsInv` | crates/wovyr-audit/src/log.rs:599-641 | every step of every process, crashes included, keeps the chain, the anchor, the lock and every recorded entry in order |
| `AuditProtocol.RunGrows` | crates/wovyr-audit/src/log.rs:599-641 | over every run the log only grows, the anchor never moves back and nothing recorded is forgotten |
| `AuditProtocol.SoloRecordAppends` | crates/wovyr-audit/src/log.rs:599-641 | the steps of an undisturbed `record` add one entry with its event, return it, and leave an accepted log whose anchor names it |
| `AuditProtocol.LogIsOneChain` | crates/wovyr-audit/src/log.rs:606-622 | in every reachable state the log is one unforked chain numbered 0..n-1 with distinct ids, and the anchor is never ahead of it |
| `AuditProtocol.LogHoldsWhatWasAsked` | crates/wovyr-audit/src/log.rs:599-622 | every entry of every reachable log records, unchanged, an event somebody asked to have recorded |
| `AuditProtocol.OneWriter` | crates/wovyr-common/src/fs.rs:152-184 | never two processes between taking and releasing the lock |
| `AuditProtocol.RecordedIsSafe` | crates/wovyr-audit/src/log.rs:592-641 | an entry `record` returned stays in every later log, and cutting the log below it is always detected |
| `AuditProtocol.RecordedIsBound` | crates/wovyr-audit/src/log.rs:673-755 | any file that passes against the anchor agrees with the honest log through every entry ever returned, or exhibits a collision |
| `AuditProtocol.VerifyAcceptsIff` | crates/wovyr-audit/src/log.rs:680-755 | `verify` as one step accepts a reachable state if and only if the log is empty or an anchor was ever published |
| `AuditProtocol.SplitVerifyAcceptsIff` | crates/wovyr-audit/src/log.rs:681-709 | `verify` reading the log first and the anchor later accepts if and only if the anchor has not overtaken the log it read |
| `AuditProtocol.SplitVerifyCanRaiseFalseAlarm` | crates/wovyr-audit/src/log.rs:681-709 | a concrete run in which a completed `record` between the two reads makes `verify` reject an honest log |
| `AuditProtocol.CrashBeforeFirstAnchor` | crates/wovyr-audit/src/log.rs:743-751 | a concrete run in which a crash between the first append and the first anchor leaves a log that `verify` rejects |
| `AuditLog.FileAuditLog.Record` | crates/wovyr-audit/src/log.rs:599-641 | appends exactly one line and the new anchor, leaves an unreadable log alone, and keeps the files those of a chain |
| `AuditLog.FileAuditLog.QueryPage` | crates/wovyr-audit/src/log.rs:312-325 | the bounded page read equals the default page of the chain the file holds: only entries of the asked tenant, principal, action and times, and all of them below the cursor when no next cursor comes back |
| `AuditLog.FileAuditLog.VerifyLog` | crates/wovyr-audit/src/log.rs:680-755 | verifies what is on disk; a log touched only by `record` passes |
| `AuditLog.EveryReachablePageIsExact` | crates/wovyr-audit/src/log.rs:312-325 | whatever writers and crashes did, a page read from the resulting file is the default page of the log |
| `Context.RoundsPartition` | crates/wovyr-agent/src/context.rs:138-153 | grouping loses nothing, and every round but possibly the first opens with the only assistant message it holds |
| `Context.RoundsAreUnique` | crates/wovyr-agent/src/context.rs:138-153 | that grouping is the only one: any rounds of that shape are recovered from their messages |
| `Context.PreambleEnd` | crates/wovyr-agent/src/context.rs:123-136 | the index after the leading system messages and the user message right behind them |
| `Context.PreambleIsLeading` | crates/wovyr-agent/src/context.rs:123-136 | the preamble is all leading system messages and a user turn right behind them, nothing else |
| `Context.GroupRounds` | crates/wovyr-agent/src/context.rs:143-153 | the loop builds exactly that grouping |
| `Context.DropRounds` | crates/wovyr-agent/src/context.rs:94-109 | the loop drops the fewest oldest rounds whose removal makes the prompt fit, or all |
| `Context.Compact` | crates/wovyr-agent/src/context.rs:68-121 | the compacted messages, how many were dropped, and the token count after |
| `Context.CompactDropsShortestPrefix` | crates/wovyr-agent/src/context.rs:68-121 | with the cost of the tools the result is within the budget or is the bare preamble, and dropping any fewer rounds would exceed it |
| `Context.CompactConserves` | crates/wovyr-agent/src/context.rs:68-121 | kept plus dropped is the original: one block of whole rounds right after the preamble goes |
| `Context.CompactedShape` | crates/wovyr-agent/src/context.rs:68-121 | the preamble survives untouched and the kept rounds are a suffix of the rounds |
| `Context.CompactionIsPathIndependent` | crates/wovyr-agent/src/context.rs:68-121 | compacting before or after further rounds arrive gives the same prompt |
| `Context.CompactIsIdempotent` | crates/wovyr-agent/src/context.rs:68-121 | compacting twice is compacting once |
| `Context.LargerBudgetKeepsMore` | crates/wovyr-agent/src/context.rs:68-121 | a larger budget keeps at least as long a suffix |
| `Context.CompactKeepsPairs` | crates/wovyr-agent/src/context.rs:14-18 | compaction never separates a tool call from its results |
| `Runtime.StreamChat` | crates/wovyr-agent/src/runtime.rs:503-553 | the first stream error fails the call, otherwise the last completed response counts; exactly the items before an error are shown, and nothing when buffered |
| `Runtime.ReplyMeans` | crates/wovyr-agent/src/runtime.rs:503-553 | the first error of a stream is its outcome; without one a completed response in last place is, and with none at all a provider error |
| `Runtime.LastCompletedCounts` | crates/wovyr-agent/src/runtime.rs:503-553 | without errors the last completed response counts, whatever fragments follow it |
| `Runtime.ShownIsSaid` | crates/wovyr-agent/src/runtime.rs:503-553 | unbuffered, what is shown is what the stream says before its first error, in order; only empty pieces are left out |
| `Runtime.CallModel` | crates/wovyr-agent/src/runtime.rs:396-420 | at most `step_retries + 1` attempts; only provider errors are retried; the result is that of the last attempt |
| `Runtime.RunTools` | crates/wovyr-agent/src/runtime.rs:433-462 | adds the assistant turn and one result per call, in call order; every call is announced before any result |
| `Runtime.RoundIsPaired` | crates/wovyr-agent/src/runtime.rs:433-462 | such a round pairs every call with its own result by id and name, and each result holds what the tool answered |
| `Runtime.ToolEventsAt` | crates/wovyr-agent/src/runtime.rs:433-462 | call i is announced i-th with its name and arguments, and its success reported i-th behind all announcements |
| `Runtime.UsageIsSum` | crates/wovyr-agent/src/runtime.rs:417 | prompt, completion and total tokens and the cost are each summed over the replies |
| `Runtime.StepAddsUp` | crates/wovyr-agent/src/runtime.rs:396-462 | a step adds to the run's account exactly its reply and what its attempts and tools emitted; failed attempts add no reply |
| `Runtime.BufferedShowsNothingRaw` | crates/wovyr-agent/src/runtime.rs:313-316 | while streaming is buffered no text, call fragment or reasoning of the model is ever emitted |
| `Runtime.Conclude` | crates/wovyr-agent/src/runtime.rs:465-497 | the result and the closing events after the loop, guardrail refusals included |
| `Runtime.LoopCompactsLikeOneShot` | crates/wovyr-agent/src/runtime.rs:341-367 | over a whole run, compacting at every step sends what one compaction of the never-dropped history would send |
| `Runtime.LoopHistoryIsPaired` | crates/wovyr-agent/src/runtime.rs:341-462 | the history of every step is the kept preamble followed by complete rounds |
| `Runtime.Step` | crates/wovyr-agent/src/runtime.rs:353-462 | one step keeps the loop's invariant: request, attempts, usage, history and events |
| `Runtime.RunAgent` | crates/wovyr-agent/src/runtime.rs:336-497 | at most `max_steps` replies and `max_steps * (step_retries + 1)` calls, every request as specified, replies and events exactly those of the calls made, and the result: an error no retry was left for, or what the last reply, the budget and the guardrails determine |
| `Runtime.RunIsDetermined` | crates/wovyr-agent/src/runtime.rs:336-497 | that description leaves nothing open: for given model replies, tools, guardrails and options no two runs meet it, and `RunAgent` makes one |
| `Runtime.PermanentErrorEndsTheRun` | crates/wovyr-agent/src/runtime.rs:396-415 | an error that is not the provider's, or one more in a row than may be retried, is the run's last call and its result |
| `Runtime.OkMeansAnswered` | crates/wovyr-agent/src/runtime.rs:421-430 | a run succeeds only on a last reply without tool calls, and reports the usage of all replies and their number |
| `Runtime.ResultIsTheCheckedAnswer` | crates/wovyr-agent/src/runtime.rs:465-497 | the text of a successful run is what the output guardrails returned for the last reply's content, or that content where nothing checks it |
| `Runtime.GuardDecides` | crates/wovyr-agent/src/runtime.rs:478-486 | a run whose last reply answers is decided by the guardrail: its refusal is the result, its text the output |
| `Runtime.NothingUncheckedIsShown` | crates/wovyr-agent/src/runtime.rs:313-316 | with output guardrails a run shows no text of the model but, at the end, the text the guardrails returned |
| `Runtime.RequestsAreSound` | crates/wovyr-agent/src/runtime.rs:320-385 | every request of every run is the one-shot compaction of the conversation so far, carries the instructions, the grounding and the prompt, pairs calls with results, and is within the token budget unless the opening alone is not; only the forced-answer note comes on top |
| `KmsModel.TenantKeySelects` | crates/wovyr-kms/src/kms.rs:103-112 | in a well-formed record a version number selects its own key and no other number selects any |
| `KmsModel.GeneratedKeyOpens` | crates/wovyr-kms/src/kms.rs:128-148 | generate fails exactly for a shredded tenant, and otherwise returns a key that opens |
| `KmsModel.OpensThroughGenerateAndRotate` | crates/wovyr-kms/src/kms.rs:128-188 | no generate or rotate, for any tenant, stops an earlier wrapped key from opening |
| `KmsModel.RotateMakesAFreshKey` | crates/wovyr-kms/src/kms.rs:173-188 | the key of a rotation's new version was in no record of any tenant before, and differs from all the tenant's earlier ones |
| `KmsModel.NewDataKeysNeedTheNewVersion` | crates/wovyr-kms/src/kms.rs:173-188 | a data key minted after a rotation opens under the new version's key and under no earlier one's |
| `KmsModel.EachDataKeyIsNew` | crates/wovyr-kms/src/kms.rs:128-148 | every generated data key and every nonce is new |
| `KmsModel.UnknownTenant` | crates/wovyr-kms/src/kms.rs:67-197 | for an unknown tenant unwrap, rewrap and destroy fail and change nothing, while generate and rotate provision it |
| `KmsModel.RewrapOpensToTheSameKey` | crates/wovyr-kms/src/kms.rs:157-171 | rewrap moves the same data key onto the current version |
| `KmsModel.SealThenOpen` | crates/wovyr-kms/src/envelope.rs:23-36 | opening undoes sealing |
| `KmsModel.SealedIsFresh` | crates/wovyr-kms/src/envelope.rs:23-36 | a payload is sealed under a data key minted for it alone, with a nonce used for nothing else |
| `KmsModel.OpenDataKept` | crates/wovyr-kms/src/envelope.rs:23-36 | sealed data keeps opening to the same plaintext while anyone seals and any tenant rotates |
| `LocalKms.FileKmsStore.LoadAll` | crates/wovyr-kms/src/store.rs:87-96 | the catalog the file's record list stands for |
| `LocalKms.FileKmsStore.Put` | crates/wovyr-kms/src/store.rs:98-127 | load, insert and persist change exactly one record |
| `LocalKms.LocalKms.RecordOrProvision` | crates/wovyr-kms/src/kms.rs:67-101 | provisions a first version only for an unknown tenant and refuses a shredded one |
| `LocalKms.LocalKms.GenerateDataKey` | crates/wovyr-kms/src/kms.rs:128-148 | the method on the file-backed store computes the specified generate |
| `LocalKms.LocalKms.UnwrapDataKey` | crates/wovyr-kms/src/kms.rs:150-155 | the specified unwrap |
| `LocalKms.LocalKms.RewrapDataKey` | crates/wovyr-kms/src/kms.rs:157-171 | the specified rewrap |
| `LocalKms.LocalKms.RotateTenantKey` | crates/wovyr-kms/src/kms.rs:173-188 | the specified rotate |
| `LocalKms.LocalKms.DestroyTenantKey` | crates/wovyr-kms/src/kms.rs:190-197 | the specified destroy |
| `KmsSafety.StepKeepsInv` | crates/wovyr-kms/src/kms.rs:67-197 | every step of every process keeps the store well formed, the key hierarchy typed and every returned key openable |
| `KmsSafety.RunGrows` | crates/wovyr-kms/src/kms.rs:67-197 | over every run records only continue or are shredded, and every key keeps its owner |
| `KmsTheorems.VersionsAreOneToN` | crates/wovyr-kms/src/model.rs:14-46 | in every reachable state a live tenant's versions are exactly 1..n with n >= 1, a shredded one's none |
| `KmsTheorems.CurrentVersionExists` | crates/wovyr-kms/src/kms.rs:133-171 | the `expect` on the current version never fires |
| `KmsTheorems.VersionKeysDiffer` | crates/wovyr-kms/src/kms.rs:173-188 | in every reachable state different versions, of one tenant or of two, carry different keys |
| `KmsTheorems.RotationKeyIsNew` | crates/wovyr-kms/src/kms.rs:173-188 | in every run the key a rotation adds is in no ciphertext and owned by nobody before, and then the tenant's |
| `KmsTheorems.OnlyItsVersionOpens` | crates/wovyr-kms/src/kms.rs:103-155 | a wrapped key handed out opens under the key of the version it names and under no other version's of any tenant |
| `KmsTheorems.NoncesNeverRepeat` | crates/wovyr-kms/src/crypto.rs:42-58 | no two ciphertexts made in a run share a nonce |
| `KmsTheorems.IssuedKeysKeepUnwrapping` | crates/wovyr-kms/src/kms.rs:127-188 | every wrapped key ever returned unwraps to its data key through any interleaving, exactly until its tenant is shredded |
| `KmsTheorems.WrongTenantFailsClosed` | crates/wovyr-kms/src/kms.rs:150-155 | under any other tenant and any claimed version a wrapped key never unwraps |
| `KmsTheorems.RotationsAreNotLost` | crates/wovyr-kms/src/kms.rs:173-188 | a version a rotation returned is never dropped or replaced while the tenant lives |
| `KmsTheorems.RotationsAreDistinct` | crates/wovyr-kms/src/kms.rs:173-188 | two rotations never return the same version |
| `KmsTheorems.OtherTenantsUntouched` | crates/wovyr-kms/src/store.rs:123-127 | the whole-file rewrite for one tenant leaves all other records as they were |
| `KmsTheorems.SoloGenerateIsSequential` | crates/wovyr-kms/src/kms.rs:128-148 | the steps of an undisturbed generate compute the sequential generate |
| `KmsTheorems.SoloRotateIsSequential` | crates/wovyr-kms/src/kms.rs:173-188 | the steps of an undisturbed rotate compute the sequential rotate |
| `KmsTheorems.SoloDestroyIsSequential` | crates/wovyr-kms/src/kms.rs:190-197 | the steps of an undisturbed destroy shred exactly that tenant's record, and give up exactly where the sequential destroy fails |
| `KmsTheorems.SoloUnwrapIsSequential` | crates/wovyr-kms/src/kms.rs:150-155 | an undisturbed unwrap returns exactly what the sequential one does and changes nothing |
| `KmsTheorems.SoloRewrapIsSequential` | crates/wovyr-kms/src/kms.rs:157-171 | an undisturbed rewrap computes the sequential rewrap and hands its result out for the same data key |
| `KmsTheorems.ShredIsAbsorbing` | crates/wovyr-kms/src/kms.rs:190-197 | after a shred the record never changes again and nothing presented for the tenant opens, in every run |
| `KmsTheorems.ShredEndsKeyGeneration` | crates/wovyr-kms/src/kms.rs:67-86 | after a shred no key is ever made for the tenant again |
| `KmsTheorems.ShreddedOperationsFail` | crates/wovyr-kms/src/kms.rs:67-86 | generate, rotate and destroy on a shredded tenant give up at their first read and issue nothing, and no rewrap can start |
| `KmsTheorems.ReadersInFlightReadBefore` | crates/wovyr-kms/src/kms.rs:150-171 | whoever is still at work on a shredded tenant's record read it before the shred, and has read nothing since |
| `KmsTheorems.UnwrapReturnsIff` | crates/wovyr-kms/src/kms.rs:150-155 | an unwrap returns the plaintext data key if and only if the presented key opens under the record it read, shredded since or not |
| `KmsTheorems.ReadBeforeShredOpens` | crates/wovyr-kms/src/kms.rs:150-155 | every wrapped key returned so far opens under what an unwrap reads while the tenant lives |
| `KmsTheorems.OnlyOldKeysComeOut` | crates/wovyr-kms/src/kms.rs:150-171 | whatever unwraps and rewraps return, before or after a shred, it is a data key made for that tenant before it |
| `KmsTheorems.LateRewrapReturnsIff` | crates/wovyr-kms/src/kms.rs:157-171 | a rewrap that read its record before the shred still returns if and only if the presented key opened under what it read |
| `KmsTheorems.LateRewrapIsUseless` | crates/wovyr-kms/src/kms.rs:157-171 | such a rewrap is the only step that still issues a wrapped key of a shredded tenant, of an old data key, and every unwrap that reads from then on refuses it |
| `KmsTheorems.ShreddedKeysAreUnderivable` | crates/wovyr-kms/src/kms.rs:190-197 | from the root key, the store, all wrapped keys and all payloads no derivation of any depth reaches a key of a shredded tenant |
| `KmsTheorems.LeakedKeysRevealNoOthers` | crates/wovyr-kms/src/kms.rs:190-197 | even with any data keys leaked, unwraps in flight included, a derivation of any depth reaches no other key of a shredded tenant |
| `KmsTheorems.ShreddedPayloadsStaySealed` | crates/wovyr-kms/src/envelope.rs:23-36 | so no payload sealed for it can be opened that way |
| `KmsTheorems.SealedPayloadOpens` | crates/wovyr-kms/src/envelope.rs:23-36 | a payload sealed with a data key in hand is persisted as a new ciphertext which that key opens again |
| `KmsTheorems.LiveKeysAreDerivable` | crates/wovyr-kms/src/kms.rs:103-112 | the same closure does reach every data key of a live tenant, so the statement above is not vacuous |
| `Catalog.LoadDumpsBack` | crates/wovyr-events/src/encrypted_store.rs:70-88 | persisting a keyed catalog as a list and loading it gives the catalog back |
| `Webhooks.EncryptedFileWebhookStore.Register` | crates/wovyr-events/src/encrypted_store.rs:95-132 | seals the secret, then replaces exactly one record; a refused seal changes nothing: the answer and the new state are those of the specified call |
| `Webhooks.EncryptedFileWebhookStore.List` | crates/wovyr-events/src/encrypted_store.rs:139-145 | the tenant's records decrypted in id order, the first failure failing the list: the specified answer |
| `Webhooks.EncryptedFileWebhookStore.Get` | crates/wovyr-events/src/encrypted_store.rs:134-137 | one record decrypted, or none: the specified answer |
| `Webhooks.EncryptedFileWebhookStore.Matching` | crates/wovyr-events/src/store.rs:33-39 | the listed subscriptions that want the event: the specified answer |
| `Webhooks.EncryptedFileWebhookStore.Delete` | crates/wovyr-events/src/encrypted_store.rs:147-154 | removes exactly one record or reports it missing: the specified answer and new state |
| `Webhooks.InMemoryWebhookStore.Register` | crates/wovyr-events/src/store.rs:56-60 | the plain store's specified answer and new state |
| `Webhooks.InMemoryWebhookStore.Delete` | crates/wovyr-events/src/store.rs:81-87 | the plain store's specified answer and new state |
| `Webhooks.EncryptedStoreRefinesPlain` | crates/wovyr-events/src/encrypted_store.rs:124-154 | every sequence of register, get, list, matching and delete, interleaved with rotations, is answered as by the plain store |
| `Webhooks.ListsTheTenant` | crates/wovyr-events/src/store.rs:69-79 | a list shows exactly the stored subscriptions of the tenant |
| `Webhooks.MatchesTheEvent` | crates/wovyr-events/src/subscription.rs:56-71 | a match shows exactly the tenant's active subscriptions one of whose patterns names the event or ends in a star after a prefix of it |
| `Webhooks.PlainStoreLaws` | crates/wovyr-events/src/store.rs:54-88 | what was registered last under an id is found until it is deleted, and other ids are not touched |
| `Webhooks.ListsInIdOrder` | crates/wovyr-events/src/store.rs:69-79 | lists come in id order |
| `Webhooks.FreshStoresAgree` | crates/wovyr-events/src/store.rs:55-88 | in particular from two empty stores |
| `Webhooks.DestroyHidesOneTenant` | crates/wovyr-events/src/encrypted_store.rs:134-137 | a shred takes away exactly that tenant's subscriptions; every other is found as before |
| `Webhooks.ShreddedSubscriptionsAreUnreadable` | crates/wovyr-events/src/encrypted_store.rs:108-121 | once its tenant is shredded a subscription can be neither read, nor listed, nor matched, only deleted |
| `AtomicFile.StepKeepsInv` | crates/wovyr-common/src/fs.rs:38-50 | under the lock every step, crashes included, leaves the file as it was or makes it one complete new content |
| `AtomicFile.ReadersSeeOldOrNew` | crates/wovyr-common/src/fs.rs:29-50 | in every run a reader sees nothing or one complete content somebody set out to write |
| `AtomicFile.FirstContentStays` | crates/wovyr-kms/src/root.rs:51-74 | generate once: the first content is never replaced |
| `AtomicFile.SoloWriteReplaces` | crates/wovyr-common/src/fs.rs:38-50 | the steps of an undisturbed write end with readers seeing the content |
| `AtomicFile.SoloReadReturns` | crates/wovyr-kms/src/root.rs:41-54 | whoever finds a root key returns it and changes nothing |
| `AtomicFile.WithoutLockWritesMix` | crates/wovyr-common/src/fs.rs:38-56 | why the lock matters: a concrete run without it, in which sharing the temp-file name leaves a content nobody wrote |
| `AtomicFile.HexRoundTrip` | crates/wovyr-kms/src/root.rs:56-82 | decoding undoes the hex encoding of the key |
| `AtomicFile.HexDigitsAt` | crates/wovyr-kms/src/root.rs:60-61 | the key file holds two lowercase hex digits to a byte, the high half first |
| `AtomicFile.EveryoneGetsTheKeyOnDisk` | crates/wovyr-kms/src/root.rs:41-74 | however many processes race and crash, everyone who gets a root key gets the one on disk, now and later |
| `Chunk.GrowWindow` | crates/wovyr-memory/src/chunk.rs:65-74 | the first inner loop finds the window's end |
| `Chunk.StepBack` | crates/wovyr-memory/src/chunk.rs:82-88 | the second inner loop finds the next start |
| `Chunk.Split` | crates/wovyr-memory/src/chunk.rs:50-90 | the whole loop renders exactly the specified windows, for any overlap, and ends |
| `Text.WordsOfLayout` | crates/wovyr-memory/src/chunk.rs:51 | non-empty pieces without whitespace, laid out with whitespace between and optionally around them, are exactly the words of that text |
| `Text.TextIsLayout` | crates/wovyr-memory/src/chunk.rs:51 | every text is such a layout of its words |
| `Text.WordsAround` | crates/wovyr-memory/src/chunk.rs:51 | a piece with whitespace or nothing on either side is a word, between the words before and behind it |
| `Chunk.WindowEndIsGreatest` | crates/wovyr-memory/src/chunk.rs:62-74 | each window is the longest allowed from its start: within the limit, or a single word |
| `Chunk.NextStartIsLatest` | crates/wovyr-memory/src/chunk.rs:79-88 | each next start is the latest covering the overlap, or the one right after the previous start |
| `Chunk.WindowsAreSound` | crates/wovyr-memory/src/chunk.rs:50-90 | windows start in order, leave no gap, never end earlier and reach the last word |
| `Chunk.AtMostOneChunkPerWord` | crates/wovyr-memory/src/chunk.rs:50-90 | never more chunks than words |
| `Chunk.EveryWordIsCovered` | crates/wovyr-memory/src/chunk.rs:50-90 | every word lies in some window |
| `Chunk.EveryPieceIsInAChunk` | crates/wovyr-memory/src/chunk.rs:50-90 | every maximal piece of the document without whitespace stands in the text of some chunk |
| `Chunk.ChunkHoldsItsWindow` | crates/wovyr-memory/src/chunk.rs:50-90 | a chunk's text holds exactly the words of its window, in order |
| `Chunk.SplitChunksFit` | crates/wovyr-memory/src/chunk.rs:50-90 | every chunk is within `max_chars` or is one word of the document |
| `Chunk.OverlapCoveredIff` | crates/wovyr-memory/src/chunk.rs:79-88 | the tail of a window is covered exactly when stepping back as far as allowed would cover it |
| `Chunk.HeldRunsAppearWhole` | crates/wovyr-memory/src/chunk.rs:26-28 | the purpose of the overlap: a run within `max_chars` whose words without the first and last cover less than the overlap lies whole in some window |
| `Chunk.NeverCutIff` | crates/wovyr-memory/src/chunk.rs:26-28 | and only such runs and single words do so in every document |
| `Chunk.CutBehindFiller` | crates/wovyr-memory/src/chunk.rs:50-90 | every other run within `max_chars` is cut behind one explicit word |
| `Chunk.OverlongRunsAreCut` | crates/wovyr-memory/src/chunk.rs:62-74 | two words or more beyond `max_chars` are in no window together |
| `Chunk.HeldFactsAppearWhole` | crates/wovyr-memory/src/chunk.rs:26-28 | so a fact under that condition stands whole in the text of some chunk |
| `Chunk.ShortRunsAppearWhole` | crates/wovyr-memory/src/chunk.rs:26-28 | in characters: a run within `max_chars` and at most two characters longer than the overlap meets the condition |
| `Chunk.ShortFactsAppearWhole` | crates/wovyr-memory/src/chunk.rs:26-28 | the same in the text of the chunks |
| `Chunk.NeighboursStayTogether` | crates/wovyr-memory/src/chunk.rs:26-28 | two neighbouring words within `max_chars` are in one window once there is any overlap, whatever their length |
| `Chunk.OneMoreCanBeCut` | crates/wovyr-memory/src/chunk.rs:50-90 | for any overlap of two or more with three characters of room some run three characters longer than the overlap can be cut |
| `Chunk.SixCharactersCut` | crates/wovyr-memory/src/chunk.rs:50-90 | for instance six characters, with at most eight to a chunk and an overlap of three |
| `Chunk.ZeroOverlapPartitions` | crates/wovyr-memory/src/chunk.rs:50-90 | without overlap the windows partition the words |
| `Chunk.ZeroOverlapLosesNothing` | crates/wovyr-memory/src/chunk.rs:50-90 | without overlap the words of the chunks, one chunk after another, are the words of the document |
| `Chunk.ZeroOverlapIsOptimal` | crates/wovyr-memory/src/chunk.rs:50-90 | without overlap no split into consecutive allowed runs has fewer pieces |
| `CivilDate.YoeIsYear` | apps/wovyr-cli/src/s3.rs:406-411 | the year-of-era formula puts the day inside that March-based year |
| `CivilDate.CivilFromDaysInverts` | apps/wovyr-cli/src/s3.rs:399-416 | every day number maps to a valid date that the calendar, defined year by year and month by month, maps back |
| `CivilDate.DateIsUnique` | apps/wovyr-cli/src/s3.rs:399-416 | it is the only valid date with that day number |
| `CivilDate.NextDayNextDate` | apps/wovyr-cli/src/s3.rs:399-416 | consecutive days have consecutive dates |
| `CivilDate.AmzDateOrders` | apps/wovyr-cli/src/s3.rs:417-420 | up to the end of year 9999 timestamps order as strings as they do as numbers |
| `CivilDate.AmzDateOrdersIff` | apps/wovyr-cli/src/s3.rs:417-420 | for all instants: an earlier timestamp comes first as a string if and only if both years have the same number of digits or the earlier date's digits are less than as many of the later date's |
| `CivilDate.OrderBreaksAtYear10000` | apps/wovyr-cli/src/s3.rs:417-420 | the last second of year 9999 does not come before the next one as a string |
| `CivilDate.AmzDateReadsBack` | apps/wovyr-cli/src/s3.rs:399-420 | and a timestamp, read field by field through the calendar, is the second it was made from |
| `CivilDate.AmzDateWidth` | apps/wovyr-cli/src/s3.rs:417-420 | a timestamp has 16 characters, its date stamp being the first 8 |
| `UriXml.UriEncode` | apps/wovyr-cli/src/s3.rs:374-389 | the encoding loop, both slash modes |
| `UriXml.DecodeUndoesEncode` | apps/wovyr-cli/src/s3.rs:374-389 | percent-decoding (section 2.1 of RFC 3986) undoes the encoding in both slash modes |
| `UriXml.EncodeIsInjective` | apps/wovyr-cli/src/s3.rs:374-389 | different keys never encode alike |
| `UriXml.EncodedAlphabet` | apps/wovyr-cli/src/s3.rs:374-389 | the output holds only unreserved bytes and percent signs, and slashes exactly when they are kept and present |
| `UriXml.OneByteEncoded` | apps/wovyr-cli/src/s3.rs:374-389 | byte by byte: unreserved characters and kept slashes stay, any other byte is a percent sign and its two uppercase hex digits |
| `UriXml.XmlUnescape` | apps/wovyr-cli/src/s3.rs:447-471 | the single left-to-right pass |
| `UriXml.UnescapeUndoesEscape` | apps/wovyr-cli/src/s3.rs:443-471 | unescaping undoes escaping with the five predefined entities of section 4.6 of XML 1.0 |
| `UriXml.PlainTextStays` | apps/wovyr-cli/src/s3.rs:447-471 | text without an ampersand is left as it is |
| `UriXml.FindIsFirst` | apps/wovyr-cli/src/s3.rs:425-441 | the search used by the scan returns the first occurrence, if there is one |
| `UriXml.ExtractXmlTagValues` | apps/wovyr-cli/src/s3.rs:425-441 | the flat scan over opening and closing tags |
| `UriXml.ExtractRecoversKeys` | apps/wovyr-cli/src/s3.rs:422-441 | from any listing whose other text lacks the opening tag, exactly the listed keys come back, in order |
| `Redactor.TokensJoin` | crates/wovyr-agent/src/guardrail.rs:239-253 | the tokens concatenate to the input |
| `Redactor.TokensAreUnique` | crates/wovyr-agent/src/guardrail.rs:239-253 | alternating whitespace and text pieces are found again in their concatenation |
| `Redactor.RedactDigitRuns` | crates/wovyr-agent/src/guardrail.rs:272-305 | the run buffer and its flush, with the change flag |
| `Redactor.Redact` | crates/wovyr-agent/src/guardrail.rs:212-235 | the redacted text if some token changes, nothing otherwise |
| `RedactorSafety.RunsAreGone` | crates/wovyr-agent/src/guardrail.rs:272-305 | no digit run of the minimum length is left in a redacted token |
| `RedactorSafety.EmailShapeKept` | crates/wovyr-agent/src/guardrail.rs:257-305 | replacing digit runs never makes a token email-shaped |
| `RedactorExact.EmailTokenIff` | crates/wovyr-agent/src/guardrail.rs:257-270 | a token is taken for an email if and only if it is local, `@`, domain and trailing punctuation, both parts non-empty and without `@`, the domain with a dot inside and none at either end |
| `RedactorExact.EmailIsReplaced` | crates/wovyr-agent/src/guardrail.rs:212-235 | such a token becomes `[redacted-email]` and its trailing punctuation |
| `RedactorExact.LongRunIff` | crates/wovyr-agent/src/guardrail.rs:272-305 | a token has a long run if and only if eight digits follow one another in it with only dashes between |
| `RedactorExact.FirstRunDecides` | crates/wovyr-agent/src/guardrail.rs:272-305 | run by run: from eight digits on a run becomes `[redacted-number]` and keeps one trailing dash; a shorter run and all other text stay |
| `RedactorExact.ChangesIff` | crates/wovyr-agent/src/guardrail.rs:212-235 | a change is reported if and only if some token is an email or holds a long run |
| `RedactorExact.TokensStayUnlessSensitive` | crates/wovyr-agent/src/guardrail.rs:212-235 | every other token, whitespace included, is found unchanged in its place |
| `RedactorExact.RedactedIsClean` | crates/wovyr-agent/src/guardrail.rs:203-305 | redacted text holds no token of that email form, no long run and no eight ASCII digits in a row |
| `RedactorSafety.RedactionIsIdempotent` | crates/wovyr-agent/src/guardrail.rs:212-235 | a second pass finds nothing to redact |
| `RedactorSafety.NoChangeMeansSameText` | crates/wovyr-agent/src/guardrail.rs:209-235 | a text reported unchanged is left as it was |
| `Prompts.AssignArm` | crates/wovyr-agent/src/prompt.rs:353-365 | the weight-walking loop picks the arm owning the bucket; its fallback is never reached |
| `Prompts.ArmOwnsItsWeight` | crates/wovyr-agent/src/prompt.rs:349-365 | an arm is picked if and only if the bucket is one of its `weight` consecutive ones, so a zero weight gets nothing |
| `Prompts.PromptRegistry.Register` | crates/wovyr-agent/src/prompt.rs:290-302 | adds a new version or refuses an invalid or existing one |
| `Prompts.RegisterAnswers` | crates/wovyr-agent/src/prompt.rs:290-302 | invalid templates and taken versions are refused, each with its error; any other is then found under its name and version and nothing else changes |
| `Prompts.PromptRegistry.Resolve` | crates/wovyr-agent/src/prompt.rs:330-346 | pinned, experiment or latest, with each error case |
| `Prompts.UnpinnedIsNewest` | crates/wovyr-agent/src/prompt.rs:316-346 | without version and experiment the greatest registered version is rendered |
| `Prompts.PinnedIsThatVersion` | crates/wovyr-agent/src/prompt.rs:316-346 | a pin renders exactly that version, an experiment the version of the unit's arm; missing versions and a missing unit are errors |
| `Prompts.InvalidIff` | crates/wovyr-agent/src/prompt.rs:232-255 | a reference is refused exactly if its template name is blank, it pins and experiments, or no arm has weight |
| `Prompts.VersionsAreImmutable` | crates/wovyr-agent/src/prompt.rs:287-302 | a registered version is never replaced |
| `Prompts.PinnedNeverDrifts` | crates/wovyr-agent/src/prompt.rs:11-24 | a pinned or experiment reference that finds its version resolves the same way whatever is registered later |
| `Prompts.NewestMovesIff` | crates/wovyr-agent/src/prompt.rs:316-321 | the latest version moves exactly when a valid greater version of that name is registered |

## Left out

Of the audit log:
- AuditPages.ScanIsDefaultPage: the case of `AuditPages.ScanIsDefaultPageIff` without disputed lines; bytes above 127 are never whitespace here, and a file that is not UTF-8 is not modelled.
- AuditProtocol.StepKeepsInv: an append is one step, so torn line writes and fsync timing are not modelled; the anchor's `atomic_write` is a stage step and a publish step, its pieces being in `AtomicFile`.
- AuditChain.HeadInputUnambiguous: sequence numbers below 2^64, which is what eight bytes hold; `seq + 1` does not overflow.
- AuditChain.AnchorBinds: says nothing of an attacker who holds the key, and the secrecy of the key is not modelled.
- The notarization hook (advisory, its error is swallowed), the unkeyed log opened without a lock, and `query`, which always reads everything.

Of the agent:
- Runtime.RequestsAreSound: asks that the model answer with assistant messages, which is what a provider returns.
- Runtime.RunAgent: instructions are non-empty and tools resolved; input guardrails, retrieval, permissions and the concurrency of tool calls are outside, each tool outcome being a function of step and position; token usage does not overflow; the opening `Start` and `MemoryRetrieved` events are not part of the trace.
- Message `parts`, the concrete tokenizer (the counter is any function), and tracing.
- `ToolCall` events carry raw arguments even while streaming is buffered; the buffering guarantee covers text, call fragments and reasoning only.

Of the key management:
- KmsTheorems.ShreddedKeysAreUnderivable: an onlooker holds the root key and everything persisted, but no earlier version of the store file; plaintext data keys already handed to callers are the leaked ones of `KmsTheorems.LeakedKeysRevealNoOthers`.
- KmsProtocol keeps 32-byte payloads and key material apart by construction, so a payload never doubles as a key.
- KmsSafety.StepKeepsInv: for the file store, whose lock is held throughout; the in-memory store has no cross-process lock.
- Version numbers do not overflow 32 bits; file permissions and loading the root key from the environment are not modelled.

Of the webhook stores:
- Webhooks.EncryptedStoreRefinesPlain: the secret is any byte string, so the UTF-8 check after decryption always succeeds; the two stores are called one operation at a time.
- The plain file store and the derived subscription id.

Elsewhere:
- AtomicFile.StepKeepsInv: a rename survives a crash once made; directory fsync and restricting permissions are not steps.
- CivilDate.AmzDateOrders: the case of `CivilDate.AmzDateOrdersIff` up to year 9999.
- UriXml.ExtractRecoversKeys: tag names without `<`, and filler text without the opening tag, as in one object-store listing.
- Redactor.Redact: characters are Unicode code points with the White_Space property spelled out; the input is any string.
- Prompts.AssignArm: the FNV-1a hash of (template, unit) is an arbitrary function, so how evenly it spreads units is not stated; weights do not overflow when summed.
- Template rendering, manifest loading, request signing, HTTP, the marketplace registry, sandboxing, evaluation scoring, backoff, moderation by a model, and command-line handling: input and output, library calls, or one-branch facts.
