# Verification of isola's hardest parts

A Dafny model of four parts of isola, with proofs of what they are for. `dafny verify dfyconfig.toml`
checks everything.

**Resumable output streams** (`Utf8`, `LineText`, `Decimal`, `SseWire`, `SseWriter`, `SseParser`,
`StreamOutput`, `StreamReader`). A process appends bytes to a file; the sidecar reads arbitrary chunks,
withholds ambiguous tails, sanitises the rest and prints server-sent events whose ids are byte offsets;
the client parses them under arbitrary transport chunks and reconnects after drops. `LineText.Canon` is
the one-shot meaning of a file: sanitise everything in front of the unfinished tail, one U+FFFD for the
tail, CRLF and CR to LF. The main result is `StreamReader.Reader.Generate`: exactly once, for every file,
every chunking and every schedule of drops, with termination; `StreamReader.SidecarServes` says that runs
of `StreamOutput.Stream` meet its assumption. It rests on three facts proved separately:
the incremental writer refines `Canon` and each of its ids is a seamless place to resume; the parser
undoes the printer under every cut; and the sidecar's loop drains the file before it finishes. UTF-8 is
section 4 of RFC 3629; the parser is WHATWG HTML sections 9.2.5 and 9.2.6, narrowed to what `sse.ts` does.

**The gVisor installer** (`ManagedBlock`, `EntryNames`, `Archive`, `Generation`, `Activation`,
`ContainerdHost`, `RestartBudget`, `Releases`, `Installer`). `Activation.World` is everything that
survives the installer: journal, configuration file, live daemon, installed files. Every write, dump,
restart, probe and label is one atomic step of `ContainerdHost.Host` that may fail, writes with old or
new content and restarts with any daemon state; all states gone through are recorded, and
`Activation.StepOk` says which steps are allowed: a restart or a write of the configuration only under a
durable pending record, a change of the journal only as begin, commit or abandon, the ready label only for
what is true. `Host.failures` counts the reads, writes and calls that failed; what a pass without any must
achieve is stated through it, and what may keep it from that is read off the states gone through: a file
containerd refuses, a daemon that does not come up or does not serve, a gate that blocks. The methods of
`Installer.Installer` follow the code and are proved to take allowed steps only; a crash (`CrashBehind`)
stops behind any recorded step and a new process starts with nothing remembered.
`Installer.Lifetime` closes the loop, and the lemmas of `Activation` say what follows for every run: the
active record is always earned, nothing moves while no transaction is open, and every closed transaction
left the daemon settled. Repair of a generation records every state of the directory, and every write that
left it through a link or another name, so the same crashes apply to it.

**Egress policies** (`Cidr`, `NetworkPolicy`, `BlockedRanges`). The policy the builder returns means plain set
subtraction over all 32-bit and 128-bit addresses, and `BlockedRanges` says in octets and groups what is
subtracted. The key is arithmetic: masked prefixes are nested or disjoint.

**The sandbox and rootfs snapshot controllers** (`Cluster`, `ApiServer`, `SandboxController`,
`SnapshotController`). Each API call is one step that may fail with or without its effect; between any two
calls of one controller the other one, users, the kubelet, garbage collection and the clock may take any
number of steps (`ApiServer.Api.Others`), and each controller is proved against what it may rely on. The
methods moreover say what a pass without API errors has achieved, by the pod, job and snapshot it saw. The
lemmas of `Cluster` hold over every run: write-once deadlines, a verdict that never changes, snapshot
before release, and no claim of a complete snapshot without an upload.

## What the proofs found

- `restoreGeneration` cannot repair a directory standing where a drifted payload file, or its temporary file,
  must go: extras are removed only behind the failing rename. Nor can it with a link at such a temporary name:
  `replaceFromStaging` opens it, writes the payload wherever it leads and renames the link over the payload
  file, while `checkNoExtraFiles` lets it pass like any leftover. A regular file of several names there is
  truncated and rewritten under all of them, which may or may not spoil the repair, and writes elsewhere.
  `Generation.Restorable` is the exact condition for a repair that succeeds, I/O errors aside, and writes to
  nothing of other names; `DirectoryStopsRepair`, `TempDirectoryStopsRepair`, `LinkStopsRepair` and
  `SharedSpoilsPayload` show each obstacle alone.
- "Old or new bytes, never truncated ones" does not hold where the sidecar's name is a link to a directory with
  the payload, which is what the repository's own test repairs: the link is removed first, and from then to its
  rewriting a payload file below it is missing (`Generation.LinkedSidecarLosesPayload`). It holds exactly when
  no payload file is reached that way (`Generation.Grounded`).
- What is written through a link or under another name may be a payload file of a generation already approved
  in this pass. `World.leaked` says that it happened; `Releases.Releases.CacheOutlivesLink` is the exact
  condition for the approvals to stay true, and for the rest of that pass the ready label vouches for the
  payload only as far as the pass verified it. `Releases.ReadyBesideLink` and `LabelOutlivesPayload` give a node
  on which the label stays while the payload is no longer exact.
- `loadGeneration` takes the digest of a manifest as it is, while `readState` drops a record whose digest
  is not 128 hexadecimal digits, and all other records with it. So a transaction about such a generation does
  not survive the next read (`Activation.ActivationIsReadBack`), and such generations are verified
  (`Activation.MalformedDigestIsVerified`). The protocol is proved for manifests whose digest is well formed.
- The client takes an answer without a body for the end of the stream, so text may be missing from a run that
  ends normally: `StreamReader.Reader.Generate` says exactly when, and `SilenceServes` gives a network for it.
- A job is found by its name, so one left over from an earlier snapshot of that name is taken for the new
  one's (`SnapshotController.SnapshotReconciler.Reconcile`, `Cluster.LeftoverIsTaken`);
  `Cluster.SuccessMeansUploaded` has the exact condition.
- A convergence restart does not read the configuration file again, so an edit made during that very pass
  is loaded; `Activation.SettledOn` names the exception, and an activation has none.
- The single slot of the restart gate is overwritten when the direction changes, yet the budget holds: one
  direction can only come first and is never returned to while nobody interferes.
- Go replaces the bytes of an invalid sequence one at a time within a stream, but `Finish` collapses the
  final tail into one U+FFFD; `LineText.Canon` follows the code.

## Model

| member | source | states |
|---|---|---|
| Utf8.IncompleteIffProperPrefix | internal/sseutil/writer.go:191-205 | bytes are an unfinished rune exactly when they are a proper prefix of a well-formed sequence (section 4 of RFC 3629) |
| Utf8.TailLenUnique | internal/sseutil/writer.go:194-205 | a text has at most one unfinished tail, so the backward scan decides it |
| Utf8.SanitizeConcat | internal/sseutil/writer.go:208-226 | replacing invalid bytes works piecewise at any cut that is not inside a rune |
| Utf8.SanitizeIsValid | internal/sseutil/writer.go:208-226 | whatever goes in, the sanitised text is well-formed UTF-8 |
| Utf8.SanitizeKeepsValid | internal/sseutil/writer.go:209-211 | well-formed text is left as it is, so the fast path is the slow one |
| LineText.NormaliseConcat | internal/sseutil/writer.go:158-177 | turning CRLF and CR into LF works piecewise unless a cut splits a CRLF |
| LineText.JoinUndoesSplit | internal/sseutil/writer.go:137-156 | splitting at line endings and joining with LF, as the client does, gives the text with normalised line endings |
| LineText.CanonAtCut | internal/sseutil/writer.go:181-205 | at a cut where nothing ambiguous is withheld, the canonical text is that of the front followed by that of the rest |
| LineText.WithheldShape | internal/sseutil/writer.go:179-189 | what is withheld is at most 4 bytes: an optional CR followed by an unfinished rune |
| LineText.WithheldMakesCut | internal/sseutil/writer.go:179-189 | in front of what is withheld there is always such a cut, whatever the bytes behind it turn out to be |
| LineText.SafeLenExtends | internal/sseutil/writer.go:59-82 | the safe prefix of all bytes is the safe prefix so far and that of the withheld bytes with the new ones |
| SseWriter.IncompleteUTF8Tail | internal/sseutil/writer.go:194-205 | the scan of at most three bytes returns the length of the unfinished tail of the whole text |
| SseWriter.SafePrefixLen | internal/sseutil/writer.go:181-189 | the number of bytes that can be emitted with a stable offset |
| SseWriter.SanitizeUTF8 | internal/sseutil/writer.go:208-226 | the loop with its fast path equals the recursive replacement of invalid bytes |
| SseWriter.NextChunk | internal/sseutil/writer.go:158-177 | the split at the first LF, CRLF or CR |
| SseWriter.WriteDataLines | internal/sseutil/writer.go:123-156 | one data line for every line of the text, a trailing line ending included |
| SseWriter.Writer.WriteEvent | internal/sseutil/writer.go:78-82 | data lines, id line and blank line of one event in one write, which may fail behind any byte |
| SseWriter.Writer.WriteKeepalive | internal/sseutil/writer.go:116-121 | a comment item, which is no event |
| SseWriter.Writer.WriteData | internal/sseutil/writer.go:54-83 | the new item is a function of all bytes so far only, the id is the number of bytes consumed less the withheld ones, and what is kept is exactly the withheld tail |
| SseWriter.Writer.Finish | internal/sseutil/writer.go:95-114 | the last item repairs the withheld tail with one U+FFFD and carries the full offset |
| SseWriter.HeldIsEnough | internal/sseutil/writer.go:61-82 | the withheld bytes alone determine what the next call may emit |
| SseWriter.NewItemsAdvance | internal/sseutil/writer.go:54-83 | each event moves a reader of the file strictly forward and delivers exactly the text between the two offsets |
| SseWriter.LastItemsAdvance | internal/sseutil/writer.go:95-114 | so does the event of Finish, and it reaches the end |
| SseWriter.ChunkingIndependence | internal/sseutil/writer.go:54-114 | for every way of cutting the bytes into chunks the delivered text is the canonical text of their concatenation |
| SseWriter.SessionDelivers | internal/sseutil/writer.go:54-114 | a session from any offset to the end delivers exactly the canonical text from there on |
| SseWire.IdsIncrease | internal/sseutil/writer.go:130-135 | ids strictly increase and never exceed the bytes of the file |
| SseWire.TrailDelivers | internal/sseutil/writer.go:51-83 | at every id the text delivered so far followed by the canonical text from that id on is the canonical text |
| Decimal.ParseUndoesFormat | internal/sseutil/writer.go:131-135 | formatting an offset and parsing it as int64 is the identity up to the int64 bound |
| Decimal.DigitsOf | internal/sandbox-sidecar/command/command.go:383-395 | a string of digits is its value as FormatInt writes it, behind some zeros |
| SseParser.FeedConcat | sdks/typescript/src/internal/sse.ts:86-116 | two transport chunks give the same events and state as their concatenation, wherever they are cut |
| SseParser.ParseItem | sdks/typescript/src/internal/sse.ts:35-69 | a printed item parses to exactly one event with its id and normalised text, a keepalive to none |
| SseParser.CutItem | sdks/typescript/src/internal/sse.ts:86-106 | an item cut before its last byte dispatches nothing |
| SseParser.ParseUndoesPrint | sdks/typescript/src/internal/sse.ts:86-116 | a body cut anywhere yields exactly the events of the items complete in it |
| SseParser.NothingAtEnd | sdks/typescript/src/internal/sse.ts:89-106 | the end of a complete body dispatches nothing more |
| SseParser.EventParser.Process | sdks/typescript/src/internal/sse.ts:35-69 | one line against the specification of the field rules |
| SseParser.EventParser.ReadChunk | sdks/typescript/src/internal/sse.ts:107-115 | the line loop over the buffer equals feeding the decoded text character by character |
| SseParser.EventParser.ReadEnd | sdks/typescript/src/internal/sse.ts:89-106 | the decoder is flushed and an unterminated line processed, but nothing is dispatched for it unless it is blank |
| StreamOutput.LastEventIDRoundTrip | internal/sandbox-sidecar/command/command.go:383-395 | every emitted id is accepted as Last-Event-ID and means the same offset |
| StreamOutput.AcceptedIffDenoted | internal/sandbox-sidecar/command/command.go:383-395 | a Last-Event-ID is accepted, and as this offset, exactly when it is empty and the offset is 0, or an optional sign and zeros before the offset as FormatInt writes it, within int64, with a minus sign for 0 only |
| StreamOutput.Stream | internal/sandbox-sidecar/command/command.go:436-508 | what is sent is a front of a session's wire form; a complete run has written every byte of the file behind the offset through the writer before Finish; while no write fails, the schedule alone decides in which iteration the loop ends, how much was fed, how many keepalives were sent, and whether the run is complete: exactly if the process had exited, nothing new was found, and no read failed or client left before |
| StreamOutput.OrderlyEnd | internal/sandbox-sidecar/command/command.go:465-508 | so a run whose writes succeed ends orderly if and only if some iteration finds nothing new behind an idle one that picked the process's exit, and no failing read or disconnect comes first |
| StreamReader.SidecarIsCarried | sdks/typescript/src/streaming.ts:111-139 | any front of what a run of Stream sent, in any chunks, carries one session |
| StreamReader.SidecarServes | internal/sandbox-sidecar/command/command.go:436-508 | so a network whose event streams come from runs of Stream is all Generate assumes |
| StreamReader.ResumeIsSeamless | internal/sseutil/writer.go:59-82 | a fresh writer that starts at any emitted id continues the text without loss or repetition |
| StreamReader.SessionSettles | sdks/typescript/src/streaming.ts:139-150 | a connection broken anywhere leaves the client at an offset with exactly the text in front of it; an orderly end leaves it with everything |
| StreamReader.Reader.Take | sdks/typescript/src/streaming.ts:139-149 | ids, delays, text and the restored budget of a run of events |
| StreamReader.Reader.ReadBody | sdks/typescript/src/streaming.ts:139-149 | one body, in any chunks, against the parser's specification |
| StreamReader.Reader.Generate | sdks/typescript/src/streaming.ts:100-169 | for every file and every network serving it the loop terminates; each request asks for the offset the one before has led to; there is another one exactly if the answer is one to try again behind and not more than five were made with the last five leading nowhere; it ends normally exactly behind an answer without a body or a stream that ended orderly, and throws otherwise; what was not yielded is the canonical text from the last offset on, and behind an orderly end that is nothing |
| StreamReader.Reader.Iterate | sdks/typescript/src/streaming.ts:79-85 | the same for the public entry; a second use of a reader throws and asks for nothing |
| ManagedBlock.EndSearchesAgree | internal/gvisor-installer/containerd.go:101-133 | the two searches for the end marker find the same place in every file |
| ManagedBlock.ReadUndoesSplice | internal/gvisor-installer/containerd.go:101-133 | reading back a splice returns the block |
| ManagedBlock.SpliceOverwrites | internal/gvisor-installer/containerd.go:115-133 | a later splice overwrites an earlier one and keeps everything outside the section |
| ManagedBlock.SpliceForm | internal/gvisor-installer/containerd.go:115-147 | a splice or removal is refused exactly when the begin marker has no end marker, otherwise only the section changes |
| ManagedBlock.RemoveUndoesFirstSplice | internal/gvisor-installer/containerd.go:115-147 | removing a first splice restores the newline-terminated file plus exactly one newline |
| ManagedBlock.ReadIsClean | internal/gvisor-installer/containerd.go:101-113 | whatever is read from a file can be spliced back in |
| ManagedBlock.SpliceKeepsSingle | internal/gvisor-installer/containerd.go:115-133 | a file with at most one marker pair keeps that under splicing |
| ManagedBlock.SameRemainder | internal/gvisor-installer/containerd.go:135-147 | what removal leaves does not depend on the block that was spliced in |
| EntryNames.NormalizeIsStable | internal/gvisor-installer/extract.go:136-161 | a normalised entry name is its own normalisation |
| EntryNames.NormalizeMeans | internal/gvisor-installer/extract.go:136-161 | exactly the names of one part, alone or in the sidecar directory, that are neither '.' nor '..' nor kept for the installer are taken, with an optional './' before and an optional '/' behind them |
| EntryNames.SpellingsOfPayload | internal/gvisor-installer/extract.go:136-161 | for instance './runsc' and 'gvisor-bin/' |
| EntryNames.TempIsApart | internal/gvisor-installer/generation.go:239-247 | the temporary name of a payload file is never a payload name or the sidecar directory |
| EntryNames.TempsDiffer | internal/gvisor-installer/generation.go:239-247 | two payload files never share a temporary name |
| Archive.ExtractTar | internal/gvisor-installer/extract.go:84-134 | unless reading or writing fails, an archive is unpacked if and only if it is acceptable, stated without following the loop: caps, names, kinds, no duplicates, no empty file, required files |
| Archive.WriteEntry | internal/gvisor-installer/extract.go:179-218 | one entry: refused when empty, over the remaining budget or already there; otherwise its bytes, mode and digest are recorded |
| Archive.ModeByDigits | internal/gvisor-installer/extract.go:163-177 | an entry becomes executable exactly when one of the three octal digits of its mode is odd, or its name is one of the binaries or in the sidecar directory |
| Archive.AcceptedRecords | internal/gvisor-installer/extract.go:84-161 | accepted records keep to the entry cap, have fixed-point names and pass the manifest validation |
| Archive.PublishThenLoad | internal/gvisor-installer/binaries.go:159-174 | what is published is loaded back as the same generation and passes the exact-set check |
| Generation.DirNamesDiffer | internal/gvisor-installer/generation.go:51-53 | a directory name determines the version and digest it is made of |
| Generation.VerifyGeneration | internal/gvisor-installer/generation.go:130-161 | unless some file cannot be read, the verdict is exact-set equality with the manifest |
| Generation.CheckNoExtraFiles | internal/gvisor-installer/generation.go:163-193 | unless reading fails, the verdict is that there is nothing beside the manifest, the sidecar directory and temporary files |
| Generation.ReplaceFromStaging | internal/gvisor-installer/generation.go:239-277 | with an ordinary file or nothing at the temporary name every state on the way keeps each payload file or makes it what the manifest says and nothing else changes; a link there is written through and ends up over the payload file, a file of several names gets the content under all of them; refused only by a directory in the way |
| Generation.RestoreFiles | internal/gvisor-installer/generation.go:216-229 | the loop over the payload: a loop that completes without opening a link or a file of several names had no directory in its way and every file now agrees with the manifest; one that followed a link leaves it in a payload file's place |
| Generation.RemoveGenerationExtras | internal/gvisor-installer/generation.go:279-308 | removes everything the manifest does not name and touches no payload file |
| Generation.RestoreGeneration | internal/gvisor-installer/generation.go:195-237 | in-place repair of any directory: I/O errors aside it succeeds without writing to anything of other names exactly when the directories above are in order and, with the directory's own two put right, neither a directory where a drifted file or its temporary file must go, nor a link or a file of several names at such a temporary name; all states on the way then move towards the manifest exactly when no payload file was reached through something else than a sidecar directory; where a link was followed it never succeeds |
| Generation.RestoreDirectories | internal/gvisor-installer/generation.go:199-215 | the directory's mode, then the sidecar's name: removed if it is no directory, with all that was reached through it, made and given its mode; payload files are kept if and only if none was reached that way |
| Generation.LinkStopsRepair | internal/gvisor-installer/generation.go:247-277 | a concrete directory that passes for free of extras and whose only obstacle is a link at a temporary name |
| Generation.DirectoryStopsRepair | internal/gvisor-installer/generation.go:261-277 | one whose only obstacle is a directory in a payload file's place |
| Generation.TempDirectoryStopsRepair | internal/gvisor-installer/generation.go:239-252 | one whose only obstacle is a directory in a temporary file's place |
| Generation.LinkedSidecarLosesPayload | internal/gvisor-installer/generation.go:201-215 | a directory that is repaired although its sidecar is a link, and on the way has lost a payload file reached through it |
| Generation.LinkedDirectoryIsNoObstacle | internal/gvisor-installer/generation.go:201-215 | a directory in a payload file's place, reached through such a link, is no obstacle |
| Generation.SharedSpoilsPayload | internal/gvisor-installer/generation.go:247-260 | one file under a temporary name and the name of another payload file: the latter loses both its old and its manifest's bytes, and if it was dealt with before, the closing check fails |
| Generation.LinkSpoilsPayload | internal/gvisor-installer/generation.go:247-260 | writing through a link onto another payload file leaves that one with neither its old bytes nor its manifest's |
| Generation.OldOrManifest | internal/gvisor-installer/generation.go:28-31 | at every moment of a repair, a crash included, a payload file holds what it held at first or what the manifest says |
| Generation.RepairedStays | internal/gvisor-installer/generation.go:195-198 | what once agrees with the manifest stays so |
| Releases.Releases.VerifyCached | internal/gvisor-installer/generation.go:117-127 | unless reading fails, the verdict is the one remembered or that of a verification now; a remembered approval agrees with a verification done now, as long as no write in this pass went through a link or to a file of several names |
| Releases.Releases.VerifiedActiveGeneration | internal/gvisor-installer/installer.go:317-329 | unless reading fails, exactly whether the active record's generation is there with its version and digest, and is verified as far as the pass knows |
| Releases.Releases.CheckShimConfig | internal/gvisor-installer/runscconfig.go:115-126 | unless reading fails, exactly whether the content of the shim configuration hashes to its name |
| Releases.Releases.EnsureRunscConfig | internal/gvisor-installer/runscconfig.go:72-104 | content-addressed writing: the result is the place of the text rendered for the generation and holds it, no intact configuration ever stops being intact, and only a failed step leaves no result |
| Releases.Releases.KeepShimConfig | internal/gvisor-installer/installer.go:617-628 | a recorded shim configuration is kept if and only if it is intact or what is rendered now has the same name, failed steps aside |
| Releases.Releases.IntactGeneration | internal/gvisor-installer/binaries.go:184-217 | the result is exact and of the wanted version; unless reading fails there is one exactly when some generation of that version is verified as far as the pass knows |
| Releases.Releases.PublishGeneration | internal/gvisor-installer/binaries.go:159-174 | publishing keeps all remembered approvals true, touches no other generation, and does not succeed only if a step failed |
| Releases.Releases.Restore | internal/gvisor-installer/binaries.go:139-155 | every state of the directory, and everything written through a link or under another name in between, becomes a state a crash may leave; a success changed nothing but installed files, and if nothing of other names was written, only this directory, which was restorable; a restorable one is repaired unless a step fails; without a link or a file of several names at a drifted file's temporary name all remembered approvals stay true |
| Releases.Releases.Replay | internal/gvisor-installer/generation.go:195-237 | the repair of one directory as steps of the node: something else changes only where a link was followed or a file of several names written |
| Releases.ApprovalOutlivesLink | internal/gvisor-installer/generation.go:117-127 | after a write through a link a generation is still exact if and only if the place it leads to is harmless for it |
| Releases.Releases.CacheOutlivesLink | internal/gvisor-installer/generation.go:117-127 | so all remembered approvals stay true if and only if that place is harmless for each approved generation |
| Releases.LabelOutlivesPayload | internal/gvisor-installer/generation.go:117-127 | on every ready and verified node a write that leaves runsc with another digest leaves the claim of readiness as it is, and the generation inexact |
| Releases.ReadyBesideLink | internal/gvisor-installer/generation.go:117-127 | a concrete ready node with a second generation whose repair follows a link into the first |
| Releases.Releases.MarkVerified | internal/gvisor-installer/binaries.go:176-182 | an approval is remembered for what is exact only |
| Releases.Releases.EnsureGeneration | internal/gvisor-installer/binaries.go:72-157 | a success is a generation of the wanted version under the current directory, exact on disk, and nothing but installed files was changed for it; unless a step fails, a verified generation at hand is used with no other change, and otherwise a downloaded archive that is acceptable is installed, unless what stands in its place cannot be repaired |
| Activation.WriteThenRead | internal/gvisor-installer/state.go:55-96 | what the installer writes to the journal it reads back |
| Activation.ActivationIsReadBack | internal/gvisor-installer/state.go:82-96 | for a loaded and verified generation the opened transaction and the committed record are read back if and only if the archive digest in its manifest is well formed; otherwise the next read finds nothing at all |
| Activation.MalformedDigestIsVerified | internal/gvisor-installer/generation.go:79-115 | and such a directory exists: loaded, verified, of the wanted version, with a malformed digest |
| Activation.ActiveIsEarned | internal/gvisor-installer/installer.go:451-459 | in every reachable state the active record was committed by a step at which the live daemon served its handler from its exact shim and configuration path, and has not changed since |
| Activation.QuietWithoutPending | internal/gvisor-installer/installer.go:415-418 | while no transaction is open the installer changes neither the configuration file nor the daemon |
| Activation.PendingStays | internal/gvisor-installer/state.go:38-47 | an open transaction's records do not change until it closes |
| Activation.ClosedTransactionsAreSettled | internal/gvisor-installer/installer.go:546-555 | whenever a transaction has closed, the daemon serves the target, was never touched, or came up on the file on disk, which holds the predecessor unless somebody edited it during that very pass |
| ContainerdHost.Host.WriteState | internal/gvisor-installer/state.go:74-80 | a journal write is one of begin, commit and abandon, old or new content on error |
| ContainerdHost.Host.WriteConfig | internal/gvisor-installer/binaries.go:390-423 | the configuration file is written only under a durable pending record, old or new content on error |
| ContainerdHost.Host.RestartAndAwaitHealthy | internal/gvisor-installer/installer.go:766-795 | the daemon is restarted only under a durable pending record; success means it came up on the file on disk, failure leaves it in any state |
| ContainerdHost.Host.SetNodeLabels | internal/gvisor-installer/installer.go:908-919 | the ready label is true only without a conflict and for what ReadyTruth describes |
| ContainerdHost.Host.FollowLink | internal/gvisor-installer/generation.go:247-260 | a write through a link out of a generation is a step of its own that may hit a payload file, a manifest, the journal, the configuration file or a shim configuration |
| ContainerdHost.Host.WriteOtherName | internal/gvisor-installer/generation.go:247-260 | a write to a file that has another name elsewhere is a step of its own that may hit a payload file or a manifest of another generation |
| ContainerdHost.Host.CrashBehind | internal/gvisor-installer/installer.go:676-678 | a crash stops behind any step and keeps disk and daemon |
| Installer.Installer.VerifyServing | internal/gvisor-installer/installer.go:797-830 | unless the call fails, exactly whether the running, ready daemon lists the handler and has it loaded as runsc, from the wanted paths if there are any |
| Installer.Installer.AbandonPending | internal/gvisor-installer/installer.go:546-555 | closes a transaction the daemon is settled about; only a failed write leaves the record |
| Installer.Installer.RecoveryRestart | internal/gvisor-installer/installer.go:665-674 | a restart let through by the gate is accounted for and happens only on a file that was just loaded by containerd's own check, unless edited in this pass; there is none exactly if the gate blocks, and then nothing changes at all |
| Installer.Installer.WriteChange | internal/gvisor-installer/installer.go:465-497 | whatever fails, the file is as it was or holds the new block and the daemon is untouched; success means it was unchanged since it was read, holds the new block and loads; without a failed step the only obstacles are a file that changed, a section without its end and a refusal by containerd's own check, and each leaves file and daemon as they were with the transaction closed |
| Installer.Installer.ValidateChange | internal/gvisor-installer/installer.go:487-497 | decided by containerd's own check: a file it refuses is put back and the transaction abandoned |
| Installer.Installer.RollBackChange | internal/gvisor-installer/installer.go:500-531 | a new block that does not come up or is not served is replaced by the recognised predecessor under a restart and kept off for a cooldown; without a failed step the record stays only if the daemon does not come up on the predecessor |
| Installer.Installer.ApplyConfigChange | internal/gvisor-installer/installer.go:462-537 | success means the daemon serves the target and the file holds its block; without a failed step it fails only if nothing could be written, or the daemon was restarted onto the new block and does not serve the target, and then the predecessor is back or the daemon is down |
| Installer.Installer.RestartOntoTarget | internal/gvisor-installer/installer.go:499-529 | the restart onto the new block is followed by the question whether the live daemon serves the target, and its answer is the result |
| Installer.PreviousConfigSettles | internal/gvisor-installer/installer.go:539-544 | the configuration to fall back on holds exactly the recorded predecessor |
| Installer.Installer.RestorePrevious | internal/gvisor-installer/installer.go:679-702 | the predecessor is on disk and the whole file loads before any restart; without a failed step only a section without its end, or a file that does not load, stops it |
| Installer.Installer.RestartOntoPrevious | internal/gvisor-installer/installer.go:676-710 | the daemon is restarted only onto the recorded predecessor, on disk and loadable |
| Installer.Installer.TargetIsComplete | internal/gvisor-installer/installer.go:598-633 | exactly, failed steps aside, whether the recorded generation is there and exact, its shim configuration intact or rendered again under the same name, and containerd's dump loads without a conflicting entry |
| Installer.Installer.BringUpTarget | internal/gvisor-installer/installer.go:634-644 | a target the daemon serves already is not restarted; otherwise one restart, unless the gate blocks it, and the live daemon decides |
| Installer.Installer.CommitTarget | internal/gvisor-installer/installer.go:598-655 | a finished commit has the target active and served from its exact paths, without a restart if the daemon served it already; without a failed step it is given up only if the target is not complete, containerd objects to it, or the daemon does not serve it and the gate blocks or a restart did not help; giving up leaves the journal alone |
| Installer.Installer.RollbackPending | internal/gvisor-installer/installer.go:676-720 | success means the predecessor is on disk, the daemon came up on it, and the active record is unchanged; without a failed step it fails only on a section without its end, a file that does not load, a gate that blocks, or a daemon that does not come up |
| Installer.Installer.RecoverPending | internal/gvisor-installer/installer.go:557-596 | from every reachable state: with the target's section on disk and no failed step the target is committed, the daemon left alone if it serves it already, unless the target cannot be finished for one of the reasons of CommitTarget; a record whose target is its own predecessor is then left alone, any other, and any other section, is rolled back unless RollbackPending cannot; failure leaves the durable record or the state settled |
| Installer.Installer.OpenActivation | internal/gvisor-installer/installer.go:419-449 | the transaction is durable before anything else is touched, with the active block or, without a record, the section on disk as predecessor |
| Installer.Installer.Activate | internal/gvisor-installer/installer.go:415-460 | a block rolled back recently is left alone; success makes the target the active record while the daemon serves it from its exact paths and the file holds its block; without a failed step it fails only if the gate blocks, nothing could be written, or the restarted daemon does not serve the target |
| Installer.Installer.Converge | internal/gvisor-installer/installer.go:386-411 | a convergence restart happens under a pending record and is not repeated for a block until a target was verified served; without a failed step it happens unless the gate blocks |
| Installer.Installer.RestartToConverge | internal/gvisor-installer/installer.go:386-411 | the restart is remembered for its block before it is tried, and counted against the budget of restarts |
| Installer.Installer.EnsureContainerdConfig | internal/gvisor-installer/installer.go:356-413 | every success ends with the wanted target verified served and the journal settled; a settled section that is served is left untouched; without a failed step it fails only if nothing can be rendered or written, the new section was rejected by the restarted daemon or recently, or the settled one is not served and its one restart is spent, blocked, or did not help |
| Installer.ConvergenceIsEarned | internal/gvisor-installer/installer.go:386-390 | between two convergence restarts some pass has verified a target served |
| Installer.Installer.MaintainActive | internal/gvisor-installer/installer.go:297-315 | broken active files always withdraw the label, intact ones never do unless a step fails, and nothing else changes |
| Installer.Installer.PrepareWanted | internal/gvisor-installer/installer.go:252-266 | before containerd is touched, the wanted generation is exact, its shim configuration the one rendered for it, and the file unchanged unless somebody edited it; without a failed step it fails only with no verified generation at hand and nothing usable downloaded |
| Installer.Installer.InstallWanted | internal/gvisor-installer/installer.go:252-281 | success means wanted generation exact, its shim configuration intact, block on disk, daemon serving their paths, and behind a change of the section no conflicting entry in a new look at the merged view; without a failed step or a conflict there is one of the named obstacles |
| Installer.Installer.MaintainAndInstall | internal/gvisor-installer/installer.go:252-281 | the same, and if the active files are broken the label is withdrawn before anything is prepared |
| Installer.Installer.InstallOrLeave | internal/gvisor-installer/installer.go:215-281 | the dump and the file classify the node: a merged entry that conflicts is reported, a foreign handler on a node without a section is left alone and accepted exactly if served, both leave the node as it was, and otherwise the target is installed unless there is one of the named obstacles |
| Installer.Installer.ReconcilePass | internal/gvisor-installer/installer.go:201-282 | a pass in which no step failed has settled the pending record or could not for a named reason, and then classified the node and installed the target or could not for a named reason |
| Installer.Installer.VerifiedActiveState | internal/gvisor-installer/installer.go:882-906 | unless a step fails there is a record exactly when the journal is settled and section, payload and shim configuration are as recorded, the payload as far as the pass knows |
| Installer.Installer.PublishStatus | internal/gvisor-installer/installer.go:832-880 | unless a step fails, the node is labelled ready exactly if there is no conflict and what ready stands for holds at this moment, whatever became of the pass; readiness is reported if moreover the pass succeeded; it is claimed for verified nodes only, where exactness of the payload rests on the pass's own verification if a link was written through meanwhile |
| Installer.Installer.Reconcile | internal/gvisor-installer/installer.go:190-199 | every pass keeps the accounts and goes as described for a pass; ready is only ever claimed for a verified node, and a successful pass without a failed step ends ready if it left a foreign handler alone or the active record is that of its installation |
| Installer.Installer.InstalledIsHealthy | internal/gvisor-installer/installer.go:832-880 | a node on which the active record is that of the pass's installation is what ready stands for |
| Installer.Installer.RestartBudgetHolds | internal/gvisor-installer/installer.go:168-181 | for one pending record without outside changes, any three recovery restarts span at least the cooldown |
| Installer.Installer.ConvergenceBudgetHolds | internal/gvisor-installer/installer.go:358-390 | two convergence restarts of one process are separated by a verified serving |
| Installer.Lifetime | internal/gvisor-installer/installer.go:118-144 | passes, crashes behind any step, fresh processes and outside changes in any order keep every state and step of the run allowed |
| RestartBudget.AttemptAccounted | internal/gvisor-installer/installer.go:665-674 | one gate with one slot keeps the account although the two directions overwrite each other |
| RestartBudget.AtMostTwoPerWindow | internal/gvisor-installer/installer.go:168-181 | at most two recovery restarts in any window shorter than the cooldown |
| RestartBudget.DirectionAllowed | internal/gvisor-installer/installer.go:574-595 | the section on disk allows a direction only as long as the other one has not been closed |
| RestartBudget.BackoffInterval | internal/gvisor-installer/installer.go:154-166 | the base doubled with every failure, and never more than the maximum |
| Cidr.NestedOrDisjoint | internal/operator/controller/network/cidr/cidr.go:81-88 | a prefix contains all addresses of a longer one or none of them (section 3.1 of RFC 4632, section 2.3 of RFC 4291) |
| Cidr.ContainsIffInRange | internal/operator/controller/network/cidr/cidr.go:114-128 | the addresses of a prefix are one aligned range |
| Cidr.PrefixContainsIffWithin | internal/operator/controller/network/cidr/cidr.go:114-128 | prefixContains decides the inclusion of the two address sets |
| Cidr.SharedMeansNested | internal/operator/controller/network/cidr/cidr.go:83-88 | two prefixes with a common address are nested, so the disjoint case needs no action |
| Cidr.ComputeExcept | internal/operator/controller/network/cidr/cidr.go:78-112 | fails exactly when a blocked range covers the prefix; otherwise an address of the prefix is excepted exactly when it is blocked, with strict sub-ranges only |
| BlockedRanges.BlockedV4 | internal/operator/controller/network/cidr/cidr.go:23-39 | exactly these IPv4 addresses are blocked, octet by octet |
| BlockedRanges.BlockedV6 | internal/operator/controller/network/cidr/cidr.go:42-57 | exactly these IPv6 addresses are blocked, by their four leading groups |
| BlockedRanges.MetadataIsBlocked | internal/operator/controller/network/cidr/cidr.go:23-39 | 169.254.169.254 is blocked, the default nameservers are not |
| Cidr.ExceptIffBlocked | internal/operator/controller/network/cidr/cidr.go:98-111 | leaving out the ranges that only overlap loses nothing |
| NetworkPolicy.BuildDNSServerEgressRule | internal/operator/controller/network/builder.go:220-248 | permits exactly the nameservers on port 53 over UDP and TCP |
| NetworkPolicy.BuildEgressRules | internal/operator/controller/network/builder.go:187-218 | permits exactly the union of the CIDRs without their exceptions and DNS to the nameservers |
| NetworkPolicy.CollectCIDRs | internal/operator/controller/network/builder.go:108-131 | the accepted prefixes, each once, each with its exceptions; failure exactly on a rejected text |
| NetworkPolicy.CollectNameservers | internal/operator/controller/network/builder.go:137-149 | exactly the accepted nameservers |
| NetworkPolicy.DefaultNameservers | internal/operator/controller/network/builder.go:69-84 | without nameservers of its own a sandbox asks 8.8.8.8 and 1.1.1.1, exactly when cluster DNS is off and there are CIDRs or internet egress |
| NetworkPolicy.BuildCustomNetworkPolicy | internal/operator/controller/network/builder.go:92-185 | the policy permits an address, protocol and port exactly when the configuration allows it by set subtraction; failure and absence are characterised both ways |
| BlockedRanges.MetadataIsOutOfReach | internal/operator/controller/network/builder.go:92-185 | whatever is configured, the metadata address is permitted on port 53 only, and only if it is listed as a nameserver |
| Cluster.StatusOnlyExtends | internal/operator/controller/sandbox_controller.go:577-604 | over every run the two deadlines of a sandbox never move once set and its verdict never changes |
| Cluster.TerminalStatusStays | internal/api-gateway/proxy.go:64-82 | the status the API derives never leaves Succeeded or Failed |
| Cluster.SnapshotBeforeRelease | internal/operator/controller/sandbox_controller.go:968-1091 | a sandbox that wants a snapshot and whose pod was ready and supported loses its finalizer only once the snapshot was seen finished or the persisted deadline has passed |
| Cluster.SuccessMeansUploaded | internal/operator/controller/rootfssnapshot_controller.go:333-346 | a successful snapshot carries the key of a completed job with a parsed result, seen while this very object was there; the job was created for it if and only if a moment without a job of that name lies between, otherwise an older job was taken for its own |
| Cluster.YoungerIffAbsent | internal/operator/controller/rootfssnapshot_controller.go:303-321 | a job seen later was created behind a moment if and only if there was no job at some moment since |
| Cluster.LeftoverIsTaken | internal/operator/controller/rootfssnapshot_controller.go:303-346 | and any job left over at a snapshot's creation can become its success: an allowed run that says so, with no job created in it |
| Cluster.SnapWasThere | internal/operator/controller/rootfssnapshot_controller.go:205-215 | a snapshot object goes back to its own creation without a gap |
| Cluster.CompleteMeansUploaded | internal/operator/controller/sandbox_controller.go:1212-1228 | a sandbox says its snapshot is complete only if such a snapshot was seen |
| Cluster.CompletionStays | internal/operator/controller/rootfssnapshot_controller.go:620-664 | a finished snapshot keeps its completion time, verdict and key until it is deleted |
| Cluster.EveryWorldIsOk | internal/operator/controller/rootfssnapshot_controller.go:620-664 | in every state a snapshot has a completion time exactly when it has a verdict, and verdicts are never unknown |
| ApiServer.Api.Others | internal/operator/controller/sandbox_controller.go:963-1004 | whatever others do between two calls, they change neither status nor finalizer of the sandbox, nor another controller's snapshot |
| SandboxController.SandboxReconciler.PatchStatus | internal/operator/controller/sandbox_controller.go:257-267 | a patch stores the new status with whole seconds, writes no deadline or verdict twice, and may be applied although it failed |
| SandboxController.ReportExtends | internal/operator/controller/sandbox_controller.go:606-810 | the conditions written for a pod and a snapshot extend the stored status: a verdict only for a terminated pod and only once, a complete snapshot only for one seen successful |
| SandboxController.SandboxReconciler.MarkSandbox | internal/operator/controller/sandbox_controller.go:209-255 | a one-way latch |
| SandboxController.SandboxReconciler.EnsureTimeout | internal/operator/controller/sandbox_controller.go:577-604 | the time limit is anchored to the pod's start once and returned unchanged ever after; there is one exactly if the specification has one and it was recorded or the pod has started |
| SandboxController.SandboxReconciler.EnsureTerminationDeadline | internal/operator/controller/sandbox_controller.go:1067-1091 | the deadline is persisted once, anchored to the deletion, and never later than the one in use |
| SandboxController.SandboxReconciler.CreateTerminationSnapshot | internal/operator/controller/sandbox_controller.go:1251-1315 | behind a success the snapshot has existed, whoever created it, and nothing is decided; a failed call may have created it |
| SandboxController.SandboxReconciler.AwaitSnapshot | internal/operator/controller/sandbox_controller.go:1180-1249 | done only when the snapshot is seen finished; otherwise there was one, not finished, in this pass, and it asks to be run again by the deadline |
| SandboxController.SandboxReconciler.HandleRootfsSnapshot | internal/operator/controller/sandbox_controller.go:1093-1249 | done only on a ground that holds, and without API errors always behind the deadline |
| SandboxController.SandboxReconciler.ExecuteTerminationPolicy | internal/operator/controller/sandbox_controller.go:1006-1056 | policies without a snapshot are done at once, the others as above |
| SandboxController.SandboxReconciler.RemoveFinalizer | internal/operator/controller/sandbox_controller.go:997-1003 | the finalizer goes only on a ground that still holds when it goes |
| SandboxController.SandboxReconciler.FinalizeSandbox | internal/operator/controller/sandbox_controller.go:963-1004 | without API errors a finalizing pass releases the sandbox if it wants no snapshot or its deadline has passed; one that does not has seen a pod to be snapshotted and a snapshot that was not finished, and asks to be run again by the deadline |
| SandboxController.SandboxReconciler.ReconcileSandboxStatus | internal/operator/controller/sandbox_controller.go:606-810 | the verdict is the one the sandbox had, or that of the pod's phase, and Ready is true exactly if the pod is ready |
| SandboxController.SandboxReconciler.CreateSandboxPod | internal/operator/controller/sandbox_controller.go:269-443 | a success has created the pod; without API errors there is one, or the snapshot to restore was refused, and a permanent refusal is a failed verdict |
| SandboxController.SandboxReconciler.TimeOut | internal/operator/controller/sandbox_controller.go:884-906 | behind the time limit the verdict is success with reason Timeout unless there was one, and without API errors the sandbox is gone or waits for its snapshot |
| SandboxController.SandboxReconciler.GiveUp | internal/operator/controller/sandbox_controller.go:908-925 | behind the startup limit the verdict is failure unless there was one, and the sandbox is deleted |
| SandboxController.SandboxReconciler.NextVisit | internal/operator/controller/sandbox_controller.go:927-944 | a pass that waits for a limit asks to be run again by it |
| SandboxController.SandboxReconciler.Serve | internal/operator/controller/sandbox_controller.go:946-960 | within its limits a sandbox without a pod gets one, and one with a pod has its status reported |
| SandboxController.SandboxReconciler.ReconcileTimed | internal/operator/controller/sandbox_controller.go:886-960 | behind the time limit the verdict is success, behind the startup limit failure, and only there; otherwise the pod is created or its status reported, and without API errors one of the three has happened |
| SandboxController.SandboxReconciler.ReconcileLive | internal/operator/controller/sandbox_controller.go:871-960 | a refused network policy is a failed verdict; otherwise the pod seen and the time limit decide as above |
| SandboxController.SandboxReconciler.AddFinalizer | internal/operator/controller/sandbox_controller.go:854-863 | behind a success the sandbox has its finalizer and is otherwise as it was read |
| SandboxController.SandboxReconciler.Reconcile | internal/operator/controller/sandbox_controller.go:821-961 | a pass without API errors: an overdue deleted sandbox is released, any other deleted one is released or waits for its snapshot; a live one has, by the pod seen, timed out, given up on its start, or been served, with the verdict that goes with it, or the failed verdict of a refused network policy |
| SnapshotController.SnapshotReconciler.RetireFinished | internal/operator/controller/rootfssnapshot_controller.go:220-237 | a finished snapshot's job is cleaned up, and the snapshot is deleted behind its time to live and, while its sandbox is there, not before; otherwise looked at again by then |
| SnapshotController.SnapshotReconciler.Complete | internal/operator/controller/rootfssnapshot_controller.go:620-664 | completion time, verdict and key in one patch, the time being one within the call; success needs a completed job with a parsed result |
| SnapshotController.SnapshotReconciler.ReconcileSnapshotJob | internal/operator/controller/rootfssnapshot_controller.go:299-360 | by the job as it was read: without one there is one later in the pass and the snapshot is marked as started, or it has failed if the container is not known; a completed job gives success with the parsed key, an error or a failed job failure, and a running one nothing |
| SnapshotController.SnapshotReconciler.StartJob | internal/operator/controller/rootfssnapshot_controller.go:303-321 | a success has a job standing at some moment of the call and the snapshot marked as started, and a failure without API errors means that it is gone |
| SnapshotController.SnapshotReconciler.ReconcileOpen | internal/operator/controller/rootfssnapshot_controller.go:239-297 | a missing, unready or unsupported pod, or one without the container, is a failed snapshot; otherwise the job decides |
| SnapshotController.SnapshotReconciler.Reconcile | internal/operator/controller/rootfssnapshot_controller.go:205-297 | without storage an unfinished snapshot is recorded as failed; with it, pod and job as they were read decide as above, and a completed job of the snapshot's name is taken, whoever created it; a finished one is retired behind its time to live; without API errors only a snapshot that is gone makes a pass fail |
| SnapshotController.Run | internal/operator/controller/sandbox_controller.go:821-961 | the two controllers, users, kubelet, garbage collection and clock in any interleaving produce allowed steps only |

## Left out

- Text of the TypeScript client: JavaScript strings are modelled as the UTF-8 bytes of their text.
- TypeScript abort signals, the sleep between attempts, and the Python SDK, whose parser is another library.
- An orderly end of a response in mid-stream: the client takes it for completion, so the network is assumed to end a body orderly only behind the sidecar's own end.
- Offsets beyond int64: a file is at most 2^63 - 1 bytes long.
- Files that shrink or are rewritten, write deadlines and flush timing of the sidecar.
- netip's parsers: texts of addresses and prefixes are given as parsed or malformed; zones are malformed.
- Labels and metadata of a NetworkPolicy beyond the instance it selects, and the egress burst heuristic.
- What a policy leaves over may be empty: a CIDR covered by two blocked siblings is accepted, as in the code.
- TOML, JSON, `containerd config dump`, systemd, CRI gRPC, tar, bzip2, downloads and SHA-512: results are arbitrary, parsed records, or an arbitrary digest function; nothing relies on digests being free of collisions.
- Entry names that are not valid UTF-8: the JSON manifest would store them with replacement characters.
- ContainerdHost.Host.FollowLink: what is written through a link is neither a manifest nor a state file nor a configuration with two marker pairs, since it is a payload file; a link, or a special file, that cannot be opened is an I/O error, and two names of one link are told apart where `LinksDiffer` is assumed.
- ContainerdHost.Host.WriteOtherName: a temporary file of a generation shares no inode with the journal, the configuration file or a shim configuration.
- Releases.Releases.IntactGeneration: loading a manifest and listing a directory do not fail for a moment; hashing may.
- Activation.PendingStays: reading the journal does not fail for a moment. `readState` turns any read error into an empty state, so a pass that hits one would start over without the records on disk.
- Activation.ClosedTransactionsAreSettled: a daemon that restarts on its own, or a file edited between the check and the write of one pass, is not modelled; edits during a download and between passes are.
- Paths of the installer are structured (directory, version and digest; directory and base name) instead of joined strings, and the rendered block and shim configuration are arbitrary functions of what they are rendered from.
- Node events, the health server, preflight checks, the pristine backup's own file, and file modes of the journal.
- Releases.Releases.EnsureRunscConfig: the file that shim configurations are rendered from changes between passes only.
- Archive.ExtractTar: a byte of content is a character, and the reader's cancellation counts as a read error.
- Kubernetes conflicts and stale caches: a pass reads the latest object. The controllers find snapshots and jobs by name; owner references are left to garbage collection. An object of the same name is not created again within one pass, nobody but the controllers removes finalizers or termination snapshots, and nobody else writes their status.
- Cluster.SnapshotBeforeRelease: whether a runtime class supports snapshots is taken from the pod as read.
- Condition messages, transition times, generations, pod IP and sidecar version of a status, pod and job specifications, and metrics.
