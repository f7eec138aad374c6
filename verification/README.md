# Verification of the Incus MCP bridge

A Dafny model of the parts of the bridge whose correctness is not visible in
one function body, with proofs of what they promise:

- **Target trust** (`PinFs`, `PinProtocol`, `PinInvariant`, `PinSafety`,
  `PinAgreement`, `PinProgress`, `PinDurability`, `PinRestart`, `PinKernel`, `PinHost`,
  `Fingerprint`).
  Any number of processes pin the target's certificate on first use. The file
  system has inodes with a volatile and a durable image, entries that reach the
  disk one by one, and a directory that may not be durable itself. A step is one
  system call of one process, a crash, a power loss or a write-back; every call
  may fail. All choices are in the action, so a run is a sequence of actions and
  the theorems speak of every sequence. `PinHost` holds `New` and
  `resolveTargetCertificate` statement by statement, with the other processes
  moving between any two system calls. The program hands each call's arguments
  (data, mode, names, PEM) to a kernel (`PinKernel`) that knows nothing of the
  protocol; that the calls are the protocol's, in order and argument for
  argument, and that the kernel's effect is the protocol's step, is proved.
- **Waiting** (`Wait`, `WaitOperation`). The two ways of waiting for an
  operation, as interleavings of worker, caller and clock, refine one
  specification.
- **Updates** (`Update`, `UpdateHandlers`). Read-then-replace under an entity
  tag (section 13.1.1 of RFC 9110), with any number of handlers and foreign
  writers, and the four handlers that do it.
- **Bytes** (`Base64`, `Base64Stream`, `Utf8`, `FileTransfer`, `IsoImport`,
  `ConsoleLog`). Base64 (section 4 of RFC 4648) with Go's decoding rules, as a
  whole and through the 1024-byte buffer of the streaming decoder, UTF-8 (section 4 of
  RFC 3629) as Go ranges over a string, file push and pull, the bounded ISO
  import (section 8.4 of ECMA-119), the bounded console log.
- **Configuration** (`Config`, `Startup`). In-place merging of file, environment
  and flags against the rule that the first layer that sets a field wins.

`dafny verify dfyconfig.toml` checks the whole project.

## What the proofs found

- First use is not unique unless the pin's directory is on disk at the start.
  `publishTargetCertificate` syncs that directory but not the one above it, in
  which it is an entry, so a power loss can take the directory and the pin away
  after first use was reported, and the next process trusts on first use again.
  It does not help that the directory is there: a start that makes it and then
  fails leaves it there and not on disk (`PinRestart.FailedStartLeavesUnsynced`).
  `PinDurability.FirstUseIsUniqueIff` shows that first use is unique in every run
  exactly when the directory is durable at the start.
- A pin that is there need not be on disk. A start that links the pin and then
  cannot open or sync the directory returns an error and leaves the pin
  (`PinRestart.FailedStartLeavesPin`); the next start loads it, trusts it and never
  syncs it, and a power loss takes it away. The name keeps its file in every run
  exactly when the directory and the entry are on disk
  (`PinRestart.ExistingPinSurvivesIff`), and its bytes exactly when the file is as
  well (`PinRestart.ExistingPinKeepsBytesIff`). No start that the program can leave
  to itself is left out of these results (`PinRestart.EveryEndIsAStart`).
- Two processes can connect with different pins although nobody removes one. A
  reader trusts a pin as soon as it is linked, before the directory is synced; a
  power loss then takes that pin away, and whoever starts next trusts another
  certificate (`PinRestart.ReadersCanDisagree`). All who resolve agree in every run
  exactly when a pin of the start is settled: its entry is on disk, and so is its
  file, or else it cannot be parsed, so that nobody trusts it before a power loss
  has fixed what it holds (`PinRestart.AgreementIff`). Without a power loss they
  always agree (`PinAgreement.ResolversAgree`).
- The waits multiply the timeout in seconds into a signed 64-bit number of
  nanoseconds, and validation sets no upper bound
  (`Startup.AcceptedTimeoutCanBeEarly`). "running" never comes early exactly if
  the timeout is at most 9223372036 seconds (`Wait.RunningIsNeverEarlyIff`,
  `WaitOperation.RunningIsNeverEarlyIff`); with 9223372037 it can come at once,
  with 18446744074 after 0.29 seconds (`Wait.RunningCanBeEarly`).
- The handlers are safe against lost updates exactly when no two versions of a
  resource can carry the same tag (`Update.SafeIffTagsAreUnique`). A tag made from
  the content alone never suffices (`Update.ContentTagsAllowAba`); if no two
  contents share one, it still gives that every successful update replaced a
  content equal to the one it had read, and only then (`Update.ContentTagsIff`).
- The console log adds one to a signed 64-bit limit. With the largest limit the
  sum wraps around and every log is returned as empty and not truncated
  (`ConsoleLog.FaithfulIff`).
- The ISO import promises to reject malformed base64, but the streaming decoder
  looks for padding at the end of each buffer it fills and not only at the end of
  the text. `IsoImport.TakesMalformedIff` says which malformed texts are taken,
  `IsoImport.TakesMalformedPlainIff` the same in terms of the blocks of 1024
  characters of a text without line breaks (`IsoImport.TakesMalformedBlocksIff` for
  texts that stay clear of the limit), and `IsoImport.HiddenPaddingIsTaken`
  gives one: `QQ==`, 1020 line feeds, `QUJD`. Every artifact of more than 767 bytes
  within the limit has a malformed text that is taken for it, and so every ISO
  (`IsoImport.MalformedIsoIsImported`).
- The length check of the ISO import counts line breaks, so a well-formed text of
  an artifact within the limit is refused exactly if its line breaks make it
  longer than the canonical text of the largest artifact
  (`IsoImport.TakesWellFormedIff`, `IsoImport.LineBreakIsRefused`).
- A file pulled as text comes back from JSON unchanged exactly if it is
  well-formed UTF-8 (`FileTransfer.PullThroughJson`); one ill-formed byte in five
  characters still passes for text (`Utf8.TextCanBeIllFormed`).
- `adminCertPathRef` is documented to make the admin credential when a path is
  provided; `applyEnv` calls it always, so a loaded configuration always has one
  (`Config.Load`). The list of variables above `applyEnv` leaves out
  `INCUS_MCP_TARGET_CERT`, which the code reads and the model has.

## Model

| member | source | states |
|---|---|---|
| PinSafety.PinIsNeverPartial | internal/incus/target_trust.go:164-214 | in every reachable state, with crashes, power losses and I/O failures, the pin name is absent or leads to the pin file of the start, untouched if it was on disk, or to one process's whole candidate, on disk |
| PinSafety.PinIsNeverReplaced | internal/incus/target_trust.go:199-204 | no step changes a published pin or the file behind it; only a power loss removes it, and only while it is not durable, or changes its file, and only while that is not on disk |
| PinSafety.FirstUseIsFinal | internal/incus/target_trust.go:64-77 | with the directory on disk at the start: after a first use is reported the pin durably holds exactly the reported PEM in every continuation, all later resolutions return that PEM and fingerprint, nobody else reports first use |
| PinDurability.FirstUseIsUniqueIff | internal/incus/target_trust.go:167-213 | first use is reported at most once in every run if and only if the directory is on disk at the start |
| PinDurability.MissingDirectoryAllowsTwo | internal/incus/target_trust.go:205-213 | a concrete run without the directory in which two processes report first use and the first pin is lost |
| PinDurability.UnsyncedDirectoryAllowsTwo | internal/incus/target_trust.go:205-213 | the same run from a directory that is there but not on disk |
| PinRestart.FailedStartLeavesUnsynced | internal/incus/target_trust.go:168-176 | such a directory is what a start leaves that makes it and fails to make its temporary file |
| PinRestart.FailedStartLeavesPin | internal/incus/target_trust.go:199-212 | a start that links the pin and cannot open the directory returns an error and leaves the pin there, not on disk |
| PinRestart.EveryEndIsAStart | internal/incus/target_trust.go:164-214 | whatever any run leaves behind, crashes and failures included, is a start that the results cover |
| PinRestart.ExistingPinSurvivesIff | internal/incus/target_trust.go:52-58 | the name of a pin of the start keeps its file in every run if and only if directory and entry are on disk |
| PinRestart.ExistingPinKeepsBytesIff | internal/incus/target_trust.go:52-58 | a pin of the start keeps its bytes in every run if and only if directory, entry and file are on disk |
| PinRestart.ReadersCanDisagree | internal/incus/target_trust.go:199-213 | a run in which one process trusts a pin that is linked and not synced, the power goes, and another trusts a different certificate; from any start without a pin, a durable directory included |
| PinRestart.AgreementIff | internal/incus/target_trust.go:52-77 | all who resolve agree on PEM and fingerprint in every run, power losses included, if and only if the pin of the start has its entry on disk and its file on disk or unparsable |
| PinAgreement.ResolversAgree | internal/incus/target_trust.go:52-77 | in every run without a power loss all successful resolutions have one PEM and one fingerprint, whoever won the link race, and at most one reports first use |
| PinAgreement.ConnectionsUseThePin | internal/incus/incus.go:39-67 | a process opens a connection only after resolving, with the resolved PEM, while the pin file holds that PEM |
| PinAgreement.ClientHasBothIdentities | internal/incus/incus.go:48-67 | when New returns a client there was a primary connection and then an admin one exactly if configured, both with one PEM |
| PinAgreement.FailureConnectsNothing | internal/incus/incus.go:44-46 | a failed resolution is never followed by a connection |
| PinAgreement.ExistingPinIsAuthoritative | internal/incus/target_trust.go:52-58 | a pin of the start keeps its file through every run (power losses included if directory, entry and file are on disk), nobody fetches or makes a temporary file, everyone who resolves gets its bytes without first use, nobody resolves if it does not parse |
| PinAgreement.NoHandleLeaks | internal/incus/target_trust.go:180-209 | a process that has returned or died has no file open, in every run |
| PinAgreement.NothingIsLeftBehind | internal/incus/target_trust.go:173-214 | once all have returned, with no crash and removals working, the directory is that of the start plus at most the pin and nothing is open |
| PinAgreement.FirstCallDecides | internal/incus/target_trust.go:37-51 | the first call of a process settles, from the URL and the path alone, what is no https target: an unusable URL, a host name or a path that is missing, or the empty success of http; otherwise it goes on to the pin |
| PinAgreement.FailuresSayWhy | internal/incus/target_trust.go:37-214 | in every run, a resolution that fails fails for the reason it gives, at the call that failed |
| PinProgress.WorkRunsOut | internal/incus/target_trust.go:37-214 | the remaining calls of all processes never grow and every call uses one up |
| PinProgress.NobodyWaits | internal/incus/target_trust.go:37-214 | a process is over after a fixed number of its own calls, whatever the others do |
| PinProgress.EverybodySucceeds | internal/incus/target_trust.go:60-77 | no pin at the start and nothing fails: under any order everybody gets a client, over http as over https; all that use TLS agree, and exactly one of them reports first use if there is any |
| PinKernel.KernelIsProtocol | internal/incus/target_trust.go:80-214 | what the kernel does with each system call and its arguments, knowing nothing of the caller, is the effect of the protocol step that issues it |
| PinHost.LoadTargetCertificate | internal/incus/target_trust.go:80-96 | opens and reads the pin as the protocol does and returns the pin, a missing file or the error that the protocol records |
| PinHost.FetchTargetCertificate | internal/incus/target_trust.go:98-140 | returns the PEM and fingerprint of the presented leaf, or fails |
| PinHost.PublishTargetCertificate | internal/incus/target_trust.go:167-214 | makes the publication calls in order on every error path, with the mode, the whole candidate and the names the protocol has; created, lost or failed as the protocol records |
| PinHost.ResolveTargetCertificate | internal/incus/target_trust.go:37-78 | an https resolution returns only a PEM that the pin holds; a first use is on disk if the directory was on disk at the start; every target that parses and is not https resolves to the empty success; an unusable URL, a missing host name and an empty path are each reported exactly when they are there |
| PinHost.New | internal/incus/incus.go:39-67 | returns a client exactly when everything succeeded, both identities bound to one pin, an admin identity exactly if configured; an http target gets its client without a pin |
| Fingerprint.CertificateFingerprint | internal/incus/target_trust.go:154-162 | 95 characters that parse back to the digest |
| Fingerprint.FormatAt | internal/incus/target_trust.go:154-162 | which character is where: two upper-case hex digits a byte, a colon between bytes |
| Fingerprint.DigestsPrintDifferently | internal/incus/target_trust.go:154-162 | different digests print differently |
| Wait.McpOperation | internal/server/tools_instances.go:582-591 | makes missing maps empty ones in place and changes nothing else |
| Wait.WaitResultIsJustified | internal/server/tools_instances.go:549-577 | "running" only once the timer's duration (the seconds that apply, in wrapping 64-bit nanoseconds) has passed, a final state only if Wait succeeded, an error only if it failed with it; what is returned has both maps |
| Wait.ReplySaysWhatGetGave | internal/server/tools_instances.go:549-591 | in every run, "running" has the ID that Get gave when the timer fired and nothing else of it; a final state is an operation that Get returned to the worker, field by field, with missing maps made empty; an error is one that Wait returned |
| Wait.DurationIsExactIff | internal/server/tools_instances.go:555 | the duration is the seconds asked for if and only if these are between -9223372036 and 9223372036; beyond that it is shorter, by a multiple of 2^64 nanoseconds |
| Wait.RunningIsNeverEarlyIff | internal/server/tools_instances.go:553-576 | in every schedule "running" comes no earlier than the seconds asked for if and only if these are at most 9223372036 |
| Wait.RunningCanBeEarly | internal/server/tools_instances.go:555 | two timeouts with which "running" comes at once, or after 0.29 seconds |
| Wait.WorkerNeverBlocks | internal/server/tools_instances.go:558-567 | once Wait has returned the worker ends in its own two steps, caller or not, after exactly one message on one channel |
| Wait.CallerCanReply | internal/server/tools_instances.go:569-577 | when the worker has ended or the timer has fired the caller has an arm to take |
| Wait.WaitResultRefines | internal/server/tools_instances.go:549-577 | every step of every schedule is a step of the wait specification |
| Wait.WaitResultReplies | internal/server/tools_instances.go:549-577 | exactly which replies some schedule produces |
| WaitOperation.OwnershipPassesAtClose | internal/incus/incus.go:142-166 | the shared variables are written only by the worker before the close and read only after it, exactly one is set by then, the fallback is unreachable |
| WaitOperation.WaitOperationIsJustified | internal/incus/incus.go:157-176 | each kind of return has its reason: outcome, cancelled context, or the duration of the timer |
| WaitOperation.ReturnSaysWhatGetGave | internal/incus/incus.go:139-177 | the same for what this wait returns: the ID from the timer's Get, the operation that Get returned to the worker, the error of Wait, the caller's own cancellation |
| WaitOperation.RunningIsNeverEarlyIff | internal/incus/incus.go:130-176 | the same exact bound for the configured seconds |
| WaitOperation.WaitOperationReturns | internal/incus/incus.go:139-177 | exactly which returns some schedule produces: all but the fallback |
| WaitOperation.WaitOperationRefines | internal/incus/incus.go:139-177 | without cancellation it refines the same wait specification |
| Update.UpdatesAreSafe | internal/server/tools_config.go:82-94 | with unique tags every successful update replaced exactly the version it had read with nothing in between, no two replaced the same version, each refusal has another write to blame, the content is the last replacement |
| Update.SomebodyWins | internal/server/tools_storage_extra.go:209-217 | without foreign writers and failures, whatever the tags, once one handler is done one has succeeded |
| Update.SafeIffTagsAreUnique | internal/server/tools_storage.go:144-157 | every successful update in every run replaced the version it had read if and only if no two versions can share a tag |
| Update.SafeForContentIff | internal/server/tools_storage.go:144-157 | every successful update in every run replaced a content equal to the one it had read if and only if versions with different contents never share a tag |
| Update.ContentTagsAllowAba | internal/server/tools_config.go:82-94 | with tags made from the content a handler overwrites a change to b and back that it has not seen |
| Update.ContentTagsIff | internal/server/tools_config.go:82-94 | tags made from the content never give version safety, and content safety if and only if no two contents share one |
| UpdateHandlers.ProfileUpdate | internal/server/tools_config.go:78-95 | a missing name sends nothing; otherwise the requests are sent, the handler succeeds exactly if both get through under a tag that is still current, and success means that this profile replaced exactly the version read if tags are unique, and a content equal to the one read if they tell contents apart |
| UpdateHandlers.StorageVolumeUpdate | internal/server/tools_storage.go:139-159 | the same for a volume; the body sent has every entry of the caller's map and no other, except that a non-empty size is in it under "size", and without a size it is the caller's map or none; the caller's own map gets the size, and keeps everything else, as soon as the volume has been read, whatever comes of the update |
| UpdateHandlers.StorageVolumeSnapshotRestore | internal/server/tools_storage.go:271-293 | the same for a body that only names the snapshot |
| UpdateHandlers.StorageBucketUpdate | internal/server/tools_storage_extra.go:205-218 | the same for a bucket |
| Base64.DigitIsFromTable | internal/server/tools_execfiles.go:254 | the digits are those of Table 1 of RFC 4648 |
| Base64.GroupIsOneNumber | internal/server/tools_execfiles.go:254 | three bytes and the four digits they become are one 24-bit number, as section 4 of RFC 4648 has it |
| Base64.RoundTrip | internal/server/tools_execfiles.go:254 | what is encoded decodes back, in 4 characters for every 3 bytes begun |
| Base64.DecodesIff | internal/server/tools_execfiles.go:142-147 | the texts that decode to some bytes are exactly their encodings up to line breaks and the unused bits of the last digit |
| Base64Stream.StrictIff | internal/server/tools_storage_extra.go:170 | however a text is cut between quanta, it decodes as a whole exactly when every piece decodes and none before the last ends in padding, and then to the same bytes |
| Base64Stream.TakesMalformedIff | internal/server/tools_storage_extra.go:170 | decoding in pieces takes a malformed text exactly when all pieces decode and one before the last ends in padding |
| Base64Stream.ReadDecodesPieces | internal/server/tools_storage_extra.go:170 | the limited, buffered reader yields what the pieces it makes decode to, cut off at the limit |
| Base64Stream.PiecesAreBlocks | internal/server/tools_storage_extra.go:170 | without line breaks the pieces of a text that decodes are its blocks of 1024 characters |
| Utf8.DecodesEncoded | internal/server/tools_execfiles.go:277 | decoding finds every scalar value's encoding, whatever follows |
| Utf8.EncodesByTable | internal/server/tools_execfiles.go:277 | encodings have the byte ranges and the value of the table of section 3 of RFC 3629 |
| Utf8.EncodesDecoded | internal/server/tools_execfiles.go:277 | what is decoded, unless it stands for an ill-formed byte, is encoded there |
| Utf8.IsText | internal/server/tools_execfiles.go:269-287 | true exactly if there is no NUL and at least 80% of the first 257 runes are not U+FFFD |
| Utf8.WellFormedTextIsText | internal/server/tools_execfiles.go:269-287 | all well-formed text without NUL and U+FFFD is text |
| Utf8.CoercedIff | internal/server/tools_execfiles.go:248-250 | a string written as Unicode and read back is unchanged if and only if no byte of it is ill-formed |
| Utf8.TextCanBeIllFormed | internal/server/tools_execfiles.go:269-287 | ill-formed data that passes for text |
| FileTransfer.FilePull | internal/server/tools_execfiles.go:203-267 | exactly when a pull succeeds and why it fails; a file comes inline exactly if it is no longer than the request's cap, or than the configured one if the request has none, as it is if it looks like text and else in base64, and is only staged otherwise; directories list their entries |
| FileTransfer.ListingReadsBackIff | internal/server/tools_execfiles.go:242-246 | the listing of a directory gives its entries back if and only if no name has a line feed in it |
| FileTransfer.FilePush | internal/server/tools_execfiles.go:133-178 | plain text, also by default, is written as it is and base64 decoded; exactly when it is written, with which arguments, and which error is reported when |
| FileTransfer.PullThenPush | internal/server/tools_execfiles.go:133-267 | pull then push is the identity for every file within the cap |
| FileTransfer.PullThroughJson | internal/server/tools_execfiles.go:133-267 | pull, JSON, push is the identity if and only if the file was not taken for text or is well-formed |
| IsoImport.DecodeISOArtifact | internal/server/tools_storage_extra.go:157-181 | succeeds only with the whole artifact in an open rewound file; otherwise whatever was made is closed and removed |
| IsoImport.ValidateISOArtifact | internal/server/tools_storage_extra.go:183-194 | passes only files with type 1, "CD001", version 1 at byte 32768, rewound; and passes all of them when nothing fails |
| IsoImport.StorageVolumeImportISO | internal/server/tools_storage_extra.go:135-155 | on every path the temporary file is closed and removed; only a whole artifact with the descriptor is uploaded, from offset 0; when nothing fails the import succeeds exactly for text that the decoder makes an ISO of, and for a well-formed encoding of one within the limit exactly if the text is no longer than the canonical text of the largest |
| IsoImport.TakesWellFormedIff | internal/server/tools_storage_extra.go:157-176 | a well-formed encoding of an artifact within the limit is taken if and only if the text passes the length check |
| IsoImport.CanonicalIsAccepted | internal/server/tools_storage_extra.go:158-176 | every canonical encoding of an artifact within the limit is taken |
| IsoImport.LineBreakIsRefused | internal/server/tools_storage_extra.go:158-160 | the largest artifact with one line break in its text is refused |
| IsoImport.TakesMalformedIff | internal/server/tools_storage_extra.go:157-176 | malformed text is taken if and only if it passes both length checks, all its pieces decode and one before the last ends in padding |
| IsoImport.TakesMalformedPlainIff | internal/server/tools_storage_extra.go:157-176 | without line breaks: if and only if it passes the length checks, its blocks of 1024 characters (the last one cut in two where the limit is reached exactly) all decode and one before the last ends in padding |
| IsoImport.HiddenPaddingIsTaken | internal/server/tools_storage_extra.go:170 | a malformed text that is taken |
| IsoImport.EveryArtifactHasMalformedText | internal/server/tools_storage_extra.go:157-181 | every artifact of more than 767 bytes within the limit has a malformed text that is taken for it |
| IsoImport.MalformedIsoIsImported | internal/server/tools_storage_extra.go:157-194 | so every ISO within the limit can be imported from text that is not base64 |
| IsoImport.LengthCheckIsTight | internal/server/tools_storage_extra.go:158-160 | what passes the length check decodes, however it is cut, to at most two bytes more than the limit |
| IsoImport.LengthCheckIsNotEnough | internal/server/tools_storage_extra.go:174-176 | those two bytes are real and the second check refuses them |
| ConsoleLog.InstanceConsoleLog | internal/server/tools_cluster_console.go:85-108 | for every log and every cutting of the reads: the first bytes up to the limit (65536 if none is given) and the truncation flag, for every limit but the largest |
| ConsoleLog.FaithfulIff | internal/server/tools_cluster_console.go:98-106 | the result is right for all logs if and only if the limit is not the largest 64-bit integer |
| Config.LoadFile | internal/config/config.go:144-154 | merges the file into the object in place as one layer |
| Config.ApplyEnv | internal/config/config.go:169-193 | merges the environment into the object in place as one layer |
| Config.ApplyFlags | internal/config/config.go:212-249 | merges the flags into the object in place as one layer |
| Config.AtoiReadsDecimals | internal/config/config.go:175-181 | integer variables are read back from their decimal form exactly if they fit |
| Config.AtoiIff | internal/config/config.go:175-181 | exactly these texts set an integer, and to this value: an optional sign, leading zeros and decimal digits of a number that fits |
| Config.Load | internal/config/config.go:120-141 | exactly when it succeeds and with what: the settings of the file that was parsed and its directory, or none and the default directory; afterwards the admin credential is there with both paths or neither |
| Config.FirstLayerWins | internal/config/config.go:117-140 | for every text field the flag if it is not empty, else the variable if it is set and not empty, else the file, else the default |
| Config.AdminHalvesWin | internal/config/config.go:184-185 | the same for each half of the admin credential, whatever layer the other comes from |
| Config.NumbersWin | internal/config/config.go:174-192 | for port and wait timeout the flag if it is not zero, else the number that the text of the variable is; the file or the default decides when the variable is missing, empty or no decimal in range |
| Config.DecimalsWin | internal/config/config.go:190 | in particular a port in decimal, bare or with a sign, is the port: 9001 for "9001" |
| Config.AcceptedIff | internal/config/config.go:252-283 | which starts are accepted, layer by layer: the primary credential must be set, the admin one whole or not at all whichever layers its halves come from, and only the winning values have to be in range; what no layer sets is never at fault |
| Config.ComposeApplies | internal/config/config.go:123-134 | two layers compose to one |
| Config.ComposeAssociates | internal/config/config.go:123-134 | composition of layers is associative |
| Config.ApplyTwice | internal/config/config.go:169-249 | applying a layer twice is applying it once |
| Config.PinPathFollowsConfig | internal/config/config.go:292-301 | the pin path is the winning explicit path, else target.crt beside the effective file |
| Startup.LoadAndConnect | internal/incus/incus.go:53-66 | a client has an admin identity exactly when the flag, the variable or the file gives an admin certificate path that is not empty, and it is bound to the pin of the primary one |
| Startup.AcceptedTimeoutCanBeEarly | internal/config/config.go:273-275 | validation accepts timeouts with which both waits can be early |

## Left out

- Base64Stream: `io.Copy` and its 32 KiB buffer, which never limits the decoder's 1024 characters, are not told apart from the limited reader.
- Timers: `time.After` is taken never to fire early; that the runtime caps a time beyond its own clock, some 292 years away, is not modelled.
- TLS dialing, PEM, x509 and SHA-256: parameters of the protocol. Fingerprint agreement and `EverybodySucceeds` assume that an encoded certificate parses back (section 5 of RFC 7468).
- Parent directories: the pin's directory is one durable or not yet durable thing; several missing levels are not told apart.
- Modes of the directories that are made (0700): not modelled; the mode of the pin's candidate is.
- Temporary names: an id that is in use makes the creation fail instead of being retried with another one.
- Removal or replacement of the pin by an operator: not a step of the protocol, nor taken to be so recent that the old entry is still on disk. A pin that an operator has put where there was none may be in any state.
- PinAgreement.ResolversAgree: assumes no power loss; `PinRestart.AgreementIff` says when every run agrees, and `PinSafety.FirstUseIsFinal` what a power loss leaves.
- PinAgreement.NothingIsLeftBehind: assumes no crash and that removing works; a crashed process leaves its temporary file.
- PinAgreement.ExistingPinIsAuthoritative: assumes no power loss if the pin is not on disk; `PinRestart.ExistingPinKeepsBytesIff` shows that it must.
- PinHost.New: says nothing of runs with a power loss, which the process does not survive; the step system covers them.
- WaitOperation.WaitOperationRefines: leaves out callers that cancel; `WaitOperationIsJustified` and `WaitOperationReturns` cover them.
- Error wording, `MapError`, and the operation ID in the wrapped error: not part of the model.
- Update: the target is an environment that honours If-Match with the tag it has sent; tags are taken not to be empty, since a client or target may take an empty tag for no condition at all. How Incus computes its tags is not part of the model.
- `profileCopy`: reads and creates without a tag; there is no conditional write to prove anything about.
- FileTransfer.PullThenPush: holds at the handler boundary; `PullThroughJson` adds what JSON does to ill-formed bytes. JSON escapes are not modelled.
- Staging file names, the MCP transport and the remaining handlers: required-field checks and one call to the target.
- JSON syntax: the configuration file enters as the fields it sets; `url.Parse`, `filepath.Dir` and `filepath.Join` are parameters.
