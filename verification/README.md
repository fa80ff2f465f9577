# Codex PAT credential store: a verified model

The codex-pat plugin stores personal access tokens as JSON files in a directory
that it shares with a host, CLIProxyAPI. The host's watcher may read or rewrite
those files at any moment. This project models how the plugin decides what to
save, under which name, and how it publishes the file against that watcher, and
proves what every run of it keeps.

`dafny verify dfyconfig.toml` checks the whole project.

## How the model is built

- **Arbitrary library services.** `Platform.LIB` is a constant without a value.
  Its type says only that digests are 24 hexadecimal digits and that parsing a
  formatted time gives the time back. SHA-256, RFC 3339 text and the JSON byte
  parser are therefore arbitrary: no result rests on the digest being
  collision-free.
- **Arbitrary environment.** `Watcher.Environment` fixes what happens before each
  single plugin action: how much time passes, which states the file takes, what
  the host answers, which writes fail, whether the caller gives up. Statements
  about all environments cover every adversary and every interleaving with the
  save. The plugin's own repairs and the host's writes share one file history.
- **Two levels of the save.** `Watcher` and `SaveProtocol` say what one run
  does, as functions. `Service` is the imperative form, with the loop, the
  window variables and the early returns of the Go code, and each of its methods
  is proved to end in exactly the state those functions give.
- **The directory.** `StoreProtocol` runs any number of management requests,
  which serialise on the handler's mutex and may stop after any step, against
  the watcher and other software. Listing the files, getting each one, choosing
  the name and every write are separate steps between which the others act. The
  request steps do not look at the mutex once they hold it; that only the holder
  is inside is part of the invariant. A file that is being rewritten in place, or
  is damaged, is unreadable for a while and still its principal's.
- **The two views are one.** `SaveInStore` shows that the file history of a whole
  save against an environment is a run of the directory, state by state.
- **Documents.** A file's bytes are a JSON value or `Malformed`; objects are finite
  maps. Strings are byte strings and letter case is ASCII.

- **Laws beside the definitions.** What a run function says in one place is stated
  again in the terms of its inputs, with the constants written out: `ResolverLaws`
  for every exit of the name resolution, `WatcherLaws` for records, repairs and the
  endings of a wait, `SaveExits` for every exit of the save, and the lemmas whose
  names end in `Exactly` elsewhere.

Modules, in order of use: `Text`, `Platform`, `Principal`, `OwnedNames`
(`credential.go` names), `HostStream` (`hostrpc/client.go`), `Whoami`, `Credentials`
and `Lifecycle` (`credential.go` codec and updates), `Parser`, `Decisions` (what
`Import` and `Revalidate` decide), `Resolver` and `ResolverLaws` (`resolveFileName`),
`Watcher`, `WatcherSafety`, `WatcherLaws`, `WatcherProgress`, `LateSettling`, `SaveProtocol`,
`SaveExits`, `SaveProgress`, `StoreProtocol`, `StoreRuns`, `SaveInStore`, `Service`, `Management`,
`AtomicReplace`.

## What turned out to need a condition

- **Sampling.** The wait compares two samples, so a modification time that is used
  twice defeats it: `WatcherSafety.ReusedModTimeDefeatsSampling` builds such an
  environment for every job, every settings and every foreign content, with the
  foreign content in the file from one poll to the next. A successful wait was
  uninterrupted exactly when the confirmed modification time did not come back
  between its two samples (`StableMeansSampled`), which modification times that
  are fresh from the wait's start on guarantee (`StableMeansUninterrupted`).
- **Incomplete credentials.** The save's incomplete-credential exit is reachable
  from `Import` and `Revalidate` exactly when the clock reads Go's zero time
  (`Decisions.ImportDecision`, `Decisions.RevalidationKeepsPrincipal`).
- **Settling.** A wait need not succeed at the first poll a stable window after
  the host has settled (`LateSettling.SettledIsNotYetSeen` builds such a host for
  every job and settings with a window), but does a stable window after the first
  poll that saw it settled (`WatcherProgress.SettledPoll`, both directions). That poll comes
  within two iterations of the settling (`LateSettling.SettlingIsSoon`).
- **Hash preimage.** It is ambiguous once an account identifier reaches 2^32 bytes
  (`Principal.LongIdentifiersCollide`) and injective below.
- **Other software.** A file created under the resolved name between resolution and
  the staging write is overwritten unseen, in a run of the protocol
  (`StoreRuns.LateFileIsOverwritten`). A file that is nobody's is safe as long as
  no request in progress is about to create its name or has read it as its own
  (`StoreRuns.NobodysFile`), which while no request is in progress is every such
  file (`StoreRuns.IdleMeansUnseen`); once a request has chosen its name, the next
  write takes it (`StoreRuns.ChosenFileIsOverwritten`). The repository's
  README.md:99-102 asks operators to keep out of the plugin's namespace.

## Model

| member | source | states |
|---|---|---|
| Principal.PreimageInjective | internal/pat/credential.go:248-258 | Below 2^32 bytes of account, two (account, user) pairs have the same hash input exactly when they are equal |
| Principal.PreimageLayout | internal/pat/credential.go:248-258 | Where the length prefixes, the account and the user sit in the hash input |
| Principal.HashLayout | internal/pat/credential.go:248-258 | The hash is the digest of the domain tag, then the trimmed account and the trimmed user, each after its length |
| Principal.BigEndian32Value | internal/pat/credential.go:253 | The four length bytes denote the length modulo 2^32 |
| Principal.LongIdentifiersCollide | internal/pat/credential.go:252-256 | With an account of 2^32 bytes two different pairs have the same hash input |
| OwnedNames.SanitizeFileSegment | internal/pat/credential.go:315-343 | The sanitiser yields the collapsed text cut at the limit and stripped of edge punctuation |
| OwnedNames.BuildSegment | internal/pat/credential.go:320-341 | The loop's builder is the whole collapsed text, or as much as fits without ending in a separator whose character does not |
| OwnedNames.SegmentIsNormal | internal/pat/credential.go:315-343 | Every segment fits its limit, is empty or begins and ends alphanumeric, uses only its alphabet and has no two adjacent hyphens |
| OwnedNames.SegmentFixesExactlyNormal | internal/pat/credential.go:315-343 | The strings the sanitiser leaves alone are exactly those in normal form |
| OwnedNames.SegmentIdempotent | internal/pat/credential.go:315-343 | Sanitising twice is sanitising once |
| OwnedNames.CollapseKeepsAllowed | internal/pat/credential.go:323-341 | Before the cut, every allowed character is kept, in order |
| OwnedNames.SegmentDropsOnlyEdges | internal/pat/credential.go:331-342 | After the cut, only edge punctuation is lost |
| OwnedNames.CollapseOfAllowed | internal/pat/credential.go:323-341 | Text of allowed characters stays as it is |
| OwnedNames.CollapseDropsEnds | internal/pat/credential.go:326-329 | Characters that are not allowed vanish at the end and at the beginning |
| OwnedNames.CollapseJoins | internal/pat/credential.go:326-336 | Between two pieces they leave exactly one hyphen |
| OwnedNames.NamePartsInOrder | internal/pat/credential.go:237-246 | A name is prefix, hash, the email's segment of at most 96 bytes, the plan's of at most 48, `.json`; an empty segment leaves no hyphen |
| OwnedNames.NormalPartsAreShown | internal/pat/credential.go:237-246 | An email and a plan that need no sanitising are read off the name as they are |
| OwnedNames.SafeNameExactly | internal/pat/service.go:448-451 | A safe name has no separator and ends in `.json` in any letter case |
| OwnedNames.BindingExactly | internal/pat/credential.go:273-281 | A name is bound to the principal, with both identifiers, whose hash it carries |
| OwnedNames.PrintedNameIsRecognised | internal/pat/credential.go:237-246 | Every printed name, in any letter case, is recognised with exactly its principal's hash, is a safe name and has at most 185 bytes |
| OwnedNames.RecognitionIsTheGrammar | internal/pat/credential.go:283-313 | A name is recognised with a hash exactly when, lowered and trimmed, it is prefix, hash, optional readable part of at most 145 bytes, `.json` |
| OwnedNames.RecognitionIgnoresCase | internal/pat/credential.go:288 | Names equal up to case are recognised alike |
| OwnedNames.CanonicalNameIsBound | internal/pat/credential.go:273-281 | A printed name is bound to the principal it was printed for |
| OwnedNames.SharedNameIsCollision | internal/pat/credential.go:273-281 | A name bound to two principals exhibits a digest collision on two different inputs |
| HostStream.Client.HTTPDoLimited | internal/hostrpc/client.go:71-125 | For every list of host replies: status, body and which error, and the exact trace open, reads, close, with one more close only when the success-path close failed; an ended context reaches the host with neither the open nor a read |
| HostStream.Client.ReadBody | internal/hostrpc/client.go:102-118 | The read loop stops at the first final, failed, broken or overflowing reply, with the error of that reply, within the limit, and with one call per reply |
| HostStream.StopIsUnique | internal/hostrpc/client.go:102-118 | Reading succeeds exactly when some reply completes a fitting body, and fails on the limit exactly when some intact reply overflows it; where it stops, with which error and which body is determined |
| HostStream.JoinedInOrder | internal/hostrpc/client.go:114 | The body is the payloads in the order of the replies |
| HostStream.JoinedOne | internal/hostrpc/client.go:114 | One reply's part of the body is its payload |
| Whoami.NormalizeTokenIdempotent | internal/pat/whoami.go:38-55 | A normalised token is its own normal form |
| Whoami.TokenExactly | internal/pat/whoami.go:38-55 | A token is a trimmed printable text with prefix `at-` of at most 16384 bytes; an oversized one is refused with status 413, any other with 400 |
| Whoami.DecodedIdentityIsNormal | internal/pat/whoami.go:157-206 | Every decoded identity has trimmed, bounded, control-free fields and non-empty required ones |
| Whoami.IdentityIsTheWireFields | internal/pat/whoami.go:139-186 | Each identity field is the trimmed wire field of its name |
| Whoami.IdentityExactly | internal/pat/whoami.go:157-206 | Which wire objects are identities, and that the email is kept, trimmed |
| Whoami.BodyExactly | internal/pat/whoami.go:135-156 | Only a body of 1 to 1048576 bytes that is one JSON object can be one |
| Whoami.AuthenticationFailureIsAuthoritative | internal/pat/whoami.go:99-125 | A token counts as rejected exactly on status 401 or 403, whatever happened to the body |
| Whoami.IdentityComesFromCompleteSuccess | internal/pat/whoami.go:99-118 | An identity is returned exactly for a complete, decodable 2xx response |
| Whoami.RetryableExactly | internal/pat/whoami.go:99-133 | Which failures are retryable, exactly |
| Whoami.FailuresExactly | internal/pat/whoami.go:84-133 | The kind, the status and the retryability every failed request is reported with |
| Credentials.MarshalJSON | internal/pat/credential.go:130-159 | The in-place edit of the field map, in whatever order the map is walked, gives every key its encoded value |
| Credentials.DecodeMarshalled | internal/pat/credential.go:87-109 | Decoding an encoded credential gives it back, backed by the encoded object |
| Credentials.MarshalNormalForm | internal/pat/credential.go:130-159 | Decode-then-encode is idempotent, including an explicit `websockets` false |
| Credentials.CodecRoundTrip | internal/pat/credential.go:87-159 | A decodable file is rewritten to one with the same struct fields, the same unknown fields and no forbidden field |
| Credentials.EncodedTexts | internal/pat/credential.go:48-67 | Which key holds which text field |
| Credentials.EncodedOptionalTexts | internal/pat/credential.go:48-67 | Which key holds which of the remaining text fields, empty ones included |
| Credentials.EncodedOthers | internal/pat/credential.go:48-67 | The time, the headers and the priority survive encoding |
| Credentials.EncodedFlags | internal/pat/credential.go:48-67 | The three flags survive encoding |
| Credentials.EncodedRequiredKeys | internal/pat/credential.go:48-67 | The keys that are always written |
| Credentials.EncodedOptionalKeys | internal/pat/credential.go:48-67 | An optional text is written exactly when it is not empty |
| Credentials.EncodedOtherKeys | internal/pat/credential.go:130-159 | When headers, priority and the websockets flag are written |
| Credentials.OtherFieldsKept | internal/pat/credential.go:39-46 | The six forbidden fields are never written, every other unknown field is written as it was |
| Credentials.FieldsFitExactly | internal/pat/credential.go:87-109 | A file decodes exactly when every known field has its type, or is absent or null |
| Credentials.DecodedExactly | internal/pat/credential.go:110-129 | Which files are foreign, unreadable, malformed plugin files, or credentials |
| Lifecycle.CredentialRecord.ApplyIdentity | internal/pat/credential.go:198-210 | The updates in place give the credential with the identity's data and a synchronised header |
| Lifecycle.CredentialRecord.Disable | internal/pat/credential.go:212-219 | Disabling changes the flag, the state and the time only |
| Lifecycle.CredentialRecord.SyncHeader | internal/pat/credential.go:221-235 | Afterwards the FedRAMP header is there exactly when the flag is set, with the value "true"; every other header and every other field is kept |
| Lifecycle.SyncedIsUnique | internal/pat/credential.go:221-235 | What `SyncHeader` promises has exactly one solution |
| Lifecycle.FlagAndHeaderInStep | internal/pat/credential.go:178-184 | A valid credential has the FedRAMP header, and no other, exactly when its flag is set |
| Lifecycle.ValidExactly | internal/pat/credential.go:161-196 | What a complete credential is, with every marker, limit, header and forbidden field written out |
| Lifecycle.NewCredentialValidity | internal/pat/credential.go:70-85 | A new credential from a normal token and identity is valid exactly when the clock is not zero |
| Lifecycle.WithIdentityValidity | internal/pat/credential.go:198-210 | Applying an identity keeps validity exactly when the clock is not zero |
| Lifecycle.DisabledValidity | internal/pat/credential.go:212-219 | Disabling keeps validity exactly when the clock is not zero |
| Lifecycle.MarshalledIsOwnedAndValid | internal/pat/credential.go:161-196 | What is written for a valid credential is recognised as owned and decodes to a valid one |
| Lifecycle.StagingPayload | internal/pat/service.go:459-467 | The staging payload is the encoding of the same credential without its token and disabled |
| Lifecycle.StagingFields | internal/pat/service.go:459-467 | The staging payload has an empty token, the disabled flag, and every other field of the final one |
| Lifecycle.StagingIsNeverFinal | internal/pat/service.go:320-330 | The staging and the final payload are never equal payloads |
| Parser.TokenNeedsValidBoundFile | internal/pat/parser.go:10-38 | A parsed record bears a token exactly for a valid credential under a name that may hold it; enabled records bear the file's token; which files are declined |
| Parser.RecordShowsFile | internal/pat/credential.go:361-375 | A record with a token shows the file's own account, user, plan, token, flags and time under their names, for the codex provider and the trimmed file name |
| Parser.RecordShowsOptionalTexts | internal/pat/credential.go:374-397 | The optional texts are shown exactly when they are not empty |
| Parser.RecordShowsNothingElse | internal/pat/credential.go:380-400 | Headers and the websockets flag are shown when the file has them, and nothing else is |
| Parser.DisabledRecord | internal/pat/credential.go:434-452 | Every other handled file becomes the same bare disabled record |
| Parser.SavedFileParsesAsSaved | internal/pat/parser.go:10-38 | The saved bytes are accepted with the saved token and the saved disabled flag |
| Parser.StagingParsesDisabled | internal/pat/parser.go:21-26 | The staging payload is, under any name, a disabled record without a token |
| Decisions.RevalidationDecision | internal/pat/service.go:482-512 | A disabled credential is saved exactly on 401, 403 or another principal's identity, an enabled one exactly on the same principal's, nothing otherwise |
| Decisions.RevalidationDisables | internal/pat/service.go:487-505 | A rejected token is stored as "invalid" and answered so, another principal's identity as "account_mismatch"; only flag, state and time change |
| Decisions.RevalidationErrors | internal/pat/service.go:482-490 | Every other failure is handed on as it is, and an incomplete stored credential is refused first |
| Decisions.TargetExactly | internal/management/handler.go:127-144 | A stored credential is used exactly when the file is the plugin's, decodes and is named after its principal |
| Decisions.RevalidationKeepsPrincipal | internal/pat/service.go:482-512 | No outcome changes the principal or the token; the result is complete exactly when the clock is not zero |
| Decisions.RevalidationShowsIdentity | internal/pat/service.go:506-511 | A confirmed revalidation saves exactly the identity's data, enabled and marked "valid", with the header in step and every other field kept |
| Decisions.IdentitiesHashApart | internal/pat/whoami.go:189-206 | The 4 KiB field limit makes the hash inputs of two fetched identities equal exactly for one principal |
| Decisions.ImportDecision | internal/pat/service.go:112-123 | When an import saves, and exactly what: that token, that identity, enabled, nothing else |
| Resolver.ResolveFileName | internal/pat/service.go:349-446 | The resolution loop, for every map iteration order, returns what the set-based rule says |
| Resolver.CollectSamePrincipal | internal/pat/service.go:362-426 | The loop fails exactly on a refused file or a case clash, and otherwise has recorded exactly the principal's names |
| Resolver.InspectFile | internal/pat/service.go:403-425 | The chain of checks on one inspected file gives its verdict |
| Resolver.PickPreferred | internal/pat/service.go:428-434 | The preferred branch finds the recorded name equal up to case, or there is none |
| Resolver.ResolutionIgnoresOrder | internal/pat/service.go:362-445 | Order and repetition of the host's entries do not change success or the name |
| Resolver.ResolvedNameIsBound | internal/pat/service.go:403-445 | Whatever the host lists, a resolved name is bound to the principal being saved |
| ResolverLaws.ResolutionExactly | internal/pat/service.go:349-446 | For any answers of the host, a name is returned exactly when no entry fails alone, no two of the principal's names differ only by case, and it is the preferred one, the only one, or the free canonical one |
| ResolverLaws.SeveralFilesRefused | internal/pat/service.go:436-438 | Two files of the principal and none preferred: the resolution fails |
| ResolverLaws.CaseTwinsRefused | internal/pat/service.go:411-414 | Two files of the principal whose names differ only by case: it fails, whatever is preferred |
| ResolverLaws.BadFileRefuses | internal/pat/service.go:384-420 | One misnamed or broken plugin file of any principal, or one entry without a returned file or with an unsafe name, makes it fail |
| ResolverLaws.PreferredOrNothing | internal/pat/service.go:353-435 | A preferred name that is unsafe or not the principal's is never answered with another one |
| StoreProtocol.ResolutionClaims | internal/pat/service.go:349-446 | From a complete listing and files got one by one while the watcher and other software act, a resolved name is the principal's only file, or one under which nobody has a file, and no other name equals it up to case |
| StoreRuns.SoundDirectoryStarts | internal/management/handler.go:31-39 | Runs may start from every sound directory, the empty one included, with nobody inside a handler |
| StoreRuns.RunKeepsStore | internal/management/handler.go:96-144 | Over all interleavings, aborted saves, damaged files and files that become unreadable and readable again included, names stay bound, no principal has two files, readable or not, names stay distinct up to case, and only the mutex holder is inside a handler |
| StoreRuns.UnreadableFileBlocksSaves | internal/pat/service.go:418-425 | While a principal's file cannot be read, no request for the principal gets as far as a name to write, over every run in which nobody repairs, replaces or removes the file; it stays the principal's |
| StoreRuns.IdleMeansBlocked | internal/pat/service.go:418-425 | While no request is in progress that holds of every unreadable file of a principal |
| StoreRuns.UnreadableFileRefuses | internal/pat/service.go:418-425 | A resolution that got its principal's file unreadable, or not at all, is refused |
| StoreRuns.ForeignFilesUntouched | internal/pat/service.go:442-445 | A file that is nobody's, and that no request in progress is about to create or takes for its own, keeps its exact content over every run |
| StoreRuns.ChosenFileIsOverwritten | internal/pat/service.go:148-158 | Once a request has chosen the name of such a file, its next write changes the file |
| StoreRuns.IdleMeansUnseen | internal/pat/service.go:349-446 | While no request is in progress that holds of every file that is nobody's |
| StoreRuns.OtherPrincipalsUntouched | internal/pat/service.go:403-446 | A principal's file keeps its exact content over every run in which no request writes for that principal, whatever is saved for others |
| StoreRuns.NameIsStable | internal/pat/service.go:428-441 | Over every run that neither removes a principal's file nor makes it nobody's, also while it is unreadable, the file stays the principal's and every later save for it targets that name |
| StoreProtocol.ExistingNameIsReused | internal/pat/service.go:407-416 | A principal with a file is saved under that file's name unless the resolution refuses a file, whatever changes between listing and choosing |
| StoreProtocol.NewPrincipalGetsCanonicalName | internal/pat/service.go:442-445 | A principal without a file gets the canonical name unless it is taken or a file is refused |
| StoreRuns.PublicationIsRun | internal/pat/service.go:148-163 | The writes of any save, with any run of the watcher and other software before each of them, are steps of the directory protocol and leave the last one in the file |
| SaveInStore.SaveUnfolds | internal/pat/service.go:148-163 | A save changes the file by the host's installs and its own writes, in some order, and in no other way |
| SaveInStore.SaveIsRun | internal/pat/service.go:129-165 | For every environment that puts no other principal's credential under the resolved name, the directory goes through exactly the states of the file's history, by steps of the protocol whose own writes are the save's; no other file changes and the store stays sound |
| StoreProtocol.CollidingPrincipalIsRefused | internal/pat/service.go:421-425 | A principal whose hash is that of another principal's file is refused, for every digest |
| StoreRuns.LateFileIsOverwritten | internal/pat/service.go:148 | A run in which a file created under the name after resolution is overwritten by the staging write |
| Watcher.AwaitIsBounded | internal/pat/service.go:201-270 | Every wait polls at most floor(timeout / interval) + 2 times, after the defaulting of settings |
| Watcher.AwaitExtends | internal/pat/service.go:217-270 | A wait writes nothing but copies of its desired payload |
| WatcherLaws.DefaultSettings | internal/pat/service.go:201-213 | Unset durations are 5 s and 25 ms, a negative window is none |
| WatcherLaws.IndexForExactly | internal/pat/service.go:273-296 | The file's index is the one every indexed stored entry of its name has |
| WatcherLaws.OtherFlagNeverStable | internal/pat/service.go:171-189 | A host whose records always carry the other disabled flag never lets a wait succeed |
| WatcherLaws.OlderRecordNeverStable | internal/pat/service.go:171-189 | Nor does one whose records are always older than the file |
| WatcherLaws.UnlistedNeverStable | internal/pat/service.go:228-230 | Nor does one that never lists the file under one index |
| WatcherLaws.WaitWritesAfterInspection | internal/pat/service.go:217-227 | Every write of a wait follows a read of other content and an inspection that found the file regular |
| WatcherLaws.RefusedRepairBreaksWait | internal/pat/credential.go:526-538 | A repair is refused, and ends the wait unwritten, when the file has gone or is irregular or the write fails |
| WatcherLaws.PollBreaksExactly | internal/pat/service.go:217-247 | An iteration ends the wait with an error exactly when one of its file operations fails |
| WatcherLaws.EndingsExplained | internal/pat/service.go:258-269 | A wait goes on only before its deadline and while the caller waits, an interval later at the earliest; it times out only after the deadline and is cancelled only when the caller has cancelled |
| WatcherSafety.StableMeansSampled | internal/pat/service.go:191-271 | Every successful wait read wanted content twice under one modification time at least the configured window apart; from the first on every iteration read wanted content and every successful index lookup led to a record with the wanted flag that was not older; it ended at the first iteration a window past the first; nobody wrote in between exactly when that modification time does not come back |
| WatcherSafety.StableMeansUninterrupted | internal/pat/service.go:191-271 | With modification times fresh from the wait's start on, a successful wait means no write between the window's first and confirming stat, wanted content throughout, a span of the stable window, and a ready record at every successful lookup of that time, the last one under the one index the last listing gives that file |
| WatcherSafety.ObserveEvidence | internal/pat/service.go:228-256 | Every observation keeps the open window justified, and one with a failed index lookup leaves it exactly as it was |
| WatcherSafety.ForeignContentIsRepaired | internal/pat/service.go:222-227 | An iteration that reads other content writes the wanted one back and starts the window afresh |
| WatcherSafety.ReusedModTimeDefeatsSampling | internal/pat/service.go:234-247 | For every settings, an environment that reuses a modification time gets a wait to succeed across foreign content |
| WatcherProgress.SettledPoll | internal/pat/service.go:229-256 | While the host is settled, a poll succeeds exactly when it is a stable window past the first settled poll |
| WatcherProgress.SettledHostIsSeen | internal/pat/service.go:217-270 | From any point of a wait, a host that stays settled is noticed within one polling interval and ten actions of the window filling, unless the deadline is too near |
| LateSettling.WaitReachesSettling | internal/pat/service.go:217-270 | A wait whose host answers anything and writes any regular files up to a time, and writes none after it, succeeds or goes on from a loop head with the wanted content, repaired if need be |
| LateSettling.SettledWaitSucceeds | internal/pat/service.go:201-270 | A whole wait on a host that settles during it succeeds, in bounded time, if the window still fits before the deadline |
| LateSettling.SettlingIsSoon | internal/pat/service.go:217-270 | The loop head that finds the settled host comes within two iterations of the settling time |
| LateSettling.SettledIsNotYetSeen | internal/pat/service.go:231-239 | A poll a whole window after the host settled need not succeed |
| LateSettling.QuietWaitKeepsFile | internal/pat/service.go:217-270 | A wait on wanted content that nobody else writes leaves the file alone, however it ends |
| SaveProgress.MirroringIsReady | internal/pat/service.go:171-189 | A record that shows the parser's view of the staging or the final file has the wanted flag and is not older than the file |
| SaveProgress.MirroringSettles | internal/pat/service.go:171-189 | A host whose record comes to show the parser's view of the file settles, for the staging wait and for the final one |
| SaveProtocol.StagedPublication | internal/pat/service.go:140-164 | For every environment and failure point, one staging payload at most and then only final ones; with a runtime-capable host none of these before the staging wait succeeded, which ended with the file's own record disabled and not older than the file, and none if it failed |
| SaveProtocol.StagingWritesNoToken | internal/pat/service.go:144-157 | Up to the end of the staging wait the plugin has written at most the staging payload |
| SaveExits.RefusedBeforeSaving | internal/pat/service.go:133-139 | An incomplete credential or an unresolved name is refused before the host is asked anything |
| SaveExits.StoppedBeforeFinalWrite | internal/pat/service.go:148-157 | A host error, a reply under another name or a failed staging wait stops the save right there |
| SaveExits.InspectionGuardsFinalWrite | internal/pat/credential.go:518-540 | When the file is absent or irregular before the final write, or the write fails, the save ends without a token written |
| SaveExits.FinalWriteLands | internal/pat/service.go:158-164 | Otherwise the final payload is in the file and only the final wait decides |
| SaveExits.PlainHostSaves | internal/pat/service.go:171-175 | On a host without runtime records both waits are skipped, and the save succeeds exactly when the inspection before the final write passes |
| SaveProtocol.SavedMeansPublished | internal/pat/service.go:158-164 | A successful save left exactly the saved credential in the file for the stable window, parsed as its token and flag, and the last record asked for under that file's one index agreed |
| SaveProgress.CooperativeSaveSucceeds | internal/pat/service.go:129-165 | With a host that in each wait comes to mirror the file in time, whatever it answered and wrote before, every complete credential is saved; without later outside writes by exactly one staging and one final write |
| Service.UniqueIndex | internal/pat/service.go:278-295 | The loop returns the one index all matching entries share, and fails on none or two |
| Service.Service.ReadSecuredCredential | internal/pat/service.go:298-318 | Stat, then read, with the environment acting before each |
| Service.Service.RewriteSecuredCredential | internal/pat/credential.go:518-540 | Inspect, then replace, with the environment acting before each |
| Service.Service.PollOnce | internal/pat/service.go:217-256 | One iteration of the wait ends in the state and window the run function gives |
| Service.Service.AwaitWatcherState | internal/pat/service.go:191-271 | The polling loop ends as the wait function says, for every environment |
| Service.Service.SaveCredential | internal/pat/service.go:129-165 | The save ends with the exit and in the state the save function gives |
| Service.Service.Import | internal/pat/service.go:112-123 | An import changes nothing unless its plan is to save, and then is that save |
| Service.Service.Revalidate | internal/pat/service.go:482-512 | A revalidation changes nothing unless its plan is to save, and then is that save, under the given name |
| Management.Handler.HandleRevalidate | internal/management/handler.go:115-159 | A revalidation is tried exactly when the file is the plugin's own, decodes and is named after its principal, and asks for exactly that name; which requests are answered as not found; the lock is released on every exit |
| Management.Handler.HandleImport | internal/management/handler.go:88-105 | An import request is the service's import under the lock |
| Management.StatusForFile | internal/management/handler.go:182-261 | Which rows are disabled and which unavailable, from file, entry and runtime record; a row not disabled means the parser accepts the file as enabled; ready exactly for a settled update at least 250 ms old and not before the file |
| AtomicReplace.Directory.ReplaceFile0600 | internal/pat/permissions_unix.go:10-39 | Whichever step fails, the target is replaced completely or the directory is as before, and so is every state in between apart from the temporary file |
| AtomicReplace.CrashLeavesOldOrNew | internal/pat/permissions_unix.go:10-39 | After a crash at any step the target is the old entry or the complete synced private file, and every other entry is untouched |

## Left out

- JSON byte parsing and object key order: an object is a finite map, so repeated keys are not modelled, and neither are unknown keys that differ from a known one only by case, which Go's decoder would match.
- Unicode: strings are byte strings with ASCII case and white space; invalid UTF-8 is not modelled.
- URL parsing: whether the configured base URL is usable is a parameter of the identity request.
- Credentials.MarshalJSON: does not model the encoder's own errors, such as a year outside 0 to 9999.
- Parser.RecordShowsFile: does not cover the display label and the routing attributes of an auth record, which carry no token.
- RefreshAuth: a pass-through around the parser; left out because it would only add easy members.
- StoreRuns.RunKeepsStore: assumes a complete listing, as unregistered malformed files are invisible to the plugin, that a file is returned under its listed name with its content at that moment, and one reply per index; a watcher may make a file unreadable, give it other content of the same principal or make it nobody's, but not another principal's.
- StoreRuns.RunKeepsStore: while a request is in progress other software may create files that are nobody's, but no principal's file other than under the name the request has resolved to, and no case variant of a name the request may write; while none is in progress it may create a principal's first file, whole or half written, under a name bound to that principal.
- SaveInStore.SaveIsRun: what a reader finds behind an irregular file is taken for the file's content.
- LateSettling.SettledWaitSucceeds: before settling the host may write any regular file but does not remove the file, make it irregular or block the plugin's writes, any of which ends the wait.
- SaveProtocol.SavedMeansPublished: follows the one directory entry at the path the host returned; that the host saved into the same directory is not modelled.
- Watcher.AwaitIsBounded: each action of the host takes an arbitrary finite time; a host call that never returns is not modelled.
- Mutex fairness: a request that waits for the lock forever is not excluded.
- listStatuses sorting, response bodies, status codes, routes and registration: one-branch mappings.
- The C interface, buffer ownership, browser assets, the Windows replacement, release scripts and smoke runners.
