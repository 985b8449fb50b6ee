# Verified model of mid's agent client and code generators

`mid` is a Pulumi provider that drives remote machines through a small agent it installs over SSH.
This project models three parts of it in Dafny and proves what they are meant to keep:

- **The local half of the agent RPC system** (`agent/agent.go`). Any number of calls share one
  encoder and one decoder. Each call registers a channel of its own under a fresh UUID, writes one
  frame under a mutex and waits; a decoder loop starts one retrying deliverer for each answer; the
  heartbeat and any number of disconnects may stop everything at any time. `Rpc.dfy` is a step
  relation over all of it: one program counter for each goroutine, partial writes, the lock,
  closed channels, contexts and the remote. `RpcInvariants.dfy` and `RpcPreservation.dfy` hold what
  every step keeps, `RpcSpec.dfy` and `RpcRefinement.dfy` show that every run is a run of a
  specification without channels, locks or UUIDs, and `RpcTheorems.dfy` and `RpcRuns.dfy` state what
  follows for every reachable state and every run. `RpcProgress.dfy`, `RpcDelivery.dfy` and
  `RpcCompletion.dfy` say what the parts can always do by themselves, up to a whole round trip;
  `RpcShutdown.dfy` and `RpcHeartbeat.dfy` what a stop reaches and what the heartbeat makes of a ping.
  `Frames.dfy` is the byte stream, `Epochs.dfy` and `WaitRules.dfy` are the wait group over many
  connects, `Heartbeat.dfy` the timing.
- **Installing, staging and starting the agent** (same file). `Install.dfy` interleaves any number
  of installers on a small file system with inodes; `Retries.dfy` and `Staging.dfy` are the retry
  loops, over a reader and a remote file that change in place; `SessionCommand.dfy` builds the
  session's command line and reads it the way a shell does (POSIX.1-2017, XCU sections 2.2.2 and 2.3).
- **The code generators** (`hack/`). `OptionTypes.dfy` is the translator of option trees to Go types
  as a string builder, proved against a translation to Go types; `GoText.dfy` prints and parses that
  text, `OptionTheorems.dfy` says when translation fails and what its text gives back, and
  `OptionValues.dfy` which values the types hold. `Pascal.dfy` is the naming scheme and when two names
  collide, `ModuleFile.dfy` the enum and member loops of one module's file, `ModuleReadBack.dfy` what
  the members' text gives back, `ModuleNames.dfy` the names that file declares. `Binaries.dfy` is the
  generator of the agent-binary switch, and `GoLookup.dfy` a reader of such files and what they mean.

`Strings.dfy` and `Wrappers.dfy` hold what several parts share.

Concurrent code is modelled by steps and program counters on values: `Try` gives the state after a
step, `Run` after a sequence of steps, and a theorem about `Run` is a theorem about every
interleaving. Loops that the source runs one after another are methods with loops.

Assumptions. UUIDs are fresh and hold no double quote. JSON text holds no raw newline. The JSON
encoder remembers a write error. A channel rendezvous, a map operation, a mutex operation and a
POSIX rename are atomic. The remote reads whole frames and answers only what it has read, any number
of times and in any order; it may also send results without a UUID. The cast of an answer keeps its
UUID and may fail.

Results that are not what one would expect of the code:

- `StageFile` does not rewind its reader: after failed copies the staged file lacks what they took
  (`Staging.StagedIsTheRest`).
- The session command is read as intended only if no passed entry holds a single quote and, under
  `sudo`, no key holds a character the shell treats specially (`SessionCommand.CommandIsReadAsIntended`);
  a comma in a key splits it in the preserve list (`SessionCommand.ListNamesTheKeys`).
- Identifiers of different modules collide whenever their words run together are the same, and a
  word that starts with a digit hides the underscore before it (`Pascal.IdentifiersCollide`,
  `Pascal.DigitsHideUnderscores`).
- A type's text is Go and gives names, JSON keys and flags back only if each key in it is made of
  letters, digits, underscores and separators other than quotes of any kind and commas, its first
  letter or digit is a letter, and no two keys of one struct have the same words
  (`OptionTheorems.TextIsReadBack`). So keys like `2fa`, `-` or `it's`, and pairs like `a-b` and `a_b`,
  are lost (`OptionTheorems.NumberedKeyIsLost`, `OptionTheorems.NamelessKeyIsLost`,
  `OptionTheorems.UnreadableKeyIsLost`, `OptionTheorems.CollidingKeysAreLost`). A required option whose
  key has `omitempty` after a comma is left out when empty (`OptionTheorems.RequiredMemberOmits`), and
  a back-quoted brace in a key closes the struct (`OptionTheorems.TickedBraceUnbalances`).
- An option with choices called `name`, `parameters` or `return` clashes with a name its own file
  always declares (`ModuleNames.OwnNameClashes`).
- A list of dicts is a struct or a map, not a slice, so that its type holds no list; otherwise types
  hold exactly the documented values (`OptionValues.TranslationHoldsIff`). A list with choices gets the
  type of one element (`OptionValues.ListWithChoices`).
- The parameters of a module are given back under the same conditions as a struct of its options, with
  the names of enums made of module and key (`ModuleReadBack.ParametersAreReadBack`).
- What the `contains` of dicts of dicts hold can be taken out of a whole tree without changing what is
  generated (`OptionTheorems.ContentsAreDiscarded`).
- `Connect` itself does not keep the wait group sound. It is sound, whenever the decoder loops end, if
  and only if a waiting `Disconnect` has seen the group empty between the start of each loop and the
  next replacement of the group (`WaitRules.SoundIffWaited`); a wait that overlaps a connect does not
  count (`Epochs.OverlappingWaitIsNotEnough`). A connect whose ping fails leaves `Running` set
  (`Epochs.FailedPingLeavesRunning`).
- The deliverer's back-off is in nanoseconds, so giving up takes 10 s and 45 ns
  (`RpcTheorems.DeliverersEnd`).
- The agent-binary generator writes a file that does not compile for some lists of distinct names
  with underscores (`Binaries.CompilesIff`, `Binaries.UnderscoresClash`).

## Model

| member | source | states |
|---|---|---|
| RpcRuns.SystemRefinesSpec | agent/agent.go:676-800 | every interleaving of calls, decoder loop, deliverers, disconnects and heartbeat is a run of a specification in which calls open, the remote takes frames and answers them, and calls end: element i of the trace is what the state after i steps means. That answers do arrive is RpcDelivery.AnswersArrive and RpcCompletion.CallsComplete |
| RpcRefinement.RunRefines | agent/agent.go:80-257 | a run from any good state is a specification run whose elements are the meanings of its states, prefix by prefix |
| RpcRefinement.GoodStep | agent/agent.go:80-257 | each step of any goroutine keeps the invariant and is one specification step or none |
| RpcSpec.EndsOnce | agent/agent.go:738-772 | in every specification run a call that is over stays over with the same end: an encode error, a context error, a shutdown notice after a stop, an answer to its own frame, or nothing after `Close` |
| RpcPreservation.StepKeeps | agent/agent.go:80-348 | every step keeps the fourteen-part invariant on registry, lock, wire, remote, answers, senders, outcomes, patience and shutdown |
| RpcPreservation.RunKeeps | agent/agent.go:80-348 | so does every run, of any length with any number of goroutines |
| RpcTheorems.AnswersAreNotCrossed | agent/agent.go:143-157 | a call that ends with an answer got one the remote produced, after reading that very call's whole frame, and no other call has its UUID |
| RpcTheorems.AnswersAreKnown | agent/agent.go:726-733 | every UUID in a whole frame, in the remote, on its way back, in the decoder loop's hand or in a sender's is a key of `InFlight` |
| RpcTheorems.NotFoundIsUnreachable | agent/agent.go:144-148 | a deliverer with a UUID always finds the channel of the call that drew it, so the not-found branch is never taken |
| RpcTheorems.WireIsFrames | agent/agent.go:729-746 | the stream, cut at newlines, is whole frames of different calls and at most one unfinished one, of the lock holder or of the call whose write failed; every call past the encode step has its frame there |
| Frames.EncodeIsLine | agent/rpc/rpc.go:22-26 | a call's frame is exactly one line, and a reader finds the call's UUID in it |
| Frames.DecodeInvertsEncode | agent/rpc/rpc.go:22-26 | decoding a frame, by a reader that looks for the three members by name, gives UUID, function and arguments back, if the function's name holds no double quote |
| Frames.FramesAreDistinct | agent/rpc/rpc.go:22-26 | so different requests have different frames |
| RpcTheorems.RemoteReadsTheCalls | agent/agent.go:731-733 | each line the remote has read decodes to the very request of the call that wrote it |
| Frames.CutRecoversLines | agent/agent.go:587-588 | cutting a stream of frames and a rest without newline gives back the frames and the rest |
| RpcTheorems.ShutdownIsComplete | agent/agent.go:194-218 | past the notify loop of a waiting `Disconnect` with its context not done, every call in its snapshot took a message or closed its channel, so a call still waiting registered later |
| RpcDelivery.AnswersArrive | agent/agent.go:88-180 | in any reached state with the agent running and the loop at its test or decoding, any message on its way back to a waiting call can be brought to it by steps of the loop and of deliverers alone, with no decode error, timeout or ended context; the call takes that very message, and no error was put into it |
| RpcDelivery.ResultsAreDelivered | agent/agent.go:92-122 | in every run the results decoded without error are, in order, the messages of the deliverers started for them, plus the one the loop has in hand |
| RpcDelivery.FaultyAnswersArrive | agent/agent.go:107-120 | a result that decodes with an error, but whose UUID could be read, can be brought with the error in it to the waiting call it is for |
| RpcCompletion.CallsGetThrough | agent/agent.go:726-757 | a call that has not been refused, with no write failed, gets its whole frame on the wire by its own steps and those of the holder of the lock; a `Close` then ends, and any other call comes to its select |
| RpcCompletion.CallsComplete | agent/agent.go:676-800 | from any reached state with the agent running, the loop taking results and no write failed, any such call but a `Close` can come to its end with any answer whatever of the remote's, by steps of calls, remote, loop and deliverers without error, timeout or ended context |
| RpcShutdown.DisconnectsClose | agent/agent.go:185-192 | a `Disconnect` that has got to its notify loop has seen a `Close` call end, whose frame stands whole on the wire unless the encoder failed |
| RpcShutdown.RegisteredCallsAreServed | agent/agent.go:194-205 | every call registered before a waiting `Disconnect` ranges over `InFlight` has taken a message or closed its channel once that is past its notify loop with its context not done |
| RpcShutdown.EveryCallIsNoticed | agent/agent.go:206-217 | for every call registered before it ranges, a `Disconnect` that does not wait has started a notifier |
| RpcShutdown.NotifiersGiveUp | agent/agent.go:206-217 | a notifier that gives up has blocked for exactly one second |
| RpcShutdown.WaitSeesTheLoopReturn | agent/agent.go:230-240 | a waiting `Disconnect` that finished with its context not done left the decoder loop returned |
| RpcShutdown.LoopLeavesOnlyStopped | agent/agent.go:88-105 | the decoder loop never leaves a running agent behind |
| RpcShutdown.EndOfStreamStops | agent/agent.go:95-105 | a loop that met the end of the stream returns if the agent was stopped, and else starts a `Disconnect` that does not wait |
| RpcShutdown.EndOfStreamIsFinal | agent/agent.go:95-105 | after the end of the stream the loop starts no more deliverers and never decodes again |
| RpcRuns.CallsAreBounded | agent/agent.go:726-773 | in a run of any length one call takes fewer steps of its own than its frame has bytes and eight, and nobody else's step takes it further from its end |
| RpcProgress.CallsSettle | agent/agent.go:726-773 | any call comes to its select or its end by its own steps and those of the holder of the lock, no more than the two have left; a `Close` comes to its end |
| RpcProgress.NotifyNeverDeadlocks | agent/agent.go:194-205 | wherever a waiting `Disconnect` is stuck on a call, a run of calls' own steps, without answer, timeout or chosen failure and no longer than that call and the holder of the lock have left, leads to where its send goes through |
| RpcTheorems.DeliverersStop | agent/agent.go:143-179 | a deliverer always has a step to take, and each lowers a measure of at most 20 |
| RpcRuns.DeliverersAreBounded | agent/agent.go:122-180 | in a run of any length one deliverer takes at most 20 steps |
| RpcTheorems.DeliverersEnd | agent/agent.go:155-178 | a stopped deliverer gave its own message to its call, hit its call's closed channel, or gave up after ten attempts and exactly 10 s and 45 ns; none blocks longer |
| RpcRuns.MessagesAreConserved | agent/agent.go:155-163 | any run keeps the number of sends that went through equal to the number of calls that took a message |
| RpcRuns.EverySendIsOneReceive | agent/agent.go:759-763 | in every reachable state sends that went through and calls that took a message are in bijection, each call with the message of its sender |
| RpcRuns.StopIsFinalAndDrains | agent/agent.go:88-122 | once cleared `Running` stays clear within the epoch; after that at most one more deliverer is started, only if the loop was decoding or past its last check with a result in hand, and at most one more ping, only if the last check was passed |
| RpcProgress.DecoderNeverWaitsOnItself | agent/agent.go:100-104 | wherever the decoder loop's own `Disconnect` stands, its steps, those of its `Close` call and of the holder of the lock finish it without a step of the loop, the remote or a deliverer, and then the loop can return |
| RpcProgress.HeartNeverWaitsOnItself | agent/agent.go:314-322 | wherever the heartbeat's own `Disconnect` stands, its steps, those of its `Close` call and of the holder of the lock finish it without a step of the loop, the remote or a deliverer, and then the heartbeat can stop; which pings make it start one is RpcHeartbeat.VerdictIff |
| RpcHeartbeat.VerdictIff | agent/agent.go:309-327 | in every reached state with the agent running, a judged ping lets the heartbeat sleep if and only if the result has no error and the ping's call took, decoded and cast an answer the remote produced; otherwise a `Disconnect` is started |
| RpcHeartbeat.PingsWereAnswered | agent/agent.go:288-327 | over runs: every ping but the last was so answered, and the last too while the heartbeat sleeps or is about to ping again |
| RpcHeartbeat.PingsAsk | agent/agent.go:260-273 | every ping a run starts is an `AgentPing` call |
| RpcHeartbeat.HeartBeatsOn | agent/agent.go:329-348 | while the agent runs, a heartbeat that is not busy with a ping comes to its next `AgentPing` call by at most five steps of its own |
| RpcHeartbeat.PingsAreJudged | agent/agent.go:300-303 | a ping returns exactly when its call has ended, and is judged next |
| Epochs.LoopsMatchTransitions | agent/agent.go:487-502 | concurrent connects start one decoder loop for each time `Running` is set, the last of which may be on its way |
| Epochs.EpochsNeedStops | agent/agent.go:500-503 | connecting a running agent starts nothing: `Running` is set and a loop started at most once more than there were stops, however many connect |
| Epochs.DrainedIff | agent/agent.go:230-240 | a `Disconnect` has returned drained exactly if its wait has seen the group empty |
| Epochs.DisconnectsReturn | agent/agent.go:230-242 | in every run a `Disconnect` that does not wait has returned, and one that waits can return exactly while the group is empty, or give up |
| Epochs.ConnectsReport | agent/agent.go:500-672 | a connect comes to report success exactly by finding the agent running or by its ping |
| WaitRules.SoundIffWaited | agent/agent.go:230-240 | whatever connects and disconnects do, the wait group counts the live decoder loops and stays zero or one in every run in which they do so far the same, if and only if a wait has returned between the start of each loop and the next replacement of the group |
| WaitRules.UnwaitedGoesNegative | agent/agent.go:649-655 | a run that does not keep that rule has a like, with the same connects and disconnects so far, in which the group goes to -1 |
| WaitRules.WaitDrains | agent/agent.go:230-240 | while the rule is kept a wait returns only with no loop live and none raised; and none is on its way unless a connect stands between setting `Running` and raising the group |
| WaitRules.WaitBeforeConnecting | agent/agent.go:487-502 | it is enough that no connect takes the mutex before a wait that returned after the last loop was started |
| Epochs.OverlappingWaitIsNotEnough | agent/agent.go:651-655 | a run from the start in which a wait returns inside a connect, between replacing and raising the group: the next connect replaces the group under a live loop, and the count goes to -1 |
| Epochs.UndrainedReconnectGoesNegative | agent/agent.go:651-652 | whenever a connect replaces the group while an old loop lives, that loop ending next takes the counter to -1 |
| Epochs.FailedPingLeavesRunning | agent/agent.go:660-665 | a connect whose ping fails leaves `Running` set and its loop alive, and the next connect returns without error or new loop |
| Heartbeat.RunHeartbeat | agent/agent.go:329-348 | no ping is started once a check finds `Running` clear; each ping starts at the last start plus the longer of the interval and the ping, which an error of `Encode` ends at once; the loop stops at the first ping that fails or finds `Running` clear, and clears it in the first case |
| Heartbeat.PingsAreSpaced | agent/agent.go:338-346 | while pings are answered, ping k starts exactly k intervals after the first |
| Heartbeat.KeptIff | agent/agent.go:284-348 | a healthy agent is kept: the loop still goes after all rounds, having pinged every sixty seconds in each, if and only if none was found stopped or cleared and in each the ping was sent and cleanly answered in less than sixty seconds |
| Heartbeat.SilenceIsNoticed | agent/agent.go:284-327 | if the ping after the one at s gets no answer, `Running` is clear at s plus two intervals, k + 2 intervals after the first ping; sooner if `Encode` fails, and later only by what it outlasts its interval |
| Heartbeat.WatchdogIsFed | agent/rpc/server/server.go:23-37 | as long as the local side counts its pings as answered, the remote's two-minute watchdog never fires, wherever in its round each ping arrived |
| Heartbeat.WatchdogFiresIff | agent/rpc/server/server.go:30 | once no more pings arrive, the watchdog fires exactly when more than two minutes have passed since the last |
| Install.StepKeeps | agent/agent.go:387-459 | every operation of every installer, down to partial writes and crashes, keeps files private, hidden until renamed, and the agent path whole |
| Install.InstallIsAtomic | agent/agent.go:428-463 | whatever the interleaving, `.mid/mid-agent` is absent only if it always was, and else holds its old content or one installer's complete binary, executable once that installer's chmod is done |
| Install.InstalledStays | agent/agent.go:452-459 | once one installer has renamed its file, a complete binary is in place for good |
| Install.LockIsGivenBack | agent/agent.go:387-392 | when no installer crashed and all that touched the lock file have returned, in whatever interleaving and with errors or without, no lock file is left, unless none of them touched the one of the start |
| Install.ReturnedHasUnlocked | agent/agent.go:392 | an installer that is out although it had touched the lock file has run its deferred unlock, or crashed |
| Install.InstallSucceeds | agent/agent.go:384-463 | whatever was there before, an installation in which nothing fails puts its binary in place, executable, and leaves neither temporary file nor lock; nothing else stored is changed |
| Retries.TrimSpaceCuts | agent/agent.go:530 | trimming takes white space off both ends and nothing else |
| Retries.TrimSpaceInverts | agent/agent.go:397 | white space put around a text that neither starts nor ends with any is trimmed again |
| Retries.FreeIff | agent/agent.go:528-530 | a check without an error says that the lock is there exactly if it prints a zero with nothing but white space around it; `0` and a newline does, `1` and a newline does not |
| Retries.AwaitInstallLock | agent/agent.go:520-543 | at most 10 checks, 5n(n-1) s slept after n failed ones, left normally exactly at the first error-free check that reports no lock |
| Retries.RunWithRetries | agent/agent.go:808-837 | at most 9 attempts, 5n(n+1) s slept after n failures, no error exactly if the last attempt succeeded, which is the first that does |
| Retries.SleptIs | agent/agent.go:830-835 | n failures sleep 5n(n+1) s |
| Staging.TakenIsSlice | agent/agent.go:918 | what n attempts take, one after another, is one unbroken slice of the reader's content |
| Staging.StagedIsTheRest | agent/agent.go:911-925 | each attempt truncates the file and copies from wherever the reader stands, so what failed attempts took followed by what was staged is what the reader had to give, and the staged file is whole exactly when they took nothing |
| Staging.TakenNothing | agent/agent.go:911-918 | failed attempts took nothing exactly when the reader was at its end or each failed to open the file or failed before reading |
| Staging.LeftBehind | agent/agent.go:911-918 | a failed attempt leaves the remote file as it was, if it could not open it, or else with the front of what that attempt took, as far as it landed, and nothing of an earlier one |
| Staging.StagingPaths | agent/agent.go:858 | the path is in the staging directory and in small letters, and equal paths come of UUIDs equal but for case |
| Staging.CopyWithRetries | agent/agent.go:901-945 | the copy loop: conservation on success, no successful attempt on error, at most 9 attempts and 450 s |
| Staging.StageFile | agent/agent.go:802-949 | exactly when staging fails, the path it returns in each case, the staged content, and at most 1170 s slept |
| SessionCommand.BuildSessionCommand | agent/agent.go:600-637 | the loops build `env`, each passed entry in quotes with the instance UUID last, `sudo` and the preserve list unless already root, and the agent |
| SessionCommand.ContainsIff | agent/agent.go:600-603 | whether `id` reports root: exactly if the text looked for stands somewhere in its output |
| SessionCommand.RemoteEnvironment | agent/agent.go:605-612 | what the entries give the remote agent, taken one after the other: its instance is the one named here whatever the local environment says, the other variables with the prefix have their local values, and no others are passed |
| SessionCommand.CommandIsReadAsIntended | agent/agent.go:616-637 | a shell reads the command as exactly those words if and only if no entry holds a single quote and, under `sudo`, no key holds a blank or special character |
| SessionCommand.ListNamesTheKeys | agent/agent.go:628-633 | splitting the preserve list at commas gives the keys and one empty piece exactly when no key holds a comma |
| SessionCommand.KeyOfIsPrefix | agent/agent.go:630-631 | a key is the entry up to its first equals sign |
| Pascal.PascalIsHomomorphic | hack/generate-ansible-types.py:22-28 | the identifier of two names joined by an underscore is the identifiers of both, joined |
| Pascal.NoSeparators | hack/generate-ansible-types.py:24 | an identifier holds none of the separator characters |
| Pascal.SeparatorsAre | hack/generate-ansible-types.py:24 | the separators are exactly the printable ASCII characters that identifiers do not have, but for the backslash |
| Pascal.IdentifierIsCore | hack/generate-ansible-types.py:22-28 | an identifier is its name without underscores and separators, case aside |
| Pascal.IdentifierIsGoIff | hack/generate-ansible-types.py:22-28 | a name gives a Go identifier that starts with a capital exactly when it is made of letters, digits, underscores and separators and the first that is neither of the last two is a letter |
| Pascal.NameIsRecovered | hack/generate-ansible-types.py:22-28 | splitting an identifier at its capitals recovers the name's words, each word that shows no capital glued to the one before |
| Pascal.CollisionIffSameWords | hack/generate-ansible-types.py:22-28 | two names get one identifier exactly when their words, so glued, are the same |
| Pascal.IdentifiersCollide | hack/generate-ansible-types.py:243-258 | two identifiers of module, option and choice are equal exactly when the words of their parts, run together, are |
| Pascal.LetteredIdentifiersCollide | hack/generate-ansible-types.py:243-258 | when every word starts with a lower-case letter: exactly when the concatenated word lists are equal |
| Pascal.ModuleBoundaryIsForgotten | agent/ansible/docker_compose_v2.go:64 | an option's choice has the identifier of that choice taken as an option of the module named after both, which the choice-key map avoids |
| Pascal.DigitsHideUnderscores | hack/generate-ansible-types.py:28 | a word that does not start with a letter hides the underscore before it: different words, one identifier |
| GoText.ParseIsSound | hack/generate-ansible-types.py:94-109 | what the type parser reads, with distinct exported names in each struct and tags as raw literals ending at the first back quote, is printed back to the very text it read, and is clean |
| GoText.CleanIsRead | hack/generate-ansible-types.py:94-109 | every clean type is read back from its text, whatever follows it |
| GoText.ReadBackIffClean | hack/generate-ansible-types.py:94-109 | exactly the clean types are read back: scalars known, field names exported identifiers and distinct in each struct, tags as they stand |
| GoText.LexesAsMeantIff | hack/generate-ansible-types.py:94-109 | scanned as Go does, a type's text leaves the brace depth as it was, at every depth, and its literals are exactly its tags, if and only if no tag holds a back quote |
| OptionTypes.AddMember | hack/generate-ansible-types.py:95-107 | one pass of a member loop adds exactly one struct member's text, or raises its type's error |
| OptionTypes.StructType | hack/generate-ansible-types.py:94-109 | a member loop yields the struct's text, or the first error among its members |
| OptionTypes.CompositeType | hack/generate-ansible-types.py:80-160 | the string builder yields the text of the option's translation, or its error, on every finite option tree |
| OptionValues.ScalarHolds | hack/generate-ansible-types.py:57-77 | each scalar type's Go type holds exactly the JSON values of that type, and the types without one are `dict`, `complex` and unknown ones |
| OptionValues.TranslationHoldsIff | hack/generate-ansible-types.py:80-160 | the generated type holds exactly the values the option is documented to have, list elements and members at every depth included, if and only if no option shown is a list of dicts |
| OptionValues.EnumHolds | hack/generate-ansible-types.py:238-245 | the type declared for an option with choices holds the values of its elements, if it says what they are, and else the option's own |
| OptionValues.ListWithChoices | hack/generate-ansible-types.py:238-245 | so the type of a list with choices that says what its elements are holds lists only if these may be lists |
| OptionTheorems.FirstErrorIsRaised | hack/generate-ansible-types.py:57-160 | the error raised is that of the first visited option that has one of its own, the discarded contents included |
| OptionTheorems.FailsIffSomeVisitedIsBad | hack/generate-ansible-types.py:57-160 | translation fails exactly when some visited option has an unsupported scalar, list element or dict element, or lacks `contains` |
| OptionTheorems.ContentsAreDiscarded | hack/generate-ansible-types.py:113-142 | taking the `contains` out of all dicts of dicts of a tree, at every depth, leaves what is generated as it is, if anything is |
| OptionTheorems.TranslationMirrors | hack/generate-ansible-types.py:80-160 | the Go type has the option's members in order with their names, tags, pointer flags and nested types; and Go reads the JSON keys and omitempty flags out of it exactly when every shown key is a JSON name, or its member's own name, and none is a required `-` |
| OptionTheorems.FlagsAgreeIff | hack/generate-ansible-types.py:96-107 | `*` is there exactly when the option is not required, and `omitempty` exactly when `*` is, unless the option is required and its key has `omitempty` after a comma |
| OptionTheorems.RequiredMemberOmits | hack/generate-ansible-types.py:103-107 | every such key does: no pointer, and yet `omitempty` |
| OptionTheorems.TextIsReadBack | hack/generate-ansible-types.py:80-160 | the emitted text is a Go type that gives back the members' order, names, JSON keys, flags and nested types if and only if every key shown in it is made of letters, digits, underscores and separators other than quotes and commas, its first letter or digit is a letter, and no two keys of one struct have the same words |
| OptionTheorems.UnreadableKeyIsLost | hack/generate-ansible-types.py:98-107 | any quote, comma, or character that is no letter, digit, underscore or separator, anywhere in a key loses it |
| OptionTheorems.KeyReadsBackIff | hack/generate-ansible-types.py:98-107 | a struct of one required string is read back exactly when its key is such a key |
| OptionTheorems.NumberedKeyIsLost | hack/generate-ansible-types.py:98 | every key that starts with a digit is lost: its member's name is no identifier |
| OptionTheorems.NamelessKeyIsLost | hack/generate-ansible-types.py:98 | so is every key of underscores and separators only, whose member has no name |
| OptionTheorems.CollidingKeysAreLost | hack/generate-ansible-types.py:95-98 | and so is any option with two shown keys of the same identifier in one struct |
| OptionTheorems.TextBalances | hack/generate-ansible-types.py:94-109 | scanned as Go does, the emitted text's braces balance at every depth and its raw literals are exactly the members' tags, if and only if no shown key holds a back quote |
| OptionTheorems.TickedBraceUnbalances | hack/generate-ansible-types.py:103-107 | a closing brace between back quotes in a key is scanned as one, and the braces do not balance |
| ModuleFile.EmitConsts | hack/generate-ansible-types.py:247-260 | the choice loop declares the constants of the specification, or fails at the first choice missing from the map |
| ModuleFile.EntryDeclares | hack/generate-ansible-types.py:234-291 | an option declares one type if it becomes an enum and none otherwise, and all constants and helpers it declares are of that type |
| ModuleFile.EnumDeclares | hack/generate-ansible-types.py:245-291 | an enum option declares its type, then a constant for each choice in order, and a helper exactly if it is not required |
| ModuleFile.EntryFailsIff | hack/generate-ansible-types.py:234-337 | an option's declarations and member both succeed exactly when it is described, has a type if it has choices, and as a list no default but a list of strings, a scalar type and complete map if it becomes an enum, and no bad option below it if not |
| ModuleFile.EmitDecls | hack/generate-ansible-types.py:233-291 | the enum loop over all options |
| ModuleFile.CheckDefault | hack/generate-ansible-types.py:299-318 | what making the comment on a default raises: only for a list with choices, whose default is no list or has an item that is no string |
| ModuleFile.AddParam | hack/generate-ansible-types.py:297-337 | one pass of the parameters loop adds exactly one member's text, or raises its error; what the members' texts give back is ModuleReadBack.ParametersAreReadBack |
| ModuleFile.EmitParams | hack/generate-ansible-types.py:296-338 | the parameters loop yields the members' texts in order, or the first error |
| ModuleReadBack.ParametersAreReadBack | hack/generate-ansible-types.py:296-338 | read as a Go struct by a parser of its own, the members' text gives the options back in order, each with its name and JSON key, `*` and `omitempty` exactly if it is not required, and as its type the option's own enum or a type that mirrors it, if and only if no two keys have the same words, each key can be read back, and so can the name of each enum and each other option |
| ModuleReadBack.ParamsAreSound | hack/generate-ansible-types.py:319-338 | what the parser reads is printed back to the very text it read, and is clean |
| ModuleReadBack.ParamsAreRead | hack/generate-ansible-types.py:319-338 | the parser reads all clean members back |
| ModuleFile.ConstsFailIff | hack/generate-ansible-types.py:248-251 | declaring the constants fails exactly when a choice-key map leaves a choice out |
| ModuleFile.ConstsAreChoices | hack/generate-ansible-types.py:247-260 | the constants are the choices in order, each with its own value and an identifier made of the type and the choice |
| ModuleFile.ReferencesAreDeclared | hack/generate-ansible-types.py:329-332 | the parameters refer to exactly the enum types the file declares, in that order, and every constant and helper is of a declared type |
| ModuleFile.ModuleFailsIff | hack/generate-ansible-types.py:233-338 | both loops succeed exactly when that holds of every option |
| ModuleFile.ConstIdentifier | hack/generate-ansible-types.py:251-255 | without a choice-key map a constant's identifier is that of its module, option and choice |
| ModuleFile.ConstMeetsType | agent/ansible/docker_compose_v2_pull.go:18 | a constant collides with another module's type exactly when their words, run together, are the same |
| ModuleFile.MappedConst | hack/generate-ansible-types.py:248-249 | with a choice-key map a constant's name is that of its type followed by what the map has for its choice |
| ModuleFile.ConstsCollideIff | hack/generate-ansible-types.py:247-255 | two constants of one option have the same name exactly when the map has the same for their choices or, without a map, when the choices have the same glued words |
| ModuleFile.MappedConstMeetsType | agent/ansible/docker_compose_v2.go:64 | a mapped constant meets another module's type exactly when what the map has is all that the type's name has after the name of the constant's own type |
| ModuleNames.FileNamesDistinctIff | hack/generate-ansible-types.py:232-364 | without choice-key maps, all names a file declares, its own four included, are distinct exactly when no two have the same words run together |
| ModuleNames.OwnNameClashes | hack/generate-ansible-types.py:245 | an option with choices whose identifier is one of the file's own suffixes makes the file declare a name twice |
| Binaries.Combine | hack/generate-agent-binaries.py:46-49 | the nested loops list the pairs to build, system by system |
| Binaries.CombinationsAreProduct | hack/generate-agent-binaries.py:46-49 | a pair is built exactly when its system and its architecture are both listed |
| Binaries.WriteEmbeds | hack/generate-agent-binaries.py:67-75 | the embed loop declares every pair's file and variable |
| Binaries.WriteCases | hack/generate-agent-binaries.py:89-95 | the inner loop writes one case for each architecture |
| Binaries.WriteSwitch | hack/generate-agent-binaries.py:82-102 | the outer loop writes one inner switch for each system; what the written function answers is Binaries.SwitchIsMembership |
| Binaries.Generate | hack/generate-agent-binaries.py:45-111 | builds the pairs and writes the file, and an empty product is an error before anything is written; what the file means is Binaries.FileIsRead and Binaries.BinariesAreFetched |
| Binaries.FileIsRead | hack/generate-agent-binaries.py:54-111 | a reader with literals of its own takes the written file exactly when all names are word characters; it then is of package `agent`, imports what it uses, embeds a file for every pair and has a function of system and architecture that switches over the two lists |
| Binaries.SwitchIsMembership | hack/generate-agent-binaries.py:76-111 | called with a system and an architecture, in this order, the function as read out of the text returns the pair's own variable exactly when both are listed, else an error that names the system exactly if that is not listed, and else the architecture |
| Binaries.BinariesAreFetched | hack/generate-agent-binaries.py:20-111 | if the file compiles, a call returns the contents of the very file that was built for its system and architecture exactly when both are listed, and else the error |
| Binaries.FileNamesAreDistinct | hack/generate-agent-binaries.py:27 | different pairs are built into different files |
| Binaries.ReturnedAreDeclared | hack/generate-agent-binaries.py:69-93 | the variables it can return are exactly those declared, and the files embedded exactly those built |
| Binaries.VariablesCollideIff | hack/generate-agent-binaries.py:72 | two pairs share a variable exactly when they are the same or an underscore can be read on either side |
| Binaries.CompilesIff | hack/generate-agent-binaries.py:67-102 | the file uses only names it declares or imports, and has no repeated case or variable exactly when both lists are distinct and no listed names clash over an underscore |
| Binaries.UnderscoresClash | hack/generate-agent-binaries.py:72 | for all words a, w and d: systems a and a_w with architectures d and w_d give a file that is read but does not compile |
| Binaries.AcceptedMachinesHaveBinaries | agent/agent.go:394-418 | the shipped lists give a file that compiles, and of every machine the installer accepts the function returns the binary built for the architecture whose kernels print that machine name |
| Binaries.TargetIsMachine | agent/agent.go:394-408 | the installer asks for a pair exactly if it is a shipped one and the output, trimmed, is the machine name of that architecture |
| Binaries.ShippedBinariesAreUsed | agent/agent.go:394-408 | every shipped architecture is asked for when its machine name is printed in a line of its own |

## Left out

- Logging, tracing and telemetry: they do not change protocol state.
- SSH, SFTP and JSON internals: a frame's JSON is its three fields in order, and its arguments are opaque text without newlines; SFTP writes land in order.
- The goroutines as objects that share fields in place: they are steps on values, so aliasing and memory order between atomic operations are not captured.
- `uuid.NewRandom` failing inside `Call`, `EnsureUUID` and the nil-channel branch of the deliverer: the first two end a call before it has any state, and no nil channel is ever stored.
- What `Disconnect` returns, and closing the session and the client: the model keeps their effect on the decoder, which is that its next read may fail.
- The remote's side of the RPC system beyond reading frames, answering them and its heartbeat watchdog, and the RPC functions themselves.
- WaitRules.SoundIffWaited: a waiter parked on a group that is then replaced may still return in the model when the new group is empty, where Go may leave it parked; and the panic of reusing a group while a wait is returning is not modelled.
- A heartbeat loop or a call that survives into a later epoch, and calls that find the old epoch's `InFlight`: the code promises nothing there. The RPC model covers one epoch; `Epochs.dfy` and `WaitRules.dfy` cover the wait group over many.
- The order in which the two sides of a `select` that are both ready are tried: an answer that arrives exactly at the deadline counts as late in `Heartbeat.dfy`, and either may happen in `Rpc.dfy`.
- The version check that decides whether to install, `uname` failing, and `mkdir -p .mid`: they only lead to the installer or to an error.
- The operator, expansion and comment rules of the shell: text that would need them counts as not read literally. Blanks between words are spaces and tabs.
- ModuleNames.FileNamesDistinctIff: speaks of files without choice-key maps, because a mapped choice's part of a name is any text and has no words.
- Letters outside ASCII: in the naming scheme, in identifiers and in JSON names they count as no letters.
- Loading YAML, merging documentation fragments, process pools, running `go build`, and opening and writing files.
- The text of the enum declarations, as opposed to what they declare, of comments, of defaults that JSON cannot show, the returns struct and the fixed text of a module's file; choices that are not strings.
- The generated files under `agent/ansible/`: sample output of the generator.
- `provider/`, the executor, the version package and `agent/ansible/common.go`: registration, constants and getters.
- Staging.StageFile: bounds the sleep by 1170 s, tighter than three full loops of 450 s, because a loop that fails nine times ends the whole operation.
