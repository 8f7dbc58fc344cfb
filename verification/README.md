# cri-dockerd: models and proofs

cri-dockerd lets the kubelet drive Docker through the Container Runtime Interface (CRI). Most of it passes requests on; the parts that keep state or run a protocol are modelled here, and what they are for is proved. `dafny verify dfyconfig.toml` checks the whole project.

| file | what it models |
|---|---|
| `PodLocks.dfy` | the reference-counted per-pod locks around the network plugin, as a step relation over any number of goroutines and pods |
| `StreamPairs.dfy` | the pairing of port-forward data and error streams: run loop, one monitor per pair, timeouts, a channel that may be closed once |
| `RequestCache.dfy` | the single-use token cache (map, age-ordered list, early-stopping collection) and the text of its tokens |
| `FileStore.dfy` | the checkpoint file store over a directory in which any operation may fail and the process may stop anywhere, and its key grammar |
| `Checkpoints.dfy` | the checkpoint of a sandbox as a stored document, its checksum, the checkpoint manager and the port mappings read back |
| `Naming.dfy` | the codec between CRI metadata and Docker container names |
| `SandboxNetwork.dfy` | the network mode of a sandbox container, written and read back |
| `SandboxLifecycle.dfy` | Run, Stop and Remove of sandboxes over Docker's containers, the checkpoints and the ready flags |
| `SandboxList.dfy`, `SandboxListRuns.dfy` | the merge of a checkpoint listing and a container listing while sandboxes come and go, and the steps of Run in it |
| `HostportSockets.dfy` | the host ports the host-port manager holds open |
| `SandboxPorts.dfy` | the port mappings of a sandbox on their way from its configuration, through its checkpoint, to the host-port manager |
| `RuleSyntax.dfy`, `RuleFixpoints.dfy` | the normal form of iptables rules, and which rules are their own |
| `FakeIPTables.dfy` | the in-repository iptables: save and restore |
| `HostportRules.dfy`, `HostportRuns.dfy` | the iptables text that the host-port manager writes, what restore makes of it, and runs of Add and Remove |
| `RuleMeaning.dfy`, `HostportTraffic.dfy` | a reader of rule texts, and where the nat table that restore leaves sends packets |
| `Errors.dfy` | the aggregate-error tree |
| `WriteLimiter.dfy` | the byte limit that log streams share |
| `Text.dfy` | the string operations taken from Go's libraries |

Code that changes things in place is modelled by classes whose methods are proved against functions on values; the promises are then lemmas about those functions, over every input, run or interleaving. Docker, the network plugins, clocks, random draws and the operating system appear as parameters that tell how each call ends.

## What the code does not do

These statements are false of the code. Each has a lemma with an input that shows it, and a lemma that says exactly when it holds.

- "Add then Remove of the same mapping restores the map of open ports" fails when the pod's address family is not the manager's: Add selects the mappings by the one and Remove by the other (`AddThenRemoveRestoresIff`, `FamilyMismatchClosesAnotherPodsPort`).
- "SCTP host ports need no socket and are skipped" fails for every sandbox: checkpoints spell the protocol "sctp" and the manager skips "SCTP" only, so a sandbox with an SCTP host port gets none of its ports. Add succeeds exactly if no mapping has a host port, or iptables does not fail and every mapping with one is not SCTP and has a free socket (`AddForSandboxIff`, `SctpFailsTheSandbox`).
- "A sandbox whose container is in Docker is not listed from its checkpoint alone" fails when Docker answers a container listing with a not-found error, which is tolerated (`FromCheckpointAloneIff`, `NotFoundHidesAContainer`).
- "A failed Run does not mark the sandbox ready" fails because the deferred closure reads an error variable that is hidden or overwritten (`ReadyFlagIff`, `FailedRunMarkedReady`).
- "A sandbox's network is torn down at most once" fails exactly if SetUpPod failed in Run and the teardown and the stop of its clean-up both succeeded (`AtMostOnceIff`, `FailedRunIsTornDownTwice`). At the other end, "the network of a sandbox that was started can still be torn down" fails exactly if SetUpPod, the teardown and the stop all failed (`NeverTornDownIff`).
- "A jump that Add writes stands ahead of all earlier KUBE-HOSTPORTS rules" fails exactly if the same jump is there already, as Remove leaves it (`NewJumpsComeFirst`, `ReAddedJumpStaysBehind`).
- "Normalizing a rule twice changes nothing more" fails when white space other than the space character hides an address, a "--to-destination=" or a quote from the first pass (`IdempotentIff`, `SecondPassIff`, `TabBreaksIdempotence`). `SecondPassIff` holds for every rule; `IdempotentIff` says it by the arguments of the rule, for every rule in which no quote is hidden so, in particular for rules without quotes and for rules whose only white space is spaces.
- "Writes sharing a limit deliver no more than the limit" holds exactly for at most one writer or an empty limit (`LimitIsKeptIff`); otherwise the bound is the limit times the number of writers, and it is reached (`DeliveredAtMostKTimes`, `BoundIsReached`). Writes that do not overlap keep the limit (`SerialWritesRespectLimit`).
- "A stored checkpoint is read back as it was" fails for an empty list of port mappings that is not nil, which is never constructed (`RoundTripIff`, `ChecksumVerifiesIff`).
- "A made name is parsed back to its metadata" fails when a field contains the delimiter (`SandboxNameRoundTrip`, `DelimiterConfusesPods`). What of the identity survives then is stated exactly (`SandboxIdentityIff`, `ContainerNameRoundTrip`).

Where comments and code disagree the model follows the code: the comment on `filterErrors` says that nested lists are flattened, but an aggregate of which anything remains stays one, so the result is flat exactly if every nested aggregate is filtered out whole (`FilterErrorsIsFlatIff`, `FilterOutKeepsNesting`); and Remove of the host-port manager filters out the rules that jump to the removed chains, but restore does not flush the existing KUBE-HOSTPORTS chain, whose header is written as the JSON of an empty struct, so those jumps stay (`RemoveTextActs`).

## Model

| member | source | states |
|---|---|---|
| `PodLocks.MutualExclusion` | network/plugins.go:408-443 | in every interleaving at most one goroutine is inside the plugin per full pod name, and all that wait for, hold or release a pod's lock share the object in the map, although objects are dropped and recreated |
| `PodLocks.TableIsExact` | network/plugins.go:408-443 | in every reachable state the map holds exactly the names in use, each reference count is the number of its users, and neither branch marked as never happening nor an unlock of an unlocked mutex is reached |
| `PodLocks.EveryOperationCanReturn` | network/plugins.go:460-529 | from every reachable state there is a continuation in which every operation in flight returns and the map is empty |
| `PodLocks.SomebodyCanMove` | network/plugins.go:408-443 | whenever an operation is in flight some goroutine in flight can take a step |
| `PodLocks.UnrefFindsItsOwnMutex` | network/plugins.go:424-443 | podUnlock, which looks the lock up by name again, finds the very lock its caller holds, with a positive count |
| `PodLocks.StepKeepsInv` | network/plugins.go:408-443 | every step of every goroutine keeps the lock, table, user and holder invariants |
| `PodLocks.TableMovesLikeManager` | network/plugins.go:408-443 | in every run the critical sections change what the map shows exactly as the methods of the object do |
| `PodLocks.PluginManager.Acquire` | network/plugins.go:408-419 | the entry of the pod is created on demand and its count goes up by one; no other entry changes |
| `PodLocks.PluginManager.Release` | network/plugins.go:424-443 | the count goes down by one, the mutex is released, the entry goes at zero; which error branch is taken when |
| `PodLocks.FullNameIdentifiesPod` | network/plugins.go:531-533 | full names are equal exactly for equal pods, for names without underscore |
| `StreamPairs.NeverClosesTwice` | streaming/portforward/httpstream.go:209-301 | in every interleaving of run loop, monitors and timeouts no pair's channel is closed twice |
| `StreamPairs.StartsOncePerCompletePair` | streaming/portforward/httpstream.go:209-235 | portForward starts at most once per pair and exactly for pairs with both streams, of the right types and of the pair's request id |
| `StreamPairs.MonitorsRemoveTheirOwnPair` | streaming/portforward/httpstream.go:120-168 | a monitor's removal by request id always hits its own pair, even when ids are reused, and every pair in the map has its monitor |
| `StreamPairs.StreamsAreNotShared` | streaming/portforward/httpstream.go:279-301 | no stream object ends up in two pairs or in both places of one |
| `StreamPairs.PairsOnlyGrow` | streaming/portforward/httpstream.go:279-301 | over every run a stream once set in a pair is never replaced, and a closed channel stays closed |
| `StreamPairs.AddPanicsIff` | streaming/portforward/httpstream.go:279-301 | adding to a pair panics exactly for a complete pair and a stream type that admission refuses |
| `StreamPairs.AddAccepts` | streaming/portforward/httpstream.go:279-301 | a stream of a known type is turned away exactly if the place of its own type is taken; otherwise it takes that place, the other place and the request id stay, and the pair is complete, and its channel closed, exactly if the other place was set |
| `StreamPairs.BothStreamsStartForwarding` | streaming/portforward/httpstream.go:209-235 | in every run in which a stream of a new request is looked up, and one of the other type before the pair's monitor has removed it, portForward has been started for their pair the next time the loop waits; the pair holds the first stream, and the second unless another of its type came before |
| `StreamPairs.TwoStreamsCanStart` | streaming/portforward/httpstream.go:209-235 | from every reachable state in which the loop waits, two admissible streams of a new request, in either order, can be taken in, and exactly their pair is started |
| `StreamPairs.AdmissibleIff` | streaming/portforward/httpstream.go:75-102 | a stream whose port header is the decimal of n is admitted exactly for n from 1 to 65535 and the two stream types |
| `StreamPairs.PairedIff` | streaming/portforward/httpstream.go:171-204 | an error stream and a data stream belong together exactly if their request headers are equal; where one or both are missing, exactly if the derived number agrees, for old clients a distance of two |
| `StreamPairs.HttpStreamPair.Add` | streaming/portforward/httpstream.go:279-301 | the pair's new state and answer, as the step relation has them; for known types accepted or turned away as `AddAccepts` says |
| `StreamPairs.HttpStreamHandler.GetStreamPair` | streaming/portforward/httpstream.go:120-134 | an existing pair is returned as it is; otherwise a new empty pair is entered, and the answer tells which |
| `StreamPairs.HttpStreamHandler.RemoveStreamPair` | streaming/portforward/httpstream.go:163-168 | exactly the entry of the request id goes |
| `RequestCache.CacheRefinesPlainMap` | streaming/request_cache.go:73-146 | on every sequence of operations under a non-decreasing clock the cache answers as a plain map from tokens to requests with expiry times that is never collected |
| `RequestCache.ListAndMapAgree` | streaming/request_cache.go:73-146 | in every run list and map are in bijection and the list is sorted by expiry |
| `RequestCache.ConsumeIsSingleUse` | streaming/request_cache.go:94-110 | a request that is handed out was inserted under that very token, no longer ago than the time to live, and nothing touched the token since; so it is handed out at most once |
| `RequestCache.InsertLimitAndFreshness` | streaming/request_cache.go:73-91 | Insert is refused for capacity exactly when the maximum of unexpired, unconsumed requests is reached, and its token is never that of a live request |
| `RequestCache.InsertAnswersIff` | streaming/request_cache.go:73-130 | on every run, by the tokens in flight and the random draws alone: Insert succeeds exactly if fewer than the maximum are in flight and some try is the first that draws bytes of a token not in flight, and it returns that token; each of the three failures has its exact condition; never more than the maximum are in flight |
| `RequestCache.ConsumeAnswersIff` | streaming/request_cache.go:94-110 | Consume answers with a request exactly if an Insert returned this token for it, no operation on the token came in between and its time to live is not over |
| `RequestCache.LiveIsInFlight` | streaming/request_cache.go:73-146 | the live tokens of the plain map are those that the history of answers leaves in flight |
| `RequestCache.UniqueTokenIff` | streaming/request_cache.go:113-130 | the token is the encoding of the first draw that is not taken; an error exactly if a draw fails before; no token exactly if ten draws are all taken |
| `RequestCache.GcRemovesExactlyExpired` | streaming/request_cache.go:133-146 | collecting from the old end until the first unexpired entry removes all expired entries and no other |
| `RequestCache.UniqueTokenIsFresh` | streaming/request_cache.go:113-130 | a drawn token is new, of the token length and URL-safe |
| `RequestCache.InsertRefines` | streaming/request_cache.go:73-91 | one Insert on related states gives equal answers and related states |
| `RequestCache.ConsumeRefines` | streaming/request_cache.go:94-110 | one Consume on related states gives equal answers and related states |
| `RequestCache.RequestCacheObject.CollectExpired` | streaming/request_cache.go:133-146 | the loop over list and map does what the collection function says |
| `RequestCache.RequestCacheObject.DrawToken` | streaming/request_cache.go:113-130 | the bounded retry loop returns the first token not in the map, or the failure that ends it, each exactly under its condition on the draws |
| `RequestCache.RequestCacheObject.Put` | streaming/request_cache.go:73-91 | collection, capacity test, token and insertion at the young end; success and each failure exactly under its condition on the unexpired entries and the draws |
| `RequestCache.RequestCacheObject.Take` | streaming/request_cache.go:94-110 | the entry leaves list and map whether or not it has expired; the request is answered only if not |
| `TokenText.EncodedTokenLength` | streaming/request_cache.go:113-130 | the random bytes drawn encode to a text of the token length |
| `TokenText.CheckedTextIsTheTokenIff` | streaming/request_cache.go:113-130 | the text checked for uniqueness is the truncated token that is returned exactly if the token length is a multiple of four, as it is |
| `TokenText.EncodeRawInjective` | streaming/request_cache.go:113-130 | unpadded base64 of section 5 of RFC 4648 is injective on byte strings of equal length |
| `TokenText.EncodeRawIsUrlSafe` | streaming/request_cache.go:113-130 | only characters of the URL-safe alphabet occur |
| `FileStore.WriteIsAtomic` | store/filestore.go:49-58 | for every pattern of failures and a stop after any operation, all keys read as before or as before with the whole, synced new value; an error means before and nil means new |
| `FileStore.WriteSucceedsIff` | store/filestore.go:49-158 | Write returns nil exactly if the key is valid and directory, temporary file, write, sync, close and rename all succeed; a temporary file is left exactly if one was made, the write failed and so did its removal; no other name is touched |
| `FileStore.HoldsLastWritten` | store/filestore.go:49-93 | after any sequence of writes and deletes, stopped or failing anywhere, a key is held exactly if some write of it took effect and nothing changed it since, with that value |
| `FileStore.OpHasItsEffect` | store/filestore.go:110-165 | each write and delete, stopped anywhere, also between its last operation and the return, has its whole effect or none; nil means the effect and an error means none |
| `FileStore.EffectIff` | store/filestore.go:49-165 | a write or a delete takes effect exactly if its key is valid, nothing it needs fails and it is not stopped before its last operation, and it answers nil exactly if moreover it returns |
| `FileStore.HoldsIff` | store/filestore.go:49-93 | on every run the keys held are exactly those whose last operation that took effect is a write, each with that write's data |
| `FileStore.ReadGivesLastWritten` | store/filestore.go:49-78 | on every run a read that does not fail gives some data exactly if the last operation on the key that took effect wrote them, and not-found exactly if there is none or it is a delete |
| `FileStore.DiskStore.Write` | store/filestore.go:49-58 | every directory content along the way is old or new, and the result tells which one remains; nil exactly if nothing it needs fails |
| `FileStore.DiskStore.WriteFile` | store/filestore.go:119-158 | temporary file, write, sync, close, rename and the deferred clean-up, in this order; nil exactly if none of them fails |
| `FileStore.DiskStore.Read` | store/filestore.go:61-70 | the held value, the not-found error exactly for keys not held, any other error of the file system, an error for invalid keys |
| `FileStore.DiskStore.Delete` | store/filestore.go:73-78 | success exactly for a valid key and no error other than not-found; then the key and nothing else is gone, also when it was not there; otherwise the store is as it was |
| `FileStore.DiskStore.List` | store/filestore.go:81-93 | exactly the held keys, each once, temporary files left out; no keys and an error if the directory cannot be read |
| `StoreKeys.ValidKeyIsTheGrammar` | store/store.go:24-35 | the key test accepts exactly the texts of at most 250 characters that the regular expression matches |
| `StoreKeys.ValidKeyIsNotTemp` | store/store.go:59-64 | no valid key begins with the prefix of temporary files or contains a slash |
| `Checkpoints.ConfigSurvives` | core/sandbox_helpers.go:311-328 | for every sandbox configuration and every hash the stored checkpoint is read back, passes its checksum and has the same name, namespace, host-network flag and port mappings in order |
| `Checkpoints.RoundTripIff` | core/checkpoint.go:69-98 | encoding with omitted empty members and decoding into a blank checkpoint undo each other exactly if the data pointer is set and the port mappings are not an empty, non-nil list |
| `Checkpoints.DecodesIff` | core/checkpoint.go:85-88 | a stored document is read exactly if every member has its type or is null; port numbers and checksums are in range |
| `Checkpoints.ChecksumVerifiesIff` | store/checksum.go:31-41 | the checksum of what is read back passes exactly in that case or on a collision of the hash |
| `Checkpoints.MappingsRoundTrip` | core/checkpoint.go:48-51 | lists of port mappings with nil elements, nil or set pointers and empty or set addresses survive, in order |
| `Checkpoints.ConstructPodSandboxCheckpoint` | core/sandbox_helpers.go:311-328 | the loop yields all mappings in order, nil where there are none, and the host-network flag |
| `Checkpoints.CheckpointManager.CreateCheckpoint` | store/checkpointmanager.go:68-76 | after success a lookup of the key gives the checkpoint with its checksum; after failure nothing changed; a nil data pointer panics |
| `Checkpoints.CheckpointManager.GetCheckpoint` | store/checkpointmanager.go:79-94 | not found, failed, a panic where the document sets the data to null, or the verified checkpoint, and when which |
| `Checkpoints.CheckpointManager.RemoveCheckpoint` | store/checkpointmanager.go:97-101 | success means the key is gone, also when it was not there; other keys stay |
| `Checkpoints.CheckpointManager.GetPodPortMappings` | core/sandbox_port_forward.go:118-148 | no checkpoint means no mappings; a checkpoint made of a configuration yields that configuration's mappings in order; an error may delete only this checkpoint; a nil pointer panics |
| `Naming.SandboxNameRoundTrip` | core/naming.go:58-121 | for every 32-bit attempt, with or without slash and random suffix, parsing a made sandbox name gives the metadata back exactly if no field contains the delimiter |
| `Naming.MadeNameFields` | core/naming.go:58-79 | a made name splits at the delimiter into prefix, container, pod name, namespace, uid and attempt, in this order |
| `Naming.SandboxIdentityIff` | core/naming.go:58-121 | for all metadata, namespace and name are found in a made sandbox name exactly if they have no delimiter and the uid has none, or one followed by a 32-bit decimal where no suffix follows |
| `Naming.ContainerNameRoundTrip` | core/naming.go:69-145 | for all metadata, parsing a made container name gives name and attempt back exactly if the container's name has no delimiter and the pod has none, or one where no suffix follows and the end of the uid reads as the attempt |
| `Naming.NamesAreInjective` | core/naming.go:58-89 | a made name, randomized or not, determines its parts and its random number |
| `Naming.SandboxNamesIdentify` | core/naming.go:58-66 | equal sandbox names exactly for equal metadata |
| `Naming.ContainerNameIsSandboxNameIff` | core/naming.go:58-78 | a container name is a sandbox name exactly for a container called POD with that sandbox's identity and attempt |
| `Naming.DelimiterConfusesPods` | core/naming.go:58-66 | two different pods whose fields contain the delimiter share a name |
| `SandboxNetwork.NetworkModeRoundTrip` | core/sandbox_helpers.go:280-289 | the mode read back is the host's exactly if the configuration asks for it, whichever pointers are nil |
| `SandboxNetwork.HostConfig.ApplySandboxLinuxOptions` | core/sandbox_helpers.go:191-210 | the network, PID and IPC modes a sandbox container is created with |
| `SandboxNetwork.HostConfig.ModifySandboxNamespaceOptions` | core/security_context.go:179-237 | each mode is the host's exactly if asked for; otherwise the network mode depends on the plugin |
| `SandboxLifecycle.TearDownOnce` | core/sandbox_stop.go:88-110 | from a successful Run with its own network until its Remove, over every mix of operations and failures, the plugin's teardown succeeds at most once, and exactly once as soon as a Stop has returned success |
| `SandboxLifecycle.PluginArguments` | core/sandbox_run.go:163-182 | over every such run each plugin call for a sandbox whose identity can be read from its name uses the namespace and name of its SetUpPod, or, in a teardown, neither |
| `SandboxLifecycle.InspectAgreesWithCheckpoint` | core/sandbox_stop.go:45-75 | inspecting a sandbox of Run gives the identity in its checkpoint exactly if its name and namespace have no delimiter and its uid is readable; the host-network flag is right for all metadata |
| `SandboxLifecycle.DelimiterFreeIsRecognised` | core/sandbox_stop.go:45-75 | so it does for all delimiter-free metadata, randomized name or not |
| `SandboxLifecycle.StopResolves` | core/sandbox_stop.go:45-75 | Stop acts on that identity, or on none where Docker has no such container and the checkpoint is gone or unreadable |
| `SandboxLifecycle.StopResolvesFlag` | core/sandbox_stop.go:45-75 | the host-network flag Stop acts on is right, also where the name cannot be parsed, with the same exception |
| `SandboxLifecycle.HostNetworkTearDownIff` | core/sandbox_stop.go:88-99 | when exactly Stop calls the teardown for a sandbox on the host's network |
| `SandboxLifecycle.StopSuccessTearsDown` | core/sandbox_stop.go:88-110 | a Stop that returns success leaves the sandbox marked as torn down |
| `SandboxLifecycle.StopEffect` | core/sandbox_stop.go:34-113 | for every state and all failures: containers and everything of other sandboxes stay; the checkpoint goes exactly if the stop is answered not-found and the removal succeeds, or nobody tells the identity because the checkpoint cannot be read and it is dropped; success exactly if an identity is found, the stop does not fail and a teardown that is due does not fail; the one call the plugin gets, and the flag |
| `SandboxLifecycle.CheckpointLastsIff` | core/sandbox_stop.go:44-107 | over every mix of operations and failures a checkpoint lasts, unchanged, until the Remove of its sandbox exactly if no Stop on the way loses it |
| `SandboxLifecycle.RunSuccess` | core/sandbox_run.go:72-211 | success means ready, container and checkpoint in place, and exactly one plugin call, a successful SetUpPod with this identity, unless the host's network is used |
| `SandboxLifecycle.RunEffect` | core/sandbox_run.go:34-211 | for every state, all failures and every id: when Run succeeds with it, and when it has a container, a checkpoint and a flag afterwards, and what they say |
| `SandboxLifecycle.RunCalls` | core/sandbox_run.go:135-211 | the plugin gets no call unless SetUpPod is reached, then that one and, if it fails, one teardown, for the pod's namespace and name |
| `SandboxLifecycle.CreationEffect` | core/sandbox_run.go:72-83 | which container a creation gives, leaves or removes, with the recovery from a name conflict |
| `SandboxLifecycle.ReadyFlagIff` | core/sandbox_run.go:86-93 | exactly which failures of Run leave the ready flag set, from the last value of the variable that the deferred closure reads |
| `SandboxLifecycle.FailedRunMarkedReady` | core/sandbox_run.go:170-208 | a failing SetUpPod with a successful stop leaves the flag set |
| `SandboxLifecycle.TearDownsOverRun` | core/sandbox_run.go:72-211 | from every Run that creates a sandbox with its own network, successful or failed at any step, until its Remove, over every mix of operations and failures: the teardowns never exceed a number given by the failures of Run, and reach it as soon as a Stop has returned success |
| `SandboxLifecycle.AtMostOnceIff` | core/sandbox_run.go:170-208 | every continuation tears down at most once exactly unless a failing SetUpPod was cleaned up whole |
| `SandboxLifecycle.NeverTornDownIff` | core/sandbox_run.go:170-208 | no continuation ever tears down exactly if the sandbox was not started, or SetUpPod, teardown and stop all failed |
| `SandboxLifecycle.FailedRunIsTornDownTwice` | core/sandbox_run.go:170-208 | an input on which the next Stop tears the network down a second time |
| `SandboxLifecycle.RemoveSuccessIsComplete` | core/sandbox_remove.go:35-77 | success means that the sandbox's containers, checkpoint and ready flag are gone and everything else is as it was |
| `SandboxLifecycle.RemoveEffect` | core/sandbox_remove.go:35-77 | for every state and all failures: which containers go; the ready flag goes exactly if no error was reported for the sandbox's own container, the checkpoint exactly if its removal succeeds; success exactly if nothing fails |
| `SandboxLifecycle.RemoveConverges` | core/sandbox_remove.go:35-77 | any number of failing attempts add nothing, and the next attempt without failure succeeds and leaves no container, checkpoint or ready flag of the sandbox |
| `SandboxLifecycle.DockerService.RunPodSandbox` | core/sandbox_run.go:34-212 | the steps in order, with the flag set from the closure's variable, do what the specification of Run says |
| `SandboxLifecycle.DockerService.RunCreated` | core/sandbox_run.go:95-211 | the outer error variable, assigned and hidden where the source does, ends with the value the specification gives it |
| `SandboxLifecycle.DockerService.CreateWithRecovery` | core/sandbox_helpers.go:397-424 | creation with recovery from a name conflict: the other container removed and an error, or a second try under a randomized name |
| `SandboxLifecycle.DockerService.StopPodSandbox` | core/sandbox_stop.go:34-113 | identity, teardown guard, stop and checkpoint removal do what the specification of Stop says, whose whole effect is `StopEffect` |
| `SandboxLifecycle.DockerService.Identify` | core/sandbox_stop.go:45-75 | the identity from Docker or else the checkpoint, and the deletion of a checkpoint that cannot be read |
| `SandboxLifecycle.DockerService.RemovePodSandbox` | core/sandbox_remove.go:30-78 | the loop of removals with its error list does what the specification of Remove says |
| `SandboxList.NeverFromCheckpointAlone` | core/sandbox_list.go:71-125 | in every interleaving of creations, removals and listings no id is listed twice, and a sandbox is reported from its checkpoint alone only if its container has left Docker or has no parsable name, unless Docker answered not-found |
| `SandboxList.FromCheckpointAloneIff` | core/sandbox_list.go:71-125 | in every interleaving a sandbox with a well-named container in Docker is reported from its checkpoint alone exactly if Docker answered not-found and its checkpoint was listed and is readable |
| `SandboxListRuns.RunIsItsSteps` | core/sandbox_run.go:72-98 | from every reachable world of the listing the steps of Run, the container before its checkpoint, are possible and lead to what Run leaves, conflicts and failures included |
| `SandboxList.NotFoundHidesAContainer` | core/sandbox_list.go:82-85 | for every sandbox there is a run with that answer in which its container stays in Docker and the checkpoint alone is reported |
| `SandboxList.NotFoundReportsCheckpoints` | core/sandbox_list.go:82-122 | after that answer every readable checkpoint is reported |
| `SandboxList.NoIdTwice` | core/sandbox_list.go:87-122 | distinct container ids and distinct checkpoints give distinct ids |
| `SandboxList.ContainerReportedIff` | core/sandbox_list.go:81-99 | a sandbox of Docker's answer is reported with the pod its name tells and its state, and nothing else is; with a filter for sandboxes that are not ready exactly those |
| `SandboxList.CheckpointReportedIff` | core/sandbox_list.go:101-122 | a checkpoint is reported exactly if it was listed, can be read, and the answer does not show its sandbox in a state that the filter lets through |
| `SandboxList.StandingIsListed` | core/sandbox_list.go:66-122 | in every interleaving a listing that Docker answered reports every sandbox whose checkpoint it had listed and whose container is still there, as the pod its name tells |
| `SandboxList.CheckpointItemsAre` | core/sandbox_list.go:106-122 | which items the checkpoints contribute, in both directions |
| `SandboxList.List` | core/sandbox_list.go:87-125 | the two loops compute the merge |
| `HostportSockets.RunsStayExact` | network/hostport/hostport_manager.go:81-291 | over every run of Add and Remove with arbitrary failures the map of host ports is exactly the sockets held open |
| `HostportSockets.HeldIff` | network/hostport/hostport_manager.go:81-291 | over every run with arbitrary failures a socket, by port, protocol, host address and family, is held exactly if an Add that asked for it succeeded and no Remove that asks to close it has succeeded since |
| `HostportSockets.AddSucceedsIff` | network/hostport/hostport_manager.go:81-223 | Add succeeds exactly if there is nothing to do, or the pod's address is of the manager's family, every port it has to open is tcp or udp, free and not refused, and iptables does not fail |
| `HostportSockets.OpenSucceedsIff` | network/hostport/hostport_manager.go:306-356 | openHostports succeeds exactly if every port it has to open can be opened next to those held and those of earlier mappings |
| `HostportSockets.AddHolds` | network/hostport/hostport_manager.go:81-223 | Add adds exactly the sockets it is asked to open if it succeeds, and none otherwise |
| `HostportSockets.RemoveReleases` | network/hostport/hostport_manager.go:227-291 | Remove succeeds exactly if there is nothing to do or iptables does not fail, and then exactly the sockets it is asked to close go |
| `SandboxPorts.AddForSandboxIff` | network/kubenet/kubenet_linux.go:479-518 | with the mappings that a sandbox's checkpoint hands over, Add succeeds exactly if none has a host port, or iptables does not fail and each with one is not SCTP, not refused and has a free socket |
| `SandboxPorts.SctpFailsTheSandbox` | network/hostport/hostport_manager.go:316-319 | a sandbox with an SCTP host port never gets its ports, and nothing changes |
| `HostportSockets.AddIsAllOrNothing` | network/hostport/hostport_manager.go:81-205 | Add keeps the map exact and every key in it, and a failed Add changes neither map nor sockets |
| `HostportSockets.RemoveKeepsExact` | network/hostport/hostport_manager.go:227-291 | Remove keeps the map exact, changes nothing when it fails and closes only keys of its own mappings |
| `HostportSockets.AddThenRemoveRestoresIff` | network/hostport/hostport_manager.go:81-291 | successful Add and Remove of a mapping restore map and sockets exactly if the pod's address family is the manager's or Remove's keys were not in use |
| `HostportSockets.FamilyMismatchClosesAnotherPodsPort` | network/hostport/hostport_manager.go:227-235 | an input on which they do not |
| `HostportSockets.OpenKeepsExact` | network/hostport/hostport_manager.go:306-356 | opening yields exactly the keys of the wanted, non-SCTP mappings on new sockets, or closes all it opened |
| `HostportSockets.CloseRemovesKeys` | network/hostport/hostport_manager.go:358-376 | closing removes exactly the keys of the mappings and their sockets |
| `HostportSockets.GatherKeepsWanted` | network/hostport/hostport_manager.go:403-415 | which mappings are gathered, in both directions |
| `HostportSockets.HostportManager.Add` | network/hostport/hostport_manager.go:81-205 | the steps in order, with roll-back of the sockets |
| `HostportSockets.HostportManager.Remove` | network/hostport/hostport_manager.go:227-291 | the steps in order, including the early exit that still closes the ports |
| `HostportSockets.HostportManager.OpenAll` | network/hostport/hostport_manager.go:306-356 | the loop with its break and clean-up |
| `HostportSockets.HostportManager.CloseAll` | network/hostport/hostport_manager.go:358-376 | the loop over the mappings |
| `HostportSockets.HostportManager.GatherMappings` | network/hostport/hostport_manager.go:403-415 | the filtering loop |
| `HostportSockets.HostportManager.OpenLocalPort` | network/hostport/hostport.go:80-120 | opens only tcp and udp on an address that is not held, and holds it then |
| `RuleSyntax.NormalizeIsIdempotent` | network/hostport/fake_iptables.go:208-247 | for every rule whose only white space is the space character the normal form is its own normal form, however quotes are placed |
| `RuleFixpoints.IdempotentIff` | network/hostport/fake_iptables.go:208-247 | for every rule without hidden quotes a second pass changes nothing exactly if no argument of the first is an address or begins with "--to-destination=" |
| `RuleFixpoints.SecondPassIff` | network/hostport/fake_iptables.go:208-247 | for every rule a second pass changes nothing exactly if each argument of the first pass's text stands before a space or the end and is written as it is |
| `RuleFixpoints.FixedRuleIff` | network/hostport/fake_iptables.go:208-247 | the texts that are their own normal form, for every white space and every use of quotes |
| `RuleFixpoints.NoStrayQuotes` | network/hostport/fake_iptables.go:208-247 | rules without quotes, and rules whose only white space is spaces, have no hidden quotes |
| `RuleFixpoints.NormalFormShape` | network/hostport/fake_iptables.go:208-247 | every normal form is the join of the arguments read and begins and ends with no white space |
| `RuleSyntax.TabBreaksIdempotence` | network/hostport/fake_iptables.go:208-247 | a rule with a tab for which it is not |
| `RuleSyntax.StableRuleIsFixed` | network/hostport/fake_iptables.go:208-247 | which rules are their own normal form |
| `RuleSyntax.WordsAreAccepted` | network/hostport/fake_iptables.go:208-247 | every rule written as quoted or plain words has a normal form |
| `RuleSyntax.Normalize` | network/hostport/fake_iptables.go:208-247 | the loop computes the normal form, the quote error, or the index panic |
| `IPTables.RestoreOfSaveIsIdentity` | network/hostport/fake_iptables.go:291-400 | restoring without flush what save wrote of a table changes no chain, no rule and no order, in whatever order the chains were written and whatever other tables there are |
| `IPTables.RestoreIsLocal` | network/hostport/fake_iptables.go:315-400 | restoring one table leaves every other table as it was, whatever the text says and however the restore ends |
| `IPTables.FlushingHeader` | network/hostport/fake_iptables.go:340-359 | in a restore that flushes, a header fails exactly for a chain that does not exist; otherwise that chain is left empty and no other is touched |
| `IPTables.EnsureRuleKeepsChains` | network/hostport/fake_iptables.go:177-206 | tables built from rules with no white space but spaces are ones that save and restore preserve |
| `IPTables.FakeIPTables.RestoreText` | network/hostport/fake_iptables.go:315-400 | the loop over the lines does what the specification of restore says, with its errors |
| `IPTables.FakeIPTables.ReadHeader` | network/hostport/fake_iptables.go:340-358 | a header creates the chain, and flushes it unless it is built in or the text deletes it |
| `IPTables.FakeIPTables.AddRule` | network/hostport/fake_iptables.go:177-206 | the normalized rule goes to the front or the end unless it is there already |
| `IPTables.FakeIPTables.AddChain` | network/hostport/fake_iptables.go:94-116 | the chain exists afterwards; an existing one keeps its rules |
| `IPTables.FakeIPTables.DeleteChain` | network/hostport/fake_iptables.go:138-148 | exactly this chain goes, or an error if there is none |
| `IPTables.FakeIPTables.SaveText` | network/hostport/fake_iptables.go:291-313 | the text of headers and rules of a table, for any order of its chains; an error for a table that does not exist |
| `HostportRules.AddForPod` | network/hostport/hostport_manager.go:124-205 | for every pod with well-formed names, addresses and mappings restore accepts the text of Add; each new chain holds the rules written for it behind those it keeps, the jumps that were not there stand in front, every other chain and table is as it was |
| `HostportTraffic.AddSends` | network/hostport/hostport_manager.go:124-205 | for every packet: after Add for a pod whose chains are new, the restored nat table sends it to the pod, at the container port of the last of its mappings whose protocol, host port and specific host address are the packet's; if there is none, where it went before |
| `HostportTraffic.AddInstallsMapping` | network/hostport/hostport_manager.go:133-186 | read from the restored table: in front of all earlier rules of KUBE-HOSTPORTS a jump for exactly the mapping's lower-case protocol and host port, into a chain that marks packets from the pod for masquerading and sends the rest to pod address and container port, under the host address exactly where that is specific |
| `HostportTraffic.RemoveSends` | network/hostport/hostport_manager.go:227-291 | for every packet: after Remove, accepted or not, it goes where it would go without the rules that lead to the removed chains, although these rules stay |
| `HostportTraffic.AddThenRemoveSends` | network/hostport/hostport_manager.go:81-291 | Remove of a pod just added is accepted, and every packet goes where it went before the Add |
| `HostportTraffic.ReAddRestoresChain` | network/hostport/hostport_manager.go:188-192 | a repeated Add leaves in each of the pod's chains the rules of its mapping again, whatever they held |
| `RuleMeaning.JumpMeans` | network/hostport/hostport_manager.go:147-153 | the jump reads as protocol, host port and target |
| `RuleMeaning.SnatMeans` | network/hostport/hostport_manager.go:155-159 | the masquerade rule, as it is stored, reads as source and target |
| `RuleMeaning.DnatMeans` | network/hostport/hostport_manager.go:161-185 | the DNAT rule, as it is stored, reads as protocol, host address where specific, and destination |
| `RuleMeaning.EndpointOfJoin` | network/hostport/hostport_manager.go:162 | a joined destination is read back as the address and the port, for both families |
| `RuleMeaning.NormalTextIs` | network/hostport/fake_iptables.go:208-247 | a rule written as words is stored with "--to-destination=" unfolded and addresses completed, and no other change |
| `HostportRules.AddTextActs` | network/hostport/hostport_manager.go:136-202 | the same for any rule sets that restore accepts |
| `HostportRules.NewJumpsComeFirst` | network/hostport/hostport_manager.go:136-202 | in front of the earlier KUBE-HOSTPORTS rules, which keep their order, stand exactly the new jumps that were not among them; with fresh chains that is all of them |
| `HostportRules.ReAddedJumpStaysBehind` | network/hostport/hostport_manager.go:136-202 | a jump that Remove left behind is not moved to the front by a later Add |
| `HostportRuns.RunsStayReady` | network/hostport/hostport_manager.go:81-291 | over every run of Add and Remove, rejected texts included, the nat table stays one that save and restore preserve, no rule of KUBE-HOSTPORTS is lost or moved, and no other table changes |
| `HostportRuns.EveryAddIsAccepted` | network/hostport/hostport_manager.go:136-202 | along every such run every text of Add is accepted |
| `HostportRuns.EmittedMayBeAdded` | network/hostport/hostport_manager.go:136-190 | the rules that Add writes for a pod with no white space but spaces in its names and addresses are such texts |
| `HostportRules.NewChainHoldsItsRules` | network/hostport/hostport_manager.go:150-190 | a chain that is fresh, or flushed by a repeated Add, holds the masquerade rule and then the DNAT rule of its mapping; what these rules mean is `HostportTraffic.AddInstallsMapping` |
| `HostportRules.RemoveTextActs` | network/hostport/hostport_manager.go:241-287 | restore accepts the text of Remove exactly if no existing target is listed twice; then exactly the target chains are gone and every other chain, KUBE-HOSTPORTS included, keeps all its rules in order; a rejected text has removed the chains before the first repeated one |
| `HostportRules.NewChainIsOk` | network/hostport/hostport_manager.go:393-399 | the rules written for a mapping are rules that restore accepts and stores |
| `HostportRules.FilterRulesInOrder` | network/hostport/hostport_manager.go:459-474 | the filter keeps exactly the rules that mention none of the chains, in their order |
| `HostportRules.FedBackIff` | network/hostport/hostport_manager.go:419-475 | of the rules that save writes exactly those in the manager's own chains are fed back, unless they mention a filtered chain |
| `HostportRules.SameChainIff` | network/hostport/hostport_manager.go:393-398 | two mappings of a pod have the same chain exactly if host port, protocol and host address agree, or the hash of two different texts agrees in its first 16 characters |
| `HostportRules.OpenedProtocols` | network/hostport/hostport_manager.go:306-356 | mappings whose ports could be opened have protocol tcp, udp or sctp |
| `HostportRules.EmitAdd` | network/hostport/hostport_manager.go:136-200 | the buffers of Add hold headers, new rules and kept rules in this order |
| `HostportRules.EmitRemove` | network/hostport/hostport_manager.go:248-287 | the buffers of Remove hold kept rules and a deletion for each existing target |
| `HostportRules.FilterRulesLoop` | network/hostport/hostport_manager.go:459-474 | the nested loops compute the filter |
| `Errors.FilterOutKeepsUnmatched` | utils/errors/errors.go:140-176 | for every nesting FilterOut keeps exactly the unmatched single errors in order, builds no empty aggregate and is nil exactly if none remains |
| `Errors.FilterErrorsIsFlatIff` | utils/errors/errors.go:163-176 | the result of filterErrors is flat exactly if every aggregate in the list has only matching single errors |
| `Errors.FilterOutKeepsNesting` | utils/errors/errors.go:163-176 | where nothing matches the error keeps its nesting |
| `Errors.FlattenKeepsLeaves` | utils/errors/errors.go:180-198 | Flatten yields all single errors, in order, at depth one |
| `Errors.FlattenCommutesWithFilterOut` | utils/errors/errors.go:140-198 | filtering and flattening may be done in either order |
| `Errors.VisitFindsALeaf` | utils/errors/errors.go:96-128 | Is holds exactly if some single error, at any depth, is the target |
| `Errors.MessageOfFlattened` | utils/errors/errors.go:68-94 | an aggregate has the message of its flattened form |
| `Errors.ErrorText` | utils/errors/errors.go:68-94 | the text is the message: each distinct message of the leaves once, in order of first occurrence, in brackets unless there is only one |
| `Errors.VisitMessages` | utils/errors/errors.go:107-128 | the visit hands the messages of the leaves, at every depth, from left to right to the closure that gathers them |
| `Errors.NewAggregate` | utils/errors/errors.go:45-60 | the errors of the list that are not nil, and nil exactly if all are |
| `Errors.FilterList` | utils/errors/errors.go:167-176 | the loop of filterErrors |
| `Errors.FlattenAggregate` | utils/errors/errors.go:180-198 | the recursive loop of Flatten |
| `WriteLimiter.DeliveredAtMostKTimes` | core/helpers.go:119-145 | in every interleaving of k writers the remaining limit plus the subtracted bytes is the limit L, at most k * L bytes are delivered, and the counter stays at or above -(k - 1) * L |
| `WriteLimiter.LimitIsKeptIff` | core/helpers.go:119-145 | every interleaving keeps the limit exactly if there is at most one writer or the limit is zero |
| `WriteLimiter.BoundIsReached` | core/logs.go:82-87 | for every limit and number of writers some interleaving delivers k * L |
| `WriteLimiter.SerialWritesRespectLimit` | core/helpers.go:119-145 | writes that do not overlap deliver at most L |
| `WriteLimiter.NothingWithoutLimit` | core/helpers.go:128-131 | a limit that is not positive lets nothing through |
| `WriteLimiter.Limiter.Write` | core/helpers.go:124-145 | one Write alone: a prefix within the limit is delivered and subtracted, and which error is returned when |

## Left out

- JSON text, FNV, SHA-256, base32 and the parsing of IP addresses are parameters or inverse pairs with stated assumptions; the regular-expression engine is replaced by a matching relation.
- Durability of the rename itself: the directory is not synced by the code, and the model takes a rename as done when it returns.
- Wrap-around of 64-bit counters: the limit of log bytes and the reference counts are unbounded integers; for the two streams of a log request the proved lower bound excludes wrap-around.
- Panics and failures of a socket's Close, and the conntrack clean-up, which a flag that is never set guards.
- `ensureKubeHostportChains`: it appears as a call that may fail; the chains and jumps it installs are not modelled.
- The locking of the checkpoint manager, the file store and the host-port manager: their methods are modelled as running one at a time.
- Containers that run or have stopped: Stop's effect on the container's process is not part of the state.
- RunPodSandbox with a restart of cri-dockerd in between: the ready flags are then lost, and a later Stop tears down again.
- The removal of corrupt checkpoints by ListPodSandbox: the error it compares with is not the one that verification returns, so it does not happen.
- The collectors of container statistics (core/stats.go): a loop that reconciles two sets, and a doubling delay.
- StreamPairs: the copying of bytes by portForward and the HTTP and SPDY layers below it.
- Errors: aggregate types other than the package's own.
- RuleSyntax.Normalize: skips one character after a closing quote where the source skips one byte, which differs where a quote is directly followed by a character of several bytes.
- HostportTraffic.AddSends: takes KUBE-HOSTPORTS as the place where packets enter; the jumps to it, the jump onwards from KUBE-MARK-MASQ and matches other than protocol, ports and addresses are not modelled, and the "/32" that the in-repository iptables appends to addresses of either family is read as that one address. Host addresses of mappings are addresses.
- RuleMeaning.DnatMeans: relies on an address text with dots and colons having a colon first, as net.ParseIP accepts it.
- HostportRules.SameChainIff: is stated for protocols that begin with a letter and that their first letters tell apart, as TCP, UDP and SCTP do.
- HostportRules.AddForPod: says nothing of pod names with quotes or newlines, which Kubernetes does not admit, nor of host addresses that cannot stand in a rule as a word.
- CNI, kubenet, bandwidth shaping, image, exec, attach and streaming servers, security options, metrics, flags and Windows code.
