# Verification of the Brume SOCKS5 proxy

This project models the parts of Brume whose correctness cannot be read off one function:
the concurrent UDP relay, the registry that assigns datagrams to associations, the Happy
Eyeballs race, the SOCKS5 wire formats with their handshake, idle timeouts, and the
whitelist arithmetic. `dafny verify dfyconfig.toml` checks all of it.

## The UDP flow protocol

`FlowModel` is a transition system of `handle_udp_packet`, `receive_remote` and the life of
an association: any number of associations, packet handlers and reply workers, each task
with a program counter whose positions name the source lines. One step is one lock section,
one atomic access or one await point. What the environment decides (does a socket bind, what
does the resolver answer, which branch of a `select!` wins, which key a full map evicts, which
address an allocation gets, including the address of a slot that was freed before) is carried
by the event. A slot carries the set of its references, so that the moment when the permit
comes back is the moment when the last reference goes. The worker is spawned before the cell
is set, as in the source. Runs start from the empty server.

- `FlowFrame` says what a step of each kind of task may change, and `FlowInvariant` holds the
  invariant and the proof that every step keeps it.
- `FlowSafety`: one active flow per target, no leaked slot, no lost permit, replies to the
  bound client only.
- `FlowAdvance`: a flow moves the preferred address at most once. `FlowHandover`: a worker that
  fails sees to it that it is moved, and the next flow of the target starts one address later.
- `FlowCancel`: a worker whose flow a handler has switched off is told to stop.
- `FlowTermination`: a handler ends under arbitrary interference; nobody waits for ever.
- `FlowDelivery`: what becomes of a datagram, from the packet to the end of its handler; when a
  handler sends, why it ends without having sent, and why a slot is left without a flow.
- `FlowReplies`: a worker relays every datagram it takes, and why it leaves its loop.
- `FlowPreferences`: which address a flow is bound to, and that an entry of the preferred
  addresses is the last one stored.
- `Rotation` and `FlowFailover`: the order in which the addresses of a target are tried, first
  as an algorithm on a circle, then as what a handler really does in a run.
- `FlowExpiry`: when a worker gives its flow up for idleness, against the requests sent on it.
  The worker's read of `last_activity`, its comparison with the clock and its swap of
  `active` are separate steps, and so are a request's check, touches and send.

## The other parts

- `Registry`: `AssociationRegistry` as a class over its three maps, each method equal to an
  operation on the plain table, which is searched by a scan. `Relay` runs this table and the
  flow protocol side by side.
- `Interleave`, `Race`: RFC 8305, sections 4 and 5, in virtual time.
- `Codec`, `CodecIo`: the formats of RFC 1928, sections 4 to 7, as functions, and the
  stream readers, buffer writers and the in-place header writer proved against them. A
  domain is a byte sequence that is well-formed UTF-8 (RFC 3629, section 4).
- `Handshake`: both ends of the negotiation (RFC 1928, section 3, and RFC 1929, section 2), and
  what happens when they talk to each other.
- `Forward`: the two copying tasks and the idle timer of a TCP connection.
- `Cidr`: mask arithmetic on 32 and 128 bits and the whitelist. `And`, `Or` and `Xor` are
  written out bit by bit on numbers.
- `Net`, `Bytes`, `Modular`, `Wrappers`: addresses, byte order, remainders, result types.

## What the code does not promise

Three statements that one might expect are false. Each is answered by an exact condition.

- docs/usage.md:70 says that requests renew a UDP flow. One that sets `last_activity` after the
  worker last read it (src/server.rs:854) does not, if that read leads to the flow's expiry:
  whether it comes before the comparison (line 855, `FlowExpiry.LateRequestIsLost`), between
  the comparison and the swap (line 898, `FlowExpiry.RequestAfterDecisionIsLost`) or later.
  `FlowExpiry.RequestRenews` says which requests renew the flow, `FlowExpiry.ExpiresInUse` when
  a flow in use is given up, and `FlowExpiry.LateRequestChangesNothing` that such a request
  makes no difference.
- A plain IPv4 address need not be allowed when its mapped IPv6 form is: the list `::/0`
  (`Cidr.EverythingV6ExcludesV4`). `Cidr.MappedFormAllowed` has the condition.
- A datagram with an empty payload is encoded by the sender and refused by the receiver
  (`Codec.EmptyPayloadIsRefused`, `Codec.DatagramBijection`).

## Model

| member | source | states |
|---|---|---|
| `FlowFrame.StepFrames` | src/server.rs:698-902 | a step touches at most one slot, one entry of one map and the preferences of one association; it puts its own slot in or takes its own slot out; and it changes a flow only by spawning it, switching it off or cancelling it |
| `FlowInvariant.StepKeepsInv` | src/server.rs:698-902 | every step of every handler, worker, new association, close and packet keeps the protocol's invariant, whatever the environment chooses |
| `FlowInvariant.RunKeepsInv` | src/server.rs:698-902 | so every state of every run from the empty server satisfies it |
| `FlowInvariant.TasksAreReady` | src/server.rs:714-822 | no task ever refers to a slot, flow or association that is gone; the modulo of line 744 has a non-zero divisor |
| `FlowInvariant.RememberBound` | src/server.rs:150-159 | remembering an address evicts just enough: the preference map never passes 128 entries |
| `FlowInvariant.HandlerKnows` | src/server.rs:793-822 | a handler past the cell holds a live slot of its own association and target, with a flow where the code uses one, and a switched-off flow where it removes the slot |
| `FlowInvariant.WorkerKnows` | src/server.rs:898-901 | a running worker has a live slot with a flow; it removes the slot only after that flow is switched off |
| `FlowInvariant.EnvironmentIsFree` | src/server.rs:736-893 | in every state that satisfies it lookups, sockets and sends may turn out either way, a waiting worker may receive, fail or wake at any time, and it hears of a token exactly if it is cancelled |
| `FlowSafety.OneActiveFlow` | src/server.rs:714-732 | at any moment of any run a target of an association has at most one active flow, its slot is the one in the map and its worker runs |
| `FlowSafety.RemovalIsOwn` | src/server.rs:828-836 | a map entry disappears only by a task that holds this very slot, after its flow was switched off or failed to come: nobody removes a newer slot |
| `FlowSafety.SlotHasOwner` | src/server.rs:733-811 | every slot in a map has an unfinished owner, also after the return at line 809 that removes nothing |
| `FlowSafety.IdleMapIsEmpty` | src/server.rs:796-836 | an association with no handler and no worker left has an empty map |
| `FlowSafety.SlotsAreHeld` | src/server.rs:131-134 | the slots that still own a permit are exactly those that some map, handler or worker refers to |
| `FlowSafety.PermitConservation` | src/server.rs:715-731 | free permits plus held slots are 1024 and free packet permits plus handlers 256 in every state; so at most 1024 workers; no map passes 128 entries |
| `FlowSafety.QuiescenceReturnsAll` | src/server.rs:131-134 | when no task is left all permits are back and all maps are empty |
| `FlowSafety.StepKeepsBinding` | src/server.rs:101-119 | no step unbinds an association or changes the key of its endpoint |
| `FlowSafety.BindingIsStable` | src/server.rs:101-119 | over any stretch of any run the endpoint key of an association stays what it was |
| `FlowSafety.RepliesReachTheClient` | src/server.rs:883-888 | a worker always has an address to reply to, and it has the key of every source ever accepted for its association; that it does reply is the subject of `FlowReplies.EveryReplyIsRelayed` |
| `FlowAdvance.AdvancedAtMostOnce` | src/server.rs:817-819 | in every run each flow moves the preferred address at most once, and never are two tasks about to |
| `FlowAdvance.StepKeepsOneAdvancer` | src/server.rs:898-900 | only the task that wins the swap goes on to advance |
| `FlowAdvance.AdvanceExhausts` | src/server.rs:817-819 | after an advance nobody is left who could advance for the same flow |
| `FlowAdvance.SpentStays` | src/server.rs:817-820 | a flow that was switched off is never switched on again |
| `FlowHandover.RecordsFit` | src/server.rs:848-896 | in every run `received_reply` of a worker tells whether it has had a reply, and a worker about to advance has `failed` |
| `FlowHandover.FailedHasCause` | src/server.rs:855-896 | a worker has `failed` only by a failed receive, or by an expiry before which it had no reply in the run |
| `FlowHandover.CauseMakesFailed` | src/server.rs:855-896 | and after such an event it has `failed`, is out of its loop and stays so |
| `FlowHandover.SwitchedOffBy` | src/server.rs:817-818 | whoever switches a flow off is about to advance next, except a worker that has not failed |
| `FlowHandover.FailureAdvances` | src/server.rs:817-900 | from the failure of a worker on, in every run, the advance is done or somebody is bound to do it, whoever wins the swap |
| `FlowHandover.FailedFlowHasAdvanced` | src/server.rs:817-900 | when the slot of a failed worker is gone, the preferred address has been advanced for its flow exactly once |
| `FlowHandover.AdvanceMovesStart` | src/server.rs:161-169 | in a run, after an advance and with the entry as it left it, a flow of the target with as many addresses starts its scan one address after the flow that was given up |
| `FlowHandover.ExpiryAdvancesStart` | src/server.rs:855-900 | in a run, a flow that expired unanswered or failed to receive is advanced exactly once before its slot is gone, and a flow that looks after that starts one address later, if entry and address count are unchanged |
| `FlowCancel.StepKeepsHeard` | src/server.rs:817-820 | every step keeps this: a worker that has not come to its own swap has an active flow, a cancelled token, or a handler on its way to cancel it |
| `FlowCancel.RunKeepsHeard` | src/server.rs:817-820 | and so does every run |
| `FlowCancel.RetiredWorkerCanStop` | src/server.rs:861-874 | a worker waiting on a flow that is not active any more can stop waiting and go to its end, unless a handler is still about to tell it; so without timeout, too, it does not keep its permit |
| `FlowCancel.LingeringWorkerIsActive` | src/server.rs:861-901 | with no handler left, a worker that has to wait on has an active flow and the slot that the map holds |
| `FlowTermination.HandlerTerminates` | src/server.rs:711-825 | under any interference, with lookups of at most n addresses, a handler makes at most n + 2 rounds, a bounded number of steps and at most one successful send; whether it sends is the subject of `FlowDelivery.WhyHandlerEnds` |
| `FlowTermination.StepsAreBounded` | src/server.rs:711-825 | its steps so far and its rank together never pass the rank it began with |
| `FlowTermination.OwnStepDecreases` | src/server.rs:801-824 | each of its steps decreases the rank made of `attempts`, `stale_retries` and position |
| `FlowTermination.OtherStepKeeps` | src/server.rs:698-902 | no other task can change a handler's counters or position |
| `FlowTermination.TalliesFollow` | src/server.rs:802-812 | rounds and sends really made are bounded by the two counters |
| `FlowTermination.NoHandlerIsStuck` | src/server.rs:733-735 | a handler can always go on, or waits for a cell whose initialiser is alive and can go on |
| `FlowTermination.ClosedWorkerDrains` | src/server.rs:850-901 | once its association is closed every step brings a worker nearer to its end |
| `FlowTermination.EndedWorkerHasRemoved` | src/server.rs:898-901 | when a worker ends its slot is not in the map any more |
| `FlowTermination.ClosedWorkerCanStep` | src/server.rs:861-874 | and with the association's token cancelled it is never blocked |
| `FlowDelivery.PacketIsTaken` | src/server.rs:667-693 | in every run a datagram of an association gets a handler at its start exactly if fewer than 256 are at work, and binds the association to its very source |
| `FlowDelivery.HandlerHasPacket` | src/server.rs:680-693 | every handler works for the association and the target of one datagram that has arrived |
| `FlowDelivery.ClosedForGood` | src/server.rs:624-625 | in every run an association is alive exactly until the event that closes it, and its token is cancelled exactly from the event that stops it on |
| `FlowDelivery.CountersCount` | src/server.rs:711-712 | in every run `stale_retries` is the number of switched-off flows a handler has met, and `attempts` the number of its sends |
| `FlowDelivery.StepConcludes` | src/server.rs:707-824 | an event leaves a handler with nothing to do but to drop its slot exactly if it was so before, or has just sent, or has one of the reasons of the source: association closed, no slot to be had, no flow, third switched-off flow, as many failed sends as addresses |
| `FlowDelivery.WhyHandlerEnds` | src/server.rs:698-826 | in every run a handler that is gone has sent its datagram exactly once, or has not sent it and had one of these reasons at an event of its life |
| `FlowDelivery.ReasonIsFinal` | src/server.rs:698-826 | and after a send or a reason it does not send any more and only lets go of its slot |
| `FlowDelivery.RemovedForGood` | src/server.rs:828-836 | once a task has removed a slot no lookup finds this slot any more, as long as it exists: a retry meets another one |
| `FlowDelivery.SendFollowsChecks` | src/server.rs:800-813 | before every send the handler has found the flow active and after that the association alive, with nothing in between |
| `FlowDelivery.NoFlowHasCause` | src/server.rs:736-763 | a slot is left without a flow only because the lookup failed, or because the initialiser came to the end of the addresses |
| `FlowDelivery.FailedBefore` | src/server.rs:746-762 | an initialiser has failed to bind at every distance from its start that it has passed |
| `FlowDelivery.BindsAnswer` | src/server.rs:736-748 | and goes through as many addresses as the lookup has returned |
| `FlowReplies.EveryReplyIsRelayed` | src/server.rs:874-889 | in every run, of the datagrams that have arrived for a worker it has sent on every one, but for the one it is handling and one that arrived when the association was closed |
| `FlowReplies.StepInStep` | src/server.rs:850-896 | every step keeps arrivals, datagrams taken and datagrams sent on in accord with where the worker is |
| `FlowReplies.LeavesForCause` | src/server.rs:850-896 | a worker leaves its loop exactly at an event with one of the causes of the source: association closed, deadline passed, association or flow stopped, receive failed |
| `FlowReplies.EndpointIsLastSource` | src/server.rs:667-671 | in every run the endpoint of an association is the source of the last datagram that came in for it |
| `FlowReplies.RelaysToLastSource` | src/server.rs:883-888 | a worker that sends a datagram on sends it to the very address from which its client was last heard |
| `FlowPreferences.StepStores` | src/server.rs:150-171 | any step leaves an entry alone, except that it stores the bound address, or the one after a flow's, for its own target, and then may evict one other key from a full map |
| `FlowPreferences.EntryHasCause` | src/server.rs:150-171 | in every run an entry is the last address stored for its target |
| `FlowPreferences.EntryStays` | src/server.rs:150-171 | and stays until another is stored for it or it is evicted from a full map |
| `FlowPreferences.StartIsRemembered` | src/server.rs:737-744 | in every run a scan starts at the entry of the target, reduced to the number of addresses, or at the first address if there is none |
| `FlowPreferences.BoundIsStored` | src/server.rs:764-766 | before a handler spawns a worker it has bound the address and then stored this very address, if there are several |
| `FlowPreferences.FlowIsBound` | src/server.rs:745-775 | in every run the address of a flow is one that its initialiser has bound |
| `Rotation.ScanFindsFirst` | src/server.rs:746-762 | the scan yields the first address from the start on, going round, that binds, and nothing only if none does |
| `Rotation.EveryBindableIsTried` | src/server.rs:736-766 | within as many failed sends as there are addresses exactly the bindable addresses are tried |
| `Rotation.AllBindInOrder` | src/server.rs:746-748 | if all bind, the tries go round the list in order from the preferred index |
| `Rotation.AllBindOnce` | src/server.rs:746-748 | and no address is tried twice |
| `Rotation.TriesExtend` | src/server.rs:161-169 | one more failure continues the cyclic sequence after the address that failed |
| `FlowFailover.FailuresRotate` | src/server.rs:736-824 | in any run in which no other handler works on its target, the failed sends of a handler are the beginning of that rotation, also when the worker of its flow fails meanwhile and wins the swap |
| `FlowFailover.GivesUpAfterAll` | src/server.rs:821-824 | such a handler gives up on failures only after a whole round: every bindable address, and each exactly once if all bind |
| `FlowFailover.OwnStepStaysOnCourse` | src/server.rs:736-824 | each step of the handler keeps it on the rotation |
| `FlowFailover.OtherStepStaysOnCourse` | src/server.rs:698-902 | steps of tasks on other targets, of losing workers and of the failing worker of its own flow do not disturb it |
| `FlowExpiry.ExpiryDecision` | src/server.rs:850-860 | the worker gives the flow up exactly if it had not been used for the whole timeout when `last_activity` was read, and then `failed` exactly if no reply ever came |
| `FlowExpiry.RequestRenews` | docs/usage.md:70 | a request on a flow that expires had renewed it for the whole timeout exactly if it set `last_activity` before the worker last read it, or at the time of the use that was read |
| `FlowExpiry.ExpiresInUse` | docs/usage.md:70 | when the worker switches its expired flow off, the flow is in use if and only if a request came after the last read and less than the timeout ago |
| `FlowExpiry.LateRequestChangesNothing` | src/server.rs:800-814 | whatever a request does after that read, short of switching the flow off itself, leaves time and manner of the flow's end as they would have been without it |
| `FlowExpiry.ExactWithoutInterruption` | src/server.rs:854-858 | with nothing between read and comparison the decision is exact in both directions |
| `FlowExpiry.LateRequestIsLost` | src/server.rs:854-858 | a run in which a request renews the flow between read and comparison and the flow is given up in use |
| `FlowExpiry.RequestAfterDecisionIsLost` | src/server.rs:855-898 | a run in which a request finds the flow active after the comparison, is sent, and the flow is given up in use |
| `FlowExpiry.NoTimeoutNoExpiry` | src/server.rs:851-852 | with a zero timeout no flow ever expires |
| `FlowExpiry.EventsTellAlways` | src/server.rs:847-900 | by the events alone: the flow is active until a handler or the worker switches it off, the worker wins the swap exactly if no handler did before, and it has `failed` exactly if it could not receive or expired without a reply |
| `FlowExpiry.SleepsUntilDeadline` | src/server.rs:861-866 | the sleep is over only when the deadline computed from the last read has passed |
| `FlowExpiry.RequestsInOrder` | src/server.rs:800-818 | in every run each request sets `last_activity`, sends, and sets it again or switches the flow off, in this order, or returns before |
| `FlowExpiry.RequestFindsActive` | src/server.rs:800 | a request begins only while neither a handler nor the worker has switched the flow off |
| `Registry.AssociationRegistry.constructor` | src/server.rs:26-31 | the empty registry is valid |
| `Registry.AssociationRegistry.Insert` | src/server.rs:34-50 | registers exactly if no association claims the same key, or waits at the same address, and otherwise changes nothing |
| `Registry.AssociationRegistry.Find` | src/server.rs:52-68 | returns what the scan of the table returns: the live claimant of the key; only if nobody, dead or alive, claims it, the live waiting association of that address; and binds it to the source |
| `Registry.AssociationRegistry.Remove` | src/server.rs:70-87 | takes exactly this entry away and leaves the indexes right for the rest |
| `Registry.Association.Accepts` | src/server.rs:101-119 | accepts exactly sources of the client's address, of the requested port and of the bound key, and then moves the endpoint to the source |
| `Registry.AcceptsNeverVetoes` | src/server.rs:52-65 | the association that was looked up always accepts, and one that has a key accepts no source of which it is not the owner |
| `Registry.IndexPartition` | src/server.rs:26-31 | every registered id sits in exactly one of the two indexes |
| `Registry.IndexSizes` | src/server.rs:26-31 | the sizes of the two indexes add up to the number of entries |
| `Registry.IndexDetermined` | src/server.rs:26-31 | the indexes are determined by the table, so nothing stale can stay in them |
| `Registry.IndexFinds` | src/server.rs:52-61 | the two hash lookups find the owner that the scan finds |
| `Registry.FoundExactly` | src/server.rs:52-68 | a datagram is assigned to the live association that has its address and port, and only if there is none, dead or alive, to the live one of its address that is not bound yet |
| `Registry.RefusedExactly` | src/server.rs:34-50 | a request is refused exactly if its place is taken: for any port by an association of the address that is not bound yet, for one port by an association that has it |
| `Registry.KillKeepsIndex` | src/server.rs:624-626 | clearing `alive` outside the lock leaves the indexes right |
| `Registry.HistoryKeepsTable` | src/server.rs:33-88 | over any sequence of operations no two associations share a key and no two wait at one address |
| `Registry.BindingIsStable` | src/server.rs:52-68 | until its removal an association keeps its key and is found by sources of that key only |
| `Registry.FindBinds` | src/server.rs:66-67 | after a find the same association is found again from the same key |
| `Registry.RemovalFrees` | src/server.rs:70-87 | removal makes claimable exactly what the association held |
| `Relay.AssignedIsAdmitted` | src/server.rs:667-671 | an association that the registry finds for a source is alive and accepts it |
| `Relay.StepKeepsOk` | src/server.rs:552-696 | registry and flow protocol agree on every registered association after every step, and every live association is registered |
| `Relay.ReplyGoesToOwner` | src/server.rs:883-888 | as long as its association is registered, a worker replies to an address all of whose datagrams the registry assigns to that association |
| `Relay.NoCrossTalk` | src/server.rs:883-888 | workers of different registered associations never reply to the same client address |
| `Relay.RepliesToSender` | src/server.rs:883-888 | a worker replies to the key of every datagram that the registry ever assigned to its association |
| `Interleave.InterleaveAddresses` | src/happy_eyeballs.rs:11-43 | the loops compute the alternation of the two families, IPv6 first |
| `Interleave.AlternatePositions` | src/happy_eyeballs.rs:27-40 | IPv6 at even and IPv4 at odd positions up to twice the shorter family, then the tail of the longer one |
| `Interleave.InterleavedIsPermutation` | src/happy_eyeballs.rs:11-43 | the result is a permutation of the input and keeps each family's order |
| `Race.RaceConnect` | src/happy_eyeballs.rs:68-127 | the loop returns the outcome of the race model for every sequence of events that can happen: the stream of the attempt whose connection ended the race, or the error of the failure that was the last possible |
| `Race.RaceOutcome` | src/happy_eyeballs.rs:85-126 | the race is won by candidate i exactly if the last event is that i connects, and lost with an error exactly if the last event is a failure with this error and as many have failed as there are candidates |
| `Race.RaceRecords` | src/happy_eyeballs.rs:74-124 | candidates are started in list order, the first at once and each further one at the very moment at which a delay runs out or an attempt fails |
| `Race.RaceBookkeeping` | src/happy_eyeballs.rs:80-126 | in flight are exactly the candidates that were started and have not failed, and until the outcome there are some; no attempt fails twice; after an error every candidate has failed |
| `Race.RaceTiming` | src/happy_eyeballs.rs:102-106 | candidate k is started by k times 250 ms plus the executor's lateness each time, unless the race is decided |
| `Race.EarlyStart` | src/happy_eyeballs.rs:80-124 | a start less than 250 ms after the previous one means that a failure was observed at that moment |
| `Race.EventDecreases` | src/happy_eyeballs.rs:80-124 | twice the unstarted plus those in flight decreases with every event |
| `Race.RaceTerminates` | src/happy_eyeballs.rs:80-124 | a race over n addresses sees at most 2n - 1 ends of attempts and of delays |
| `Codec.MessageBijection` | src/protocol.rs:89-117 | requests and replies are accepted exactly if they are an encoding followed by anything, which is left unread |
| `Codec.MessagesDelimitThemselves` | src/protocol.rs:89-117 | no encoding of one message is the beginning of another's |
| `Codec.MessageReadBack` | src/protocol.rs:89-102 | every encodable request is read back as it was |
| `Codec.MessageCanonical` | src/protocol.rs:89-96 | whatever is accepted is the one encoding of what was read |
| `Codec.TargetReadBack` | src/protocol.rs:56-87 | every encodable target is read back, whatever follows |
| `Codec.TargetCanonical` | src/protocol.rs:56-87 | an accepted target has only one encoding |
| `Codec.DatagramBijection` | src/protocol.rs:230-240 | datagrams are accepted exactly if they are the encoding of a target and a payload that is not empty |
| `Codec.EmptyPayloadIsRefused` | src/protocol.rs:236-238 | an encoded datagram is read back exactly if its payload is not empty |
| `Codec.Numbers` | src/protocol.rs:56-87 | ports and IPv4 addresses by their octets, the high one first |
| `Codec.TargetFormat` | src/protocol.rs:197-228 | the three address formats byte by byte: type 1 and four octets, type 3 with length and name, type 4 and sixteen octets, then the port |
| `Codec.MessageFormat` | src/protocol.rs:98-117 | the ten bytes of a request or reply for an IPv4 address, and the bytes of a datagram to it |
| `Codec.AddressFormat` | src/protocol.rs:197-209 | an address is written in the format of a target |
| `Bytes.TextIsValid` | src/protocol.rs:71 | the encoding of any sequence of Unicode scalar values is accepted as a domain's bytes |
| `Bytes.ValidIsText` | src/protocol.rs:71 | and nothing else is: no surrogates, overlong forms or values past the last one |
| `CodecIo.ReadTarget` | src/protocol.rs:56-87 | reads what the format says, refuses the rest with the same kind of error, and consumes exactly the target |
| `CodecIo.ReadMessage` | src/protocol.rs:89-111 | the same for requests and replies |
| `CodecIo.ReadDatagram` | src/protocol.rs:230-240 | the same for datagrams, the rest being the payload |
| `CodecIo.EncodeAddress` | src/protocol.rs:197-209 | appends the address format |
| `CodecIo.EncodeTarget` | src/protocol.rs:211-228 | appends the target format; refuses a domain that is empty or too long and then appends nothing |
| `CodecIo.WriteRequest` | src/protocol.rs:98-102 | writes the request, or nothing at all |
| `CodecIo.WriteReply` | src/protocol.rs:113-117 | writes the reply for an address |
| `CodecIo.EncodeDatagram` | src/protocol.rs:242-248 | yields the datagram format |
| `CodecIo.AppendDatagramTo` | src/protocol.rs:276-286 | replaces the reused buffer's content by the datagram; on refusal only the three zero bytes are left |
| `CodecIo.DatagramHeaderLen` | src/protocol.rs:250-252 | is the length of an encoded datagram without payload, and never more than 22 |
| `CodecIo.WriteDatagramHeader` | src/protocol.rs:254-268 | writes exactly the encoded header and touches nothing else |
| `CodecIo.FrameReply` | src/server.rs:883-888 | the slice sent equals the encoding of destination and payload for both families and is read back as them exactly if the payload is not empty; the rest of the buffer, the payload included, is unchanged |
| `CodecIo.Recv` | src/client.rs:210-222 | puts exactly the payload of an encoded datagram into the caller's buffer; one that does not fit, or any other packet, is refused and changes nothing |
| `Handshake.XorZero` | src/server.rs:367-369 | the exclusive or of two words is zero exactly if they are equal |
| `Handshake.OrZero` | src/server.rs:369 | an inclusive or is zero exactly if both words are |
| `Handshake.ConstantTimeEq` | src/server.rs:366-372 | the loop without early exit decides equality, also for different lengths and trailing zero bytes |
| `Handshake.ServerNegotiate` | src/server.rs:311-364 | reads, answers and decides as the server's specification function does |
| `Handshake.ClientNegotiate` | src/client.rs:116-141 | the same for the client |
| `Handshake.ServerAnswersGreeting` | src/server.rs:312-330 | for every input, byte by byte: what the server writes and decides on a greeting of any number of methods, complete or not |
| `Handshake.ServerAnswersAuth` | src/server.rs:331-362 | the same for user name and password |
| `Handshake.ClientAnswers` | src/client.rs:116-141 | for every input, byte by byte: what the client writes, when it succeeds and when it refuses |
| `Handshake.ServerAcceptsExactly` | src/server.rs:311-364 | the server lets in exactly those who offer its method and present exactly its credentials, and leaves what follows unread |
| `Handshake.AuthAcceptsExactly` | src/server.rs:331-362 | the authentication succeeds exactly on the encoding of the server's credentials |
| `Handshake.HandshakeAgreement` | src/client.rs:110-142 | the two ends against each other: both succeed with nothing unread if the credentials are equal, otherwise both refuse; neither is left waiting |
| `Handshake.HandshakeComesToRest` | src/server.rs:311-364 | and such a conversation comes about, after at most two answers of the server |
| `Forward.CopyDirection` | src/server.rs:528-550 | succeeds exactly if the reader ends cleanly, the writer takes everything and shuts down; then all was written; otherwise a prefix was; activity is reported once for each completed chunk |
| `Forward.BytesArePreserved` | src/server.rs:538-549 | at any moment each direction has written a prefix of what it read, at most one buffer behind, and all of it from the end of input on |
| `Forward.TimerDecides` | src/server.rs:513-517 | when the sleep is over the connection is given up if and only if no chunk was completed in either direction for the whole timeout |
| `Forward.TimedOutExactly` | src/server.rs:510-524 | it times out only after such a silence, so never with shorter gaps, and is not left silent for longer than the timeout and the executor's lag |
| `Forward.SilentMeans` | src/server.rs:511-514 | the watched time is when a direction last wrote the rest of what it had read, so comparing it with the clock decides silence |
| `Forward.ActivityExactly` | src/server.rs:543-547 | the watched time is set exactly when a direction that was behind has written everything it has read, which is when a chunk is counted; a part of a chunk does not renew it |
| `Forward.SideIsWalk` | src/server.rs:499-506 | in every run each direction is where its own moves lead, whatever the other does |
| `Forward.OutcomeIsLast` | src/server.rs:507-519 | the transfer ends with the error of its last event, with the timer's after silence, or when the second direction shuts down |
| `Forward.RunIsSound` | src/server.rs:499-524 | the deadline never lies behind the watched time plus the timeout, and equals it once the change has been seen |
| `Forward.SilenceEnds` | src/server.rs:510-524 | a run without a completed chunk is over after a bounded number of events |
| `Forward.LoopIsNeverStuck` | src/server.rs:510-524 | and until then the loop can always go on, even if both streams hang |
| `Forward.FinishedWhenBothAre` | src/server.rs:507-512 | it succeeds exactly when both directions have ended, and then everything read was written |
| `Cidr.PrefixMeaning` | src/config.rs:88-100 | for every width from 0 to 32 and from 0 to 128, comparing under the mask is agreement of the top bits within one family |
| `Cidr.MaskValue` | src/config.rs:91-95 | the checked shift gives ones above and zeros below, also for a prefix of zero bits |
| `Cidr.MappedNetworkKeepsAddresses` | src/config.rs:41-46 | rewriting a mapped IPv6 network of at least 96 bits to IPv4 keeps exactly the same addresses, up to mapping |
| `Cidr.StoredMeans` | src/config.rs:67-70 | a stored network matches exactly the addresses that the entry denotes |
| `Cidr.ParseWhitelist` | src/config.rs:24-59 | refuses exactly a width past 32 or 128 bits or a non-blank list without entries; what it stores allows exactly what the entries denote, and everything if there are none |
| `Cidr.MappedFormAllowed` | src/config.rs:61-71 | an allowed IPv4 address is allowed in mapped form; the mapped form alone exactly if an IPv6 network contains it |
| `Cidr.EverythingV6ExcludesV4` | src/config.rs:41-46 | the list that shows the converse to fail |
| `Net.NormalizeIdentifies` | src/server.rs:136-148 | two addresses have the same normal form exactly if they are equal or one is the mapped form of the other |
| `Net.NormalizeOctets` | src/server.rs:136-143 | on the sixteen octets: ten zeros, 255, 255 in front make the last four an IPv4 address, anything else is left as it is |
| `Net.KeysAgree` | src/server.rs:146-148 | two sources share a key exactly if their ports are equal and their addresses are, up to mapping |

## Left out

- Tokio, sockets, DNS and clocks: they appear as outcomes that the environment chooses and as virtual time. `OnceCell`, `Mutex`, `Semaphore` and `CancellationToken` are taken by their contracts.
- Relaxed memory ordering: atomic accesses are interleaved as if sequentially consistent.
- Panics, poisoned locks and tasks dropped by the runtime when it shuts down.
- The flow model leaves the outcome of the deadline test open; its timing is treated in `FlowExpiry` for one flow, its worker and its requests.
- `FlowFailover.FailuresRotate`: assumes that no other handler works on the target and that its preference entry is left alone; a worker of the target may win the swap only by failing while the handler is sending on its flow, and has then stored the next address before the handler lets go of the slot. A worker that wins earlier can make the handler skip an address, one that stores later can make it try one twice; then only the bounds of `FlowTermination.HandlerTerminates` remain.
- `FlowHandover.ExpiryAdvancesStart`: assumes that the entry is neither evicted nor overwritten and that the lookup returns as many addresses as before; a flow that looks before the advance starts where the entry says.
- The single-address path and the overall limit of ten seconds of `happy_eyeballs_connect`.
- How much of a stream has been consumed after a failed read.
- The sum of copied bytes in `copy_direction` is not bounded to 64 bits.
- `copy_bidirectional_with_sizes`, used when no TCP timeout is set.
- Flow label and scope of IPv6 socket addresses.
- Parsing of arguments, configuration files and IP addresses, error texts, logging, the accept loop, signals and `main`.
- The async copies of the codec (src/protocol.rs:119-195), which follow the same logic as the synchronous versions.
- The dispatch of commands and status codes in `handle_client`, `connect` and `associate`.
- install.sh, its tests, the benchmarks and the documents.
