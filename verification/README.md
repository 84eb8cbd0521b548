# hev-fsh: rendezvous, splice and parsers, verified

This project models the parts of hev-fsh in which ordering, ownership and
hand-written parsing matter, and proves what the program relies on.

* **The rendezvous server** (`SessionModel`, `SessionIndex`, `SessionInvariants`,
  `SessionSafety`, `SessionSteps`, `SessionTasks`, `SessionRuns`, `SessionLives`,
  `SessionNames`, `SessionTold`, `SessionReplies`, `SessionPairs`, `SessionWire`,
  `SessionStream`, `SessionScenarios`, `SessionServer`). One cooperative task serves
  each connection. Tasks change each other's session records, keep them in one
  ordered index and hand sockets to one another. `SessionModel` is the
  transition system: a step is what a task executes between two yields, and
  everything from outside (bytes received, results and partial progress of
  sends, random tokens, remaining sleep times, which of several equal keys a
  lookup meets) is a parameter of the event. The theorems are about every run of
  it, with any number of sessions and any interleaving; `SessionScenarios` builds
  the runs in which something goes wrong. `SessionServer` is the program itself:
  mutable session objects, a search tree over them and a method per atomic
  section, each proved to be the corresponding step; the loops that search and
  link the tree are there.
* **The frame stream** (`Frames`, `ForwardClient`): what the server writes to a
  forwarder, byte by byte under the write lock, and what the forwarder reads.
* **The userspace splice** (`Splice`): two bounded buffers between descriptors
  that may deliver, accept, refuse or end at any time.
* **Tokens** (`TokenText`, `TokenManager`): the UUID codec, the generator, and
  the allow list that is reloaded from a file.
* **Addresses** (`AddrParser`, `AddrGrammar`, `PairParser`, `PairGrammar`,
  `AddrFilter`): the two in-place state machines, the grammars of the texts they
  accept, and the allow and deny lists they feed.
* **Arguments** (`Getopt`, `GetoptReading`): the bundled getopt, its permutation of
  argv, and the left-to-right reading that the two are to amount to.
* **The line-feed filter** of the Windows bridge (`Bridge`).

`OrderedTree` has the search trees: their rebalancing is any sequence of
rotations. `Bytes` has `memcmp` and its laws, `Bitwise` the operators `&` and `|`,
`CStrings` NUL-terminated reading and searching.

## Results worth knowing

* In every run a session is linked exactly once if it is alive with `is_mgr` set
  and not at all otherwise, and the index is sorted, although login's eviction
  and accept change keys of linked nodes; each accepted socket is owned by one
  field of one live session or has been closed exactly once; connectors and
  acceptors are paired one to one, under the token that was announced.
* One FORWARD per token is *not* kept in every run:
  `SessionScenarios.OverlappingLoginsCollide` has two logins that both look up
  before either registers. `SessionRuns.UniqueForwardsIffNoCollision` gives the
  exact condition at a registration, `SessionRuns.UniqueForwardsIffNotOvertaken`
  the same as a condition on the schedule: no login registers that was overtaken,
  between its lookup and its registration, by one under the same token that is
  still indexed.
* A session ends for one of the reasons listed in `SessionLives.Ends` and for no
  other (`SessionLives.DeathsOfRuns`); in particular an accept waits on, with its
  socket, until a connector is indexed under its token or its time is over
  (`SessionLives.AcceptsOfRuns`). A forwarder goes by the token it presented, unless
  that is all zeros (`SessionNames.NamesOfRuns`), and is told of its connectors under
  that token, or, after a login of version 3, under a new one for each
  (`SessionTold.TokensTold`). Every KEEP_ALIVE of another version than 1 gets one
  reply (`SessionReplies.RepliesOfRuns`).
* `write_message` takes any positive count for success, so a send that was cut
  short goes unnoticed. In every run the forwarder hears the CONNECTs that went
  out before the first cut (`SessionStream.ForwarderHears`), and nothing more if
  the cut left one byte, as a cut KEEP_ALIVE always does: then all CONNECTs that
  went out whole are heard if and only if none did behind the cut
  (`SessionStream.AllHeardIffNoneBehind`). `SessionScenarios.StrayByteLosesConnect`
  is a run in which one is lost. A claim that was announced before the first cut
  is one the forwarder has been told of (`SessionStream.ClaimsAreHeard`). Behind a
  longer cut the next bytes complete the token of the message that was cut
  (`ForwardClient.CutTokenIsCompleted`), and so what is heard depends on tokens: it
  may even be right by chance (`ForwardClient.LongerCutMayBeHeard`).
* A claimed connector splices with the socket it was given if and only if it was
  still waiting when accept handed it over (`SessionPairs.SplicedIffWaiting`). One
  whose wait has run out stays in the index and can be claimed all the same; its
  splice goes on without a peer (`SessionScenarios.LateClaimIsNotSpliced`).
* A direction of the splice that has ended has either delivered all it read and
  shut its output down, or has bytes left over and not shut it down
  (`Splice.RunDelivers`). The splice reports progress exactly when bytes were
  written. A pass that has only read may be followed by a wait
  (`Splice.WaitMayFollowRead`), and a buffer without capacity makes the loop spin
  until it is aborted (`Splice.SpinsWithoutCapacity`).
* On the permuted argv getopt delivers what a reading from left to right would, if
  and only if the permutation puts argv into the order of that reading and no last
  option lacks an argument that it would then find in an operand
  (`GetoptReading.PermutedDelivers`). Options that stand alone are always safe
  (`GetoptReading.AloneIsRead`); "-vt 100 -s" is not, because the permutation only
  looks at the first letter of an entry (`GetoptReading.HiddenArgument`), and
  neither is "op -t" (`GetoptReading.MissingArgument`).
* Both address parsers accept exactly the texts of a grammar, and more than the
  documented forms: a bracket may be left open, what stands between a closing
  bracket and the next delimiter is dropped, a port may follow a token
  (`AddrGrammar.ParseReads`), and a fifth field is ignored (`PairGrammar.ParseFinds`).
* The last line of a tokens file needs its newline: without one the line loses
  its last character and with it the token (`TokenManager.LineForms`).

## Model

| member | source | states |
|---|---|---|
| OrderedTree.FindExact | src/hev-fsh-session-manager.c:52-77 | a search finds a node with the wanted key if and only if one is in the tree, for every shape of the tree and even with equal keys on both sides of a node |
| OrderedTree.LinkInserts | src/hev-fsh-session-manager.c:20-44 | whatever its shape, linking into the tree puts the new node behind everything that is not above it |
| OrderedTree.EraseRemoves | src/hev-fsh-session-manager.c:46-50 | unlinking a node by identity takes exactly it out of the order |
| OrderedTree.RebalancedKeepsOrder | src/hev-fsh-session-manager.c:42-43 | any rotations at any nodes keep the in-order sequence |
| Bytes.CompareTransitive | src/hev-fsh-session-manager.c:66-72 | byte-wise comparison of tokens is transitive, strictly as soon as one step is strict |
| SessionIndex.FiledKeeps | src/hev-fsh-session-manager.c:20-44 | filing a session under its key keeps the index sorted without duplicates and adds just it |
| SessionIndex.WithoutKeeps | src/hev-fsh-session.c:142-144 | removing a session whose key was changed while it was linked leaves the others in order and takes out just it |
| SessionServer.SessionManager.Find | src/hev-fsh-session-manager.c:52-77 | the loop over node pointers, comparing type and then token read through the node, answers as the recursive search |
| SessionServer.SessionManager.Insert | src/hev-fsh-session-manager.c:20-44 | the loop over node pointers links the session at its place in the order, for any rebalancing |
| SessionServer.SessionManager.Remove | src/hev-fsh-session-manager.c:46-50 | the session's own node leaves the order, for any rebalancing |
| SessionServer.Server.Lookup | src/hev-fsh-session-manager.c:52-77 | in a consistent server a lookup returns a linked session with this type and token, or none if there is none |
| SessionServer.Server.AcceptConnection | src/hev-fsh-server.c:36-75 | the step of accepting a connection: a new unnamed session that owns the socket |
| SessionServer.Server.Dispatch | src/hev-fsh-session.c:301-334 | the step of the command loop for every command and version byte, as the model has it |
| SessionServer.Server.LoginLookup | src/hev-fsh-session.c:129-152 | login from its token to its reply: refusal, or eviction of the session found under the token |
| SessionServer.Server.LoginToken | src/hev-fsh-session.c:117-127 | login goes by the peer's token, or by a generated one for all zeros |
| SessionServer.Server.ConnectLookup | src/hev-fsh-session.c:197-207 | connect finds a forwarder or is refused, and addresses its message to it, under a new token if the forwarder's is temporary |
| SessionServer.Server.Register | src/hev-fsh-session.c:211-214 | the session takes its type, name and flag and its place in the index |
| SessionServer.Server.Continue | src/hev-fsh-session.c:153-162 | how login, connect and keep-alive go on behind their send, or close |
| SessionServer.Server.Lock | src/hev-fsh-session.c:94 | a writer gets the write lock of the target when it is free |
| SessionServer.Server.EndSend | src/hev-fsh-session.c:94-98 | a send ends: unlock, then continue by its result |
| SessionServer.Server.AcceptTry | src/hev-fsh-session.c:238-257 | one round of accept's wait: close on timeout, wait on, or hand over and close |
| SessionServer.Server.Handover | src/hev-fsh-session.c:248-256 | the connector gets type SPLICE, the socket and its new place; the acceptor lets go of the socket |
| SessionServer.Server.Wake | src/hev-fsh-session.c:170-175 | the step of a task that resumes from a sleep in a refusal, a connect or an accept |
| SessionServer.Server.ReadFails | src/hev-fsh-session.c:304-310 | the step of a receive, of a header or of a token, that fails or comes up short |
| SessionServer.Server.ConnectToken | src/hev-fsh-session.c:191-207 | the step of connect from its token to its message or its refusal |
| SessionServer.Server.AcceptToken | src/hev-fsh-session.c:230-257 | the step of accept from its token to its first wait, its timeout or the handover |
| SessionServer.Server.SpliceEnds | src/hev-fsh-session.c:177-178 | the step of a connector whose splice has ended |
| SessionServer.Server.Close | src/hev-fsh-session.c:282-292 | closing unlinks the session if and only if it is linked and closes what it holds |
| SessionServer.Server.Destruct | src/hev-fsh-session.c:390-403 | both sockets are closed, each only if it is held |
| SessionInvariants.StepSane | src/hev-fsh-session.c:182-258 | every step keeps the fields of every session consistent with where its task is suspended, and every write lock held by exactly the task that sends under it |
| SessionSafety.EvictKeeps | src/hev-fsh-session.c:142-144 | eviction, which changes the key of a linked session, keeps index, ownership and pairing |
| SessionSafety.HandoverKeeps | src/hev-fsh-session.c:248-257 | handing the socket over and closing keeps index, ownership and pairing, with one more claim |
| SessionSafety.CloseKeeps | src/hev-fsh-session.c:282-292 | closing keeps index, ownership and pairing |
| SessionSteps.FoundMeets | src/hev-fsh-session.c:239-249 | a connector found by accept is another session, is still unclaimed and has no remote socket that could be overwritten |
| SessionSteps.StepInv | src/hev-fsh-session.c:294-335 | every step of every task keeps the whole invariant, and types, names and deaths only move forward |
| SessionSteps.StepMoves | src/hev-fsh-session.c:24-31 | a step moves a type by one move at most: NULL to FORWARD, FORWARD to CLOSED, NULL to CONNECT or CONNECT to SPLICE |
| SessionTasks.CommandMeans | src/hev-fsh-session.c:313-334 | what each of the commands 0 to 4, and any other byte, makes of the task: 2 is answered unless its version is 1, 0 and 3 close a session that has a type, 1 and everything above 4 closes |
| SessionTasks.LoginMeans | src/hev-fsh-session.c:115-152 | login takes the 16 bytes presented for its name unless all are zero, then a generated token, and is about to send the name, or is refused for 1500 ms; only a FORWARD of that name may lose its place |
| SessionTasks.ConnectMeans | src/hev-fsh-session.c:192-207 | connect addresses a forwarder registered under its token, with a generated token exactly if the forwarder's is temporary, and is refused for 1500 ms if there is none |
| SessionTasks.AcceptMeans | src/hev-fsh-session.c:236-257 | one round of accept ends without time, waits on with its time and socket while no connector is indexed under its token, and claims one as soon as one is |
| SessionTasks.WakeMeans | src/hev-fsh-session.c:165-179 | a connector that wakes up splices if its time is over or it has been claimed and waits on otherwise; a refused peer is dropped when its time is over and not before |
| SessionTasks.SendEndMeans | src/hev-fsh-session.c:153-217 | after a failed send the session ends; a TOKEN makes a FORWARD, temporary exactly for version 3; a CONNECT makes a connector that waits for its whole timeout; a KEEP_ALIVE changes nothing |
| SessionLives.StepEnds | src/hev-fsh-session.c:301-335 | a step ends a session if and only if its task meets one of the listed reasons, and ends no other |
| SessionLives.DeathsOfRuns | src/hev-fsh-session.c:301-335 | in every run exactly those sessions are dead that have met one of the reasons |
| SessionLives.AcceptsOfRuns | src/hev-fsh-session.c:236-257 | in every run an accept that has presented its token waits with its socket as long as it finds no connector, and ends only by a claim with that socket under that token, or when its time is over |
| SessionLives.ArrivalsOfRuns | src/hev-fsh-session.c:368-388 | in every run a session has the timeout it arrived with, or none if it was evicted, and the socket it arrived with, unless it has handed it over |
| SessionReplies.RepliesOfRuns | src/hev-fsh-session.c:260-280 | in every run the KEEP_ALIVEs on a connection, sent or to be sent, are as many as it has received of another version than 1, but for one whose reply failed before its first byte |
| SessionNames.NamesOfRuns | src/hev-fsh-session.c:109-161 | in every run a session that has logged in goes by what its first login presented, unless all zeros, or by a generated token, was allowed to, and is temporary exactly for version 3 |
| SessionTold.TokensTold | src/hev-fsh-session.c:203-207 | in every run a forwarder is told of all connectors under its own token, or, for version 3 and a generator of new tokens, under different ones, none of them its own |
| SessionRuns.IndexOfRuns | src/hev-fsh-session.c:138-159 | in every run, at every yield: linked exactly once iff alive with is_mgr, and sorted by type and token |
| SessionRuns.SocketsOfRuns | src/hev-fsh-session.c:397-400 | in every run each accepted socket is held in exactly one field of exactly one live session, or has been closed exactly once |
| SessionRuns.ClaimsOfRuns | src/hev-fsh-session.c:237-257 | in every run each connector is claimed by at most one accept and each accept claims at most one connector, under the token presented |
| SessionRuns.TypesOfRuns | src/hev-fsh-session.c:24-31 | over any stretch of any run every step makes at most one move of NULL to FORWARD to CLOSED or NULL to CONNECT to SPLICE, so that a session that was NULL and is CLOSED (SPLICE) has been FORWARD (CONNECT) in between; names given with a type stay |
| SessionRuns.TypesArise | src/hev-fsh-session.c:24-31 | whatever is CLOSED in a run was FORWARD before, whatever is SPLICE was CONNECT, and whatever is FORWARD or CONNECT was NULL |
| SessionRuns.UniqueForwardsIffNoCollision | src/hev-fsh-session.c:138-159 | each token has at most one indexed FORWARD throughout a run if and only if no login registers a token that is taken again |
| SessionRuns.UndisturbedLoginsAreUnique | src/hev-fsh-session.c:138-159 | if no other task runs within a login's section, each token has at most one FORWARD and a lookup finds the newest login |
| SessionRuns.UniqueForwardsIffNotOvertaken | src/hev-fsh-session.c:138-159 | the same if and only if no login registers between another login's lookup and registration under the same token and is still indexed at the latter |
| SessionScenarios.OverlappingLoginsCollide | src/hev-fsh-session.c:150-159 | a run of two overlapping logins with two FORWARDs under one token |
| SessionPairs.ClaimedWakes | src/hev-fsh-session.c:170-178 | a claimed connector that wakes from its wait starts its splice with the socket it was given |
| SessionPairs.SplicedIffWaiting | src/hev-fsh-session.c:165-179 | in every run a claimed connector that splices does so with the socket it was given if and only if it was still waiting at the handover, and without a peer otherwise |
| SessionScenarios.LateClaimIsNotSpliced | src/hev-fsh-session.c:171-178 | a run in which accept hands a socket to a connector whose wait has run out and that splices without it |
| SessionWire.WireOfRuns | src/hev-fsh-session.c:83-98 | in every run the bytes on a connection are those of its sends, whole or cut short, and of the one under way, in the order of the lock, with the TOKEN sent once and before every CONNECT |
| SessionStream.ForwarderHears | src/hev-fsh-client-forward.c:76-105 | in every run, on a connection that began with LOGIN and whose TOKEN is out whole, the forwarder reads the token it is registered under and then the CONNECT tokens sent before the first cut, in order, and no others if nothing follows the cut or it left one byte |
| SessionStream.AllHeardIffNoneBehind | src/hev-fsh-client-forward.c:164-184 | if the first cut left one byte, as one within a KEEP_ALIVE does, all CONNECTs that went out whole are heard if and only if none did behind it |
| SessionStream.ClaimsWereAnnounced | src/hev-fsh-session.c:203-214 | every claimed connector has a send of its own, different from those of all other claims, of which at least one byte went out, that announced it to a logged-in forwarder under the token of the claim, which is that forwarder's own unless that one is temporary |
| SessionStream.ClaimsAreHeard | src/hev-fsh-client-forward.c:152-185 | if the message about a claimed connector went out before the first cut, to a forwarder that began with LOGIN, that forwarder dispatches the token of the claim |
| SessionScenarios.StrayByteLosesConnect | src/hev-fsh-session.c:94-98 | a run in which one CONNECT ends after one byte and a later whole one is not heard, and both connectors are indexed and wait |
| ForwardClient.Forwarder.ReadToken | src/hev-fsh-client-forward.c:65-105 | reads a TOKEN message and keeps its token, or fails and keeps the old one |
| ForwardClient.Forwarder.Dispatch | src/hev-fsh-client-forward.c:152-185 | starts a client for each CONNECT of the stream in order, up to its end or the first unknown message |
| ForwardClient.DispatchRecovers | src/hev-fsh-client-forward.c:159-184 | dispatching whole frames recovers exactly their CONNECT tokens in order, whatever follows them |
| ForwardClient.StrayByteSilences | src/hev-fsh-client-forward.c:164-176 | behind one stray byte of a message nothing is heard, whatever is sent, whole or cut |
| ForwardClient.CutTokenIsCompleted | src/hev-fsh-client-forward.c:164-184 | a message cut within its token is heard with the next bytes for the rest of its token |
| ForwardClient.CutGreetingIsCompleted | src/hev-fsh-client-forward.c:76-105 | a TOKEN cut within its token is read with the next bytes for the rest of its token |
| ForwardClient.LongerCutMayBeHeard | src/hev-fsh-client-forward.c:164-184 | behind two stray bytes a CONNECT with the token 01 03 01 03 and so on is heard as it was sent |
| Splice.PumpFaithful | src/misc/hev-task-io-us.c:59-95 | bytes written and then bytes buffered are the bytes read, in order, and the buffer keeps to its capacity |
| Splice.PumpResult | src/misc/hev-task-io-us.c:78-94 | what each of the three results means, exactly |
| Splice.PumpShutsDown | src/misc/hev-task-io-us.c:90-92 | the output is shut down exactly when the input has ended and everything read has been written |
| Splice.PumpWorks | src/misc/hev-task-io-us.c:65-89 | every call uses up input, buffer or output events if and only if the buffer has capacity |
| Splice.DecisionMeans | src/misc/hev-task-io-us.c:120-125 | the bit test leaves iff both directions have ended and waits iff one is alive and none made progress |
| Splice.WaitsOnlyWhenStopped | src/misc/hev-task-io-us.c:115-125 | the loop waits exactly when some direction was stopped by EAGAIN and every other was stopped too or has ended |
| Splice.WaitMayFollowRead | src/misc/hev-task-io-us.c:78-85 | a pass that reads a byte and cannot write it is followed by a wait |
| Splice.RunDelivers | src/misc/hev-task-io-us.c:112-133 | over the whole loop both streams stay faithful and an output is shut down at most once with nothing after it; a direction that has ended with an empty buffer has delivered everything and shut its output down, one that has ended otherwise has not shut it down; without an abort both have ended |
| Splice.RunConserves | src/misc/hev-task-io-us.c:59-76 | over the whole loop, what has been read and what is still to come is what was to come: no byte is dropped or read twice |
| Splice.ProgressIsBounded | src/misc/hev-task-io-us.c:112-133 | the calls that report progress, in both directions, are at most the bytes written |
| Splice.SpinsWithoutCapacity | src/misc/hev-task-io-us.c:112-133 | without capacity every pass moves nothing and the loop goes on |
| Splice.TaskIoSplice | src/misc/hev-task-io-us.c:59-95 | the pump on descriptors and buffer is the specified call |
| Splice.UsSplice | src/misc/hev-task-io-us.c:97-138 | the loop terminates and leaves the descriptors as the specified run; without capacity it ends by an abort with nothing moved, and without buffers it touches nothing |
| TokenText.Pack | src/hev-fsh-protocol.c:22-45 | the four fields are spelled big-endian in the first ten bytes and the others stay |
| TokenText.Unpack | src/hev-fsh-protocol.c:47-66 | reads back the four fields |
| Bitwise.MasksAreArithmetic | src/hev-fsh-protocol.c:78-79 | the masks of the generator, as arithmetic |
| TokenText.Generate | src/hev-fsh-protocol.c:68-82 | a random token with only the version and variant bits replaced, by 4 and binary 10 |
| TokenText.ToString | src/hev-fsh-protocol.c:84-96 | the 8-4-4-4-12 text of the token |
| TokenText.FromString | src/hev-fsh-protocol.c:98-142 | accepts exactly the grammar of section 3 of RFC 4122 and then stores the token; otherwise leaves it alone |
| TokenText.HexAlphabet | src/hev-fsh-protocol.c:84-142 | the digits are 0 to 9 and a to f by their values, and upper case is read too |
| TokenText.ParseInvertsRender | src/hev-fsh-protocol.c:84-142 | the text of every token is accepted and parses back to it |
| TokenText.RenderIsLowerCase | src/hev-fsh-protocol.c:84-142 | the text of a parsed token is the input in lower case |
| TokenText.SameTokenIffSameText | src/hev-fsh-protocol.c:98-142 | two accepted texts are the same token iff they are equal up to case |
| TokenManager.TokenManager.Find | src/hev-fsh-token-manager.c:30-48 | 1 if and only if the token is in the list |
| TokenManager.TokenManager.Insert | src/hev-fsh-token-manager.c:71-88 | adds the token to the list, duplicates allowed |
| TokenManager.TokenManager.Clear | src/hev-fsh-token-manager.c:90-100 | terminates with an empty list |
| TokenManager.TokenManager.Reload | src/hev-fsh-token-manager.c:102-146 | whatever was listed before, afterwards exactly the tokens named by the chunks of the file are, none if it cannot be opened |
| TokenManager.FileLists | src/hev-fsh-token-manager.c:118-141 | a file lists what each of its lines names, with its newline, and what the text behind the last newline names |
| TokenManager.LineForms | src/hev-fsh-token-manager.c:118-131 | a token is listed by a line ending in LF or CR LF and with anything behind it, but not by a last line without newline |
| AddrParser.ParseAddr | src/hev-main.c:59-132 | the in-place machine terminates within the buffer and ends as specified, for every input |
| AddrParser.ScanInBounds | src/hev-main.c:71-124 | on any input the parts point into the buffer and only NULs are written into it |
| AddrParser.ParseInvertsPrint | src/hev-main.c:59-132 | parsing inverts printing for every plain or bracketed host with any port and token, whatever follows a comma |
| AddrGrammar.ParseReads | src/hev-main.c:59-132 | every text up to its first comma is accepted if and only if it is well formed, and then its host, port and token are read |
| AddrGrammar.BareIsRefused | src/hev-main.c:79-81 | a host without brackets and with a second colon, such as a bare IPv6 address, is refused |
| PairParser.ParseAddrPair | src/hev-main.c:196-251 | the in-place machine terminates within the buffer, never sets a fifth pointer and ends as specified, for every input |
| PairParser.ParseInvertsJoin | src/hev-main.c:196-251 | one to four fields joined by colons, plain or bracketed, come back as they were |
| PairGrammar.ParseFinds | src/hev-main.c:196-251 | every text is accepted if and only if it has fields in the grammar, and then those are found, up to four |
| PairParser.Config.ParseSetAddrPair | src/hev-main.c:253-280 | fails and changes nothing without two fields; otherwise assigns by their number |
| PairParser.FormsAreAssigned | src/hev-main.c:265-277 | the documented forms set local and remote address and port as documented |
| AddrFilter.Config.AddrListAdd | src/hev-fsh-config.c:299-323 | the node is put in front of the list |
| AddrFilter.Config.AddrListContains | src/hev-fsh-config.c:270-297 | the action of the first node that matches, or of the catch-all, or 0 |
| AddrFilter.AddedContains | src/hev-main.c:149-162 | an item takes effect on exactly the addresses it denotes, as IPv4 and as IPv6 |
| AddrFilter.FormsAgree | src/hev-main.c:149-162 | for every list ever built an IPv4 address and its IPv4-mapped form get the same answer |
| AddrFilter.Config.SetAddrList | src/hev-main.c:134-165 | one item is read and added, or nothing is |
| AddrFilter.PeerOfItem | src/hev-main.c:75-77 | an item is read the same whether more items follow it or not |
| AddrFilter.WalkReadsItems | src/hev-main.c:172-191 | the loop reads each non-empty item exactly once, in order |
| AddrFilter.ItemsOfCommas | src/hev-main.c:172-191 | the items of texts joined by commas are those texts, but for empty ones |
| AddrFilter.ItemsContain | src/hev-main.c:167-194 | after a list exactly the listed addresses have its action, the others what they had |
| AddrFilter.Config.ParseSetAddrList | src/hev-main.c:167-194 | all items are added in order, up to the first that cannot be read |
| AddrFilter.Config.ParseFilter | src/hev-main.c:351-366 | an address and port is let through iff listed with an allow list, iff not listed with a deny list, always without; both together are refused |
| AddrFilter.PeerOfPrinted | src/hev-main.c:143-158 | an item printed as ADDR:PORT names its address, IPv4 first, and its port |
| Getopt.Permute | src/misc/hev-compat.h:33-75 | argv is rearranged into the specified order, or left alone if there is no memory |
| Getopt.OrderIsStablePartition | src/misc/hev-compat.h:43-70 | argv[0] stays, options with their arguments come first and the rest after them, each in the original order |
| Getopt.OrderIsPermutation | src/misc/hev-compat.h:43-73 | no entry is lost and none is doubled |
| GetoptReading.Parser.GetOpt | src/misc/hev-compat.h:77-133 | one call permutes argv if it is the first, and delivers the next letter with its argument, or an error, or the end |
| GetoptReading.Parser.ReadOptions | src/hev-main.c:441 | the calls end, and what they deliver is the left-to-right reading of the old argv if and only if the permutation keeps it |
| GetoptReading.OptionsAre | src/hev-main.c:441 | which letters are options of the program, and which of them take an argument |
| GetoptReading.PermutedDelivers | src/misc/hev-compat.h:33-133 | getopt delivers from the permuted argv the options and arguments of a left-to-right reading of the old one, and leaves the other entries, if and only if the permutation puts argv into reading order and no last option takes an operand for its missing argument |
| GetoptReading.AloneIsRead | src/misc/hev-compat.h:53-57 | so it does whenever every option that takes the next entry stands alone and the last one has it |
| GetoptReading.HiddenArgument | src/misc/hev-compat.h:53-57 | but not for "-vt 100 -s" |
| GetoptReading.MissingArgument | src/misc/hev-compat.h:113-122 | and not for an operand in front of a last "-t" |
| Bridge.FilterInPlace | src/misc/hev-bridge.c:99-107 | the loop turns exactly the line feeds that do not follow a carriage return, across the chunk border too |
| Bridge.ChunksDoNotMatter | src/misc/hev-bridge.c:91-107 | however the stream is cut into receives, the output is the one-pass filter of the whole |
| Bridge.NoBareLineFeeds | src/misc/hev-bridge.c:84-107 | behind the filter every line feed follows a carriage return, and nothing but line feeds has been changed |
| Bridge.FilterIdempotent | src/misc/hev-bridge.c:103-104 | filtering twice is filtering once |
| Bridge.Writer | src/misc/hev-bridge.c:84-123 | the output is the beginning of the filtered stream, and all of it unless a write failed |

## Left out

* The red-black trees' own relinking and colours: the hev-rbtree library is not
  part of this model. Trees are values in a field that the methods reassign, and
  rebalancing is any sequence of rotations.
* The task system, circular buffer and sockets: yields, a bounded FIFO, and
  descriptors that follow an arbitrary script of data, EAGAIN and failure.
* Reuse of socket numbers by the kernel: every accepted connection has a number
  that was not used before.
* The lifetime of a forwarder's record while a connector writes to it (the code
  holds no reference): the model keeps dead records, lets such a send end with
  any result and sends nothing more for a session that has died.
* A message that waits for the write lock of a session while that session hands
  its socket on: the program has read the descriptor before it waits
  (src/hev-fsh-session.c:77) and accept does not close it (248-256), so the message
  reaches the peer of the connector; in the model it is not sent.
* What else is sent on such a socket: a message that is under way under the lock
  when the session hands its socket on continues to the peer of the connector, and
  in the model it goes no further; and once a FORWARD session has accepted, the
  splice of the connector writes to the same socket as well. `wire`, and with it
  SessionWire.WireOfRuns and SessionStream.ForwarderHears, has only the bytes that
  the server sends under the write lock and up to then.
* Real time: a sleep returns any remaining time that is not longer; nothing is
  claimed about when a task wakes up.
* The library splice that the server starts once a pair has been made.
* Frames from forwarder to server, which are sent in two separately locked parts.
* Failing allocations in the token list and the address list, which silently skip
  an entry; failing copies of the parsers' input.
* `inet_pton`, `atoi` and `htons` are arbitrary functions; `strtoul` is only
  applied to text that starts with digits.
* Socket, DNS, TLS, terminal and process set-up, what the program does with its
  options outside the filter, logging, and the object boilerplate.
* Pointers into argv: getopt's `optarg` is kept as the text that it points to.
* The handle-to-socket direction and the reference count of the Windows bridge.
* The version byte of a message, which the forwarder does not look at.
* SessionStream.ForwarderHears: does not say what is heard behind a first cut of
  more than one byte, or on a connection whose TOKEN was cut short, because that
  depends on the bytes of the tokens.
* Splice.UsSplice: requires a buffer with capacity or an abort, because without
  either the loop does not end.
