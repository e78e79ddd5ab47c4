# Verification of wireproxy-awg

This Dafny project models the parts of wireproxy-awg whose correctness is hard to see by reading
one function, and proves what they promise.

**The UDP session table** (`UdpSessions`, `UdpInvariant`, `UdpSafety`, `UdpTraffic`, `UdpLiveness`,
`UdpAtomic`, `UdpEnding`, `UdpDelivery`, `UdpActivity`, `UdpProxy`). A reader goroutine, a sweeper goroutine and one handler goroutine per
session share a map, a mutex, and each session's close channel, connection and activity stamp.
`UdpSessions` is a machine with a program counter per goroutine; one event is one shared access of
one goroutine, so every interleaving is a run. Closes are counted instead of forbidden, so that
closing a closed channel is possible in the model and has to be excluded by proof. The stores to
`lastActive` outside the lock are single steps, and the clock never goes back. `UdpProxy` holds the
closures as methods of one object that updates its fields in place; each is proved to leave behind
a state that the machine reaches.

**The AmneziaWG parameter pipeline** (`Text`, `Decimal`, `UintRanges`, `Machine`, `Base64`, `Hex`,
`Keys`, `AwgConfig`, `AwgParse`, `IpcLines`, `AwgIpc`, `IpcRequest`, `IpcReader`, `IpcRoundTrip`,
`CommaLists`, `Endpoints`, `ConfigFile`, `Pipeline`, `SectionText`, `FileText`, `FileToDevice`,
`RequestLines`, `BrokenLines`). From the sections of a configuration file,
through the parser and the validator, to the text that configures the device, and back through a
line reader that shares no code with the writer: it splits lines, splits keys from values, and
parses numbers, ranges and switches. Go's `int` is modelled on both its widths, with wrap-around.

**Health, metrics and the HTTP proxy** (`Health`, `HealthHistory`, `HealthServer`, `Metrics`, `BasicAuth`,
`HttpProxy`). The liveness records as a machine with ping goroutines and /readyz requests, and the
code around them as methods of one object that are runs of that machine; the /metrics filter as a
text transformation; Basic authentication on top of the base64 model, and the ownership of dialled
peers.

The INI library, the resolver of a host, and address and prefix parsing are function parameters;
dials, reads, writes and the clock are events with all their outcomes.

## Where the code and its documentation differ

The model follows the code.

- The documentation says that S1 + 148 must differ from S2 + 92 (README.md:109). The validator
  compares only paddings that are set. `AwgConfig.UnsetPaddingIsSkipped` gives an accepted
  configuration in which initiation and response packets have the same size on the wire, and
  `AwgConfig.WireSizesExactly` says exactly when an accepted configuration has distinct sizes.
- The validator adds in a machine `int`. Acceptance still implies distinct true sizes, but the sum
  may wrap and refuse sizes that differ by exactly 2^32 or 2^64 (`AwgConfig.SizeCheckExactly`,
  `AwgConfig.WrapCanRefuse`).
- The documentation says that /readyz answers 503 only if no pong came within CheckAliveInterval + 2
  seconds, and 200 otherwise (README.md:337). Records are cut to whole seconds, so a pong inside the
  window can be answered 503 (`Health.TruncationCanReject` is such a run); `Health.CheckPassesExactly`
  gives the exact condition. A 200 speaks about when a pong was stored, which may be later than when
  it was received (`Health.LateStoreStillReady` is such a run). A pong is within the window at every
  check its record passes if and only if it was received in the whole second it was stored in
  (`Health.ReceivedInTimeExactly`); `Health.ReadyMeansReceived` and `Health.LateReplyAnsweredReady`
  are the two halves for whole runs.
- The /metrics loop writes no newline after a line without `=`, so such a line swallows the next one
  (`Metrics.LinesMerge`). The body shows the lines of the dump if and only if no such line comes
  before another nonempty line (`Metrics.BodyKeepsLinesExactly`).
- A text containing a newline breaks the request. I1-I5 come from the file unchanged, and so do the
  port text of an endpoint, which `resolveIPPAndPort` does not check, and the zone of an IPv6
  address. `IpcRoundTrip.RoundTripExactly` and `FileToDevice.FileReachesDevice` state the exact
  condition. When it fails, the device may silently read something else than the file says:
  `BrokenLines.NewlineInI1SetsI2` and `BrokenLines.NewlineInPortAddsAllowedIP` say what, and
  `BrokenLines.AcceptedFileWithALineInI1` and `BrokenLines.AcceptedFileWithALineInPort` (with
  `BrokenLines.SuchAnEndpoint`) are accepted inputs.
- Basic authentication accepts credentials with or without the word "Basic ", and never accepts a
  configured user name with a colon (`BasicAuth.AcceptedExactly`).

## Model

| member | source | states |
|---|---|---|
| UdpInvariant.StepInv | udp_proxy.go:39-177 | every step of every goroutine keeps the protocol invariant: who holds the lock, which sessions the map holds and under which key, when a channel is open, where each goroutine may stand |
| UdpInvariant.ReachableInv | udp_proxy.go:35-178 | the invariant holds in every reachable state of every interleaving |
| UdpSafety.OpenExactlyWhenMapped | udp_proxy.go:39-54 | with the lock free a session's channel is open if and only if the map holds that very session under its source; no channel and no connection is ever closed twice |
| UdpSafety.CloseRunsOnOpenChannel | udp_proxy.go:39-45 | whenever a step closes a channel, it was open, its session was still in the map, and the sweeper or the session's own handler held the lock |
| UdpSafety.ConnClosedByOwnHandlerAfterRemoval | udp_proxy.go:135-138 | a remote connection is closed only by its own handler, once, after the session left the map and its channel was closed |
| UdpSafety.HandlerTouchesOnlyItsSession | udp_proxy.go:47-54 | no step of a handler changes another session or its map entry, also when that session was created later for the same source |
| UdpSafety.StepEffect | udp_proxy.go:39-177 | which events can change a session's close counts, and which can remove its map entry |
| UdpSafety.GoneStaysGone | udp_proxy.go:47-104 | over any run a session that left the map never returns and a closed channel never reopens |
| UdpSafety.SweepRemovesExactlyIdle | udp_proxy.go:61-72 | when a sweep taken at `now` ends, every mapped session was active within the timeout before `now`, and every session idle for the timeout is closed, out of the map, and stays so in every continuation |
| UdpSafety.CondemnedAfterALook | udp_proxy.go:64-69 | the stamp for which a sweep deletes a session was read from that session earlier in the same sweep |
| UdpSafety.RemovalHasACause | udp_proxy.go:47-74 | a session leaves the map only through its own handler's exit, or through a sweep with a positive timeout whose threshold it met when looked at |
| UdpTraffic.ClientTrafficConserved | udp_proxy.go:77-129 | for every client and every run: the writes attempted on its sessions' connections in creation order, plus the datagram in flight, are its datagrams in arrival order without those whose dial failed |
| UdpTraffic.RepliesGoToTheirClient | udp_proxy.go:148-176 | every reply goes to the key of the session it was read from; the replies are a prefix of what was read, at most one payload behind, and complete while the handler waits |
| UdpLiveness.ClosedSessionEnds | udp_proxy.go:134-178 | once its channel is closed, a handler forwards at most one more payload and takes at most 13 more steps, whatever the remote side sends |
| UdpLiveness.HandlerIsNeverStuck | udp_proxy.go:141-159 | a handler that has not ended can move, or waits for a held lock, or waits in Read for at most five more seconds |
| UdpLiveness.ReaderIsNeverStuck | udp_proxy.go:77-129 | the main loop moves, or waits for a datagram or a held lock |
| UdpLiveness.OwnerCanMove | udp_proxy.go:47-104 | the owner of the lock is never blocked |
| UdpLiveness.LockIsReleased | udp_proxy.go:47-104 | each step of the owner unlocks or strictly decreases a rank that no other goroutine can change, so every critical section ends |
| UdpEnding.LockGetsFree | udp_proxy.go:47-104 | from every reachable state with the lock held by somebody else, the machine leads to a free lock at the same time, without moving the given session |
| UdpEnding.ClosedSessionCanEnd | udp_proxy.go:134-178 | from every reachable state in which a session is closed, whoever holds the lock and wherever its handler stands, the machine leads to the end of the handler and the close of its connection at most five seconds later |
| UdpDelivery.WriteAfterCloseHasACause | udp_proxy.go:117-124 | when the session that the reader got under the lock is later found with its connection closed, then after the unlock its own handler took it out of the map, or a sweep did whose time is at least the timeout after the stamp set under the lock |
| UdpActivity.HandlerLeavesForACause | udp_proxy.go:141-177 | a handler leaves its loop only when its channel is closed or a read, a resolution or a write fails |
| UdpActivity.OpenHandlerGoesOn | udp_proxy.go:152-157 | on an open channel a read that times out and a payload that is delivered lead back to the top of the loop |
| UdpActivity.FailureEndsTheLoop | udp_proxy.go:160-176 | a failing read, resolution or write always ends the loop |
| UdpActivity.StampedExactly | udp_proxy.go:83-164 | the stamp of a session is set to the time of the step when it is found, created, before each write and after each read, and by no other step |
| UdpActivity.TimeoutTakesFiveSeconds | udp_proxy.go:148-152 | in every run a read times out only five seconds after the deadline was set |
| UdpActivity.SweepHasATime | udp_proxy.go:61-63 | in every run the time of a sweep is the time at which its tick came, before the lock |
| UdpActivity.StampCoversActivity | udp_proxy.go:82-164 | at every point of every run the stamp of a client's session is at least the time of every datagram of the client that the reader is done with and of every payload that its handler has picked up |
| UdpActivity.SweptSessionWasSilent | udp_proxy.go:61-70 | a session that a sweep deletes had, when the sweep looked at it, no datagram and no payload within InactivityTimeout seconds before the sweep |
| UdpAtomic.RemovedIsARun | udp_proxy.go:47-54 | removeSession by an exiting handler, alone, is a run of the machine that removes its own entry and leaves a newer session's entry in place |
| UdpAtomic.SweptSplit | udp_proxy.go:64-70 | sweeping one key and then the others is sweeping all of them, so the order of map iteration does not matter |
| UdpAtomic.SweepIsARun | udp_proxy.go:61-72 | a whole sweep, alone, is a run that closes and deletes the idle sessions and no others |
| UdpAtomic.RelayedIsARun | udp_proxy.go:109-128 | one turn of the main loop, alone, is a run that writes the datagram to its client's session, to a new one, or drops it with the failed dial |
| UdpAtomic.HandledIsARun | udp_proxy.go:141-177 | one turn of the handler loop, alone, is a run, for every outcome of the read, the resolution and the write |
| UdpProxy.Proxy.constructor | udp_proxy.go:35-37 | the initial object is the machine's initial state and satisfies the invariant |
| UdpProxy.Proxy.CloseSessionChan | udp_proxy.go:39-45 | the channel is closed afterwards and has been closed once, however often this is called; nothing else changes |
| UdpProxy.Proxy.RemoveSession | udp_proxy.go:47-54 | reaches the state of `Removed`: the session is closed and out of the map, and every other entry stays, an entry of a newer session included |
| UdpProxy.Proxy.SweepSessions | udp_proxy.go:64-70 | the loop over the map, in any order, leaves exactly the sessions that were not idle at `now` and has closed the channels of the idle ones |
| UdpProxy.Proxy.Sweep | udp_proxy.go:61-72 | reaches the state of `Swept`: exactly the sessions stamped within InactivityTimeout seconds stay, under their keys |
| UdpProxy.Proxy.Relay | udp_proxy.go:77-128 | a turn of the main loop reaches the state of `Relayed`: the client has a session unless its dial failed, stamped with the time and with the payload written last; no other session changes and a failed dial changes none |
| UdpProxy.Proxy.HandleOnce | udp_proxy.go:141-177 | one turn of the handler loop reaches the state of `Handled`; it goes on exactly when the channel is open and the read timed out or its payload was delivered; a timeout changes no session, a payload stamps, logs and forwards on this session alone |
| Text.SplitJoin | config.go:156-179 | splitting a join at a separator that occurs in no part gives back the parts |
| Text.JoinSplit | routine.go:353-353 | joining what Split returns gives back the text |
| Text.TrimSpaceAround | awg_config.go:415-416 | trimming removes exactly the white space around a trimmed text |
| Text.AsciiSpaces | config.go:165-212 | which ASCII characters are white space |
| Decimal.PrintExamples | awg_config.go:67-72 | numbers are written in base ten, most significant digit first |
| UintRanges.ParseExactly | awg_config.go:415-449 | a text parses to a range if and only if, after trimming, it spells that range: one number, or two numbers in order around a dash, each below 2^32 |
| UintRanges.ShowParse | awg_config.go:67-72 | parsing a printed range returns it when min <= max, and is refused as inverted otherwise, for all 32-bit bounds |
| UintRanges.ParseShowStable | awg_config.go:67-72 | every accepted text gives min <= max, and printing and parsing again gives the same range |
| UintRanges.ParseNormalises | awg_config.go:415-449 | surrounding white space and leading zeros do not change the range, and a-a and a are the same |
| Base64.DecodeEncode | config.go:145-149 | base64 decoding inverts encoding for all byte strings (section 4 of RFC 4648) |
| Base64.DecodeExactly | config.go:145-149 | a text decodes to given bytes if and only if, without its line breaks, it is their encoding up to the bits that the padding leaves unused |
| Base64.Alphabet | config.go:145-149 | the digits of the alphabet of section 4 of RFC 4648, each at its place |
| Base64.OnlyAlphabet | config.go:145-149 | no other character is a digit, only the equals sign pads, only line breaks are skipped |
| Base64.TestVectors | config.go:145-149 | the first test vectors of section 10 of RFC 4648 |
| Hex.DecodeEncode | config.go:153-153 | hex decoding inverts encoding, which has two lower-case digits per byte (section 8 of RFC 4648) |
| Hex.OneByte | config.go:153-153 | a byte is written as its high and its low digit out of 0123456789abcdef |
| Keys.KeyRoundTrip | config.go:145-154 | for every 32-byte key, the hex form of its base64 text decodes to the key |
| Keys.ToHexExactly | config.go:145-154 | a text is accepted with result h if and only if h is 64 lower-case hex digits that decode to the same bytes as the base64 text |
| AwgConfig.OverlapSharesValue | awg_config.go:481-492 | two ordered intervals overlap by the comparison of the code if and only if they share a 32-bit value |
| AwgConfig.HasOverlap | awg_config.go:481-492 | the nested loops report an overlap if and only if some pair overlaps; for ordered intervals, if and only if some value lies in two of them |
| AwgConfig.SizesCollide | awg_config.go:352-371 | the nested loops over the set paddings report a collision if and only if two padded machine sizes are equal |
| AwgConfig.Validate | awg_config.go:321-400 | returns the first violated condition in the order of the source, and none for a missing configuration |
| AwgConfig.FirstProblem | awg_config.go:321-400 | there is no problem if and only if all declarative conditions hold |
| AwgConfig.ProblemExactly | awg_config.go:321-479 | the first problem with every bound written out: Jc within 1 to 128, Jmin at most Jmax, Jmax at most 1280, sizes 148, 92, 64 and 32 plus paddings, default headers 1 to 4, paddings of at least 12 under a protection key |
| AwgConfig.NoAmbiguousType | awg_config.go:451-492 | for ordered effective intervals, defaults included, the pairwise comparisons find no overlap if and only if no 32-bit message type lies in two of them |
| AwgConfig.SizeCheckExactly | awg_config.go:336-371 | the size check passes if and only if the true sizes of set paddings differ, and not by exactly 2^32 or 2^64 |
| AwgConfig.WrapCanRefuse | awg_config.go:336-371 | two paddings with different true sizes that the wrapped sums refuse |
| AwgConfig.ProtectedPackets | awg_config.go:383-397 | with a protection key all four paddings are set, at least 12, and give distinct true packet sizes |
| AwgConfig.UnsetPaddingIsSkipped | awg_config.go:352-358 | an accepted configuration whose initiation and response packets have the same size |
| AwgConfig.WireSizesExactly | awg_config.go:352-358 | all four wire sizes of an accepted configuration are distinct if and only if no padded size equals the bare size of an unpadded kind |
| AwgParse.ParseTimings | awg_config.go:264-289 | the loop over the table of range keys gives every setting, or the first error, and allocates a configuration only when a key is present |
| AwgParse.ParseSwitches | awg_config.go:291-312 | the loop over the table of switches does the same |
| AwgParse.ParseASecConfig | awg_config.go:74-319 | the result is what the section says, missing when nothing is set, or the first error of reading or validation |
| IpcLines.ReadRender | wireguard.go:51-182 | reading lines of keys and values gives back the pairs that were written, when keys have no equals sign and nothing has a newline |
| IpcRequest.ParsedRangeSurvives | wireguard.go:25-45 | a range from the parser reaches the request unchanged on both widths, although its `int` copy is negative on 32 bits |
| IpcRequest.HandBuiltRange | wireguard.go:25-45 | without a stored range a peer is refused if and only if a bound is not a uint32; otherwise the bounds are those of the `int` fields, the maximum raised to the minimum |
| IpcRequest.EmittedRangeOrdered | wireguard.go:25-45 | an emitted range has min <= max |
| IpcRequest.StoredRangeAgrees | wireguard.go:25-45 | where an `int` can hold it, the stored range and the `int` fields give the same result |
| IpcRequest.WriteSettings | wireguard.go:57-153 | appends exactly the 25 optional lines in their fixed order |
| IpcRequest.WriteAllowed | wireguard.go:172-181 | appends one line per allowed IP in order, or the two default ones |
| IpcRequest.WritePeers | wireguard.go:155-182 | appends the blocks of all peers in order, or stops with the first peer's keepalive error |
| IpcRequest.CreateIPCRequest | wireguard.go:48-186 | the text is the rendering of the interface fields followed by the peer blocks, or the first keepalive error |
| RequestLines.PeerTextExactly | wireguard.go:155-181 | the text of a peer block, line by line, with the two default allowed IPs written out |
| RequestLines.SettingLines | wireguard.go:62-126 | the names and values of the first 17 setting lines in order |
| RequestLines.TimingLinesOf | wireguard.go:127-150 | the names and values of the last 8 setting lines in order |
| RequestLines.ValueTexts | wireguard.go:51-150 | numbers are written in decimal, ranges as one or two numbers, switches as true or false |
| RequestLines.RequestTextExactly | wireguard.go:48-186 | the whole text: private key, port if any, the lines of the settings, the blocks of the peers in order |
| IpcReader.InterfaceKnown | wireguard.go:51-153 | every interface line has a known key and none of them is public_key, so all of them precede the first peer |
| IpcReader.AddPeers | wireguard.go:155-182 | reading the peer blocks gives the peers in order, each with its effective keepalive and at least one allowed IP |
| IpcReader.ReadInterface | wireguard.go:51-153 | reading the interface lines gives back the private key, the port and all 25 settings |
| IpcRoundTrip.RoundTripExactly | wireguard.go:48-186 | the request reads back as the configuration, for any number of peers and allowed IPs, if and only if no text has a newline and no interval is inverted |
| IpcRoundTrip.ReadIsSafe | wireguard.go:48-186 | whatever the text, nothing read from it has a newline or an inverted interval |
| IpcRoundTrip.RequestRefusedExactly | wireguard.go:155-160 | a request is refused if and only if some peer has no valid keepalive |
| CommaLists.ParseList | config.go:156-237 | the loop gives the items of the nonblank parts in order, or fails |
| CommaLists.JoinedListParses | config.go:156-237 | items joined by commas, with any white space around them and blank segments between them, parse to exactly those items in order |
| CommaLists.ValuesFail | config.go:156-237 | the list fails if and only if some nonblank item fails |
| CommaLists.EveryTextIsAJoin | config.go:156-237 | every text is such a join, so the two statements above cover all inputs |
| CommaLists.ListExactly | config.go:156-237 | a text is read as a list of values if and only if it is a comma-separated list, with any spaces and blank segments, whose items parse to those values in order |
| CommaLists.PlainList | config.go:156-237 | of items joined by commas, the i-th value is what the i-th item parses to |
| ConfigFile.ParsePeer | config.go:335-383 | one peer section gives its keys, endpoint, keepalive and allowed IPs, or the first error in the order of the source |
| ConfigFile.ParsePeers | config.go:328-386 | all peers in order, the first error, or an error when there is no peer section |
| Endpoints.SplitHostPortExactly | config.go:243-247 | a text splits into host and port if and only if it spells them, plainly or with a bracketed host; the port text is unconstrained apart from colons and brackets |
| Endpoints.SplitJoined | config.go:243-254 | joining a host and a port and splitting again gives them back, IPv6 literals included |
| Endpoints.ResolvedLine | config.go:243-254 | a resolved endpoint fits on a line if and only if its port text and its zone have no newline |
| ConfigFile.ParseInterface | config.go:257-325 | the loop-free reading of the one interface section gives what `InterfaceOf` says, or its error |
| FileText.StringAtExactly | config.go:86-104 | a missing key is an empty text, $$ at the start stands for a dollar, $NAME for a variable or an error, anything else for itself |
| FileText.KeepaliveExactly | config.go:363-376 | the keepalive of a section is none if and only if the key is absent, a range if and only if the text denotes it, or 0 for "off" in any case |
| FileText.EndpointExactly | config.go:352-361 | an endpoint is accepted if and only if its lower-cased text spells a host that resolves and a port, and it is then the resolved address with its zone, in brackets if it has a colon, and that port |
| FileText.AddressItem | config.go:198-208 | an item of Address is an address, or else a prefix that stands for its address |
| FileText.BasicsExactly | config.go:264-316 | an interface section is read as given fields if and only if each is what its own key says: Address, DNS and CheckAlive in list order, MTU or 1420, ListenPort or none, CheckAliveInterval or 5 and only with an address, PrivateKey |
| FileText.InterfaceExactly | config.go:257-325 | a file has a given interface if and only if it has one interface section, read as above, with accepted settings |
| FileText.PeerErrorNames | config.go:335-383 | a refused peer section is refused for its first bad key in the order PublicKey, PreSharedKey, Endpoint, PersistentKeepalive, AllowedIPs |
| FileText.InterfaceErrorNames | config.go:264-316 | a refused interface section is refused for its first bad key in the order Address, PrivateKey, DNS, MTU, ListenPort, CheckAlive, CheckAliveInterval |
| FileText.SettingsComeLast | config.go:318-322 | the AmneziaWG settings are looked at after all of these |
| ConfigFile.ParseDevice | config.go:571-579 | the interface and the peers of a file, or the first error |
| Wrappers.CollectExactly | config.go:328-386 | accumulating over sections succeeds with a list if and only if each section gives the element at its position |
| Pipeline.NothingSetExactly | awg_config.go:74-76 | a configuration is the empty one if and only if none of its 25 fields is set |
| Pipeline.LinesOfSection | wireguard.go:57-153 | the request has exactly one line per present key, with the canonical text of its value, in fixed order, none for an absent key; there is no configuration if and only if none of the 25 keys is present |
| Pipeline.ProtectedFile | awg_config.go:383-397 | an accepted file with a header protection key has S1-S4 present, each at least 12, with distinct packet sizes |
| SectionText.SettingsExactly | awg_config.go:74-319 | a section is read as given settings if and only if each of the 25 is what its own key says: the number, the range its text denotes, the text, the bytes of the base64 key, the switch, or nothing without the key |
| SectionText.SettingsRefusedExactly | awg_config.go:74-312 | reading fails if and only if one of the 25 keys is present with an unreadable value, and the error names the first such key |
| FileToDevice.WritableExactly | awg_config.go:213-251 | the settings read from a section fit on their lines if and only if none of I1-I5 has a newline |
| FileToDevice.PeerReaches | config.go:328-386 | what the device reads for a parsed peer, in terms of the texts of its section: the bytes of the base64 keys, 32 zero bytes without a preshared key, the resolved endpoint, the range that the keepalive text denotes or 0, and the prefixes of the list in order or 0.0.0.0/0 and ::0/0 |
| FileToDevice.PeerAcceptedExactly | config.go:335-383 | a peer section is accepted if and only if its texts say a peer |
| FileToDevice.FileAcceptedExactly | config.go:257-386 | a file is accepted if and only if it has one interface section that says an interface and settings without a problem, and at least one peer section, each saying a peer |
| FileToDevice.EndpointTextExactly | config.go:352-361 | where only a zone can carry a newline of a host through resolution, an accepted endpoint fits on its line if and only if its text in the file has no newline |
| FileToDevice.FileReachesDevice | wireguard.go:48-186 | every accepted file gives a request, and the device reads from it all that the texts of the file say, every key, port, setting and peer, if and only if none of I1-I5, no port text and no resolved zone of an endpoint has a newline |
| BrokenLines.NewlineInI1SetsI2 | wireguard.go:57-153 | for every accepted file whose I1 is x, a newline and i2=y, the device reads I1 = x and I2 = y, and everything else as the file says |
| BrokenLines.NewlineInPortAddsAllowedIP | wireguard.go:155-182 | for every accepted file in which an endpoint resolves to e, a newline and allowed_ip=ip, the device reads endpoint e and one more allowed IP for that peer, and everything else as the file says |
| BrokenLines.AcceptedFileWithALineInI1 | awg_config.go:213-251 | a file with just a private key and such an I1 is accepted, has no I2, and is read back with one |
| BrokenLines.AcceptedFileWithALineInPort | config.go:243-254 | a file with an accepted interface and one peer with such a port text is accepted, has no allowed IP, and is read back with one besides the defaults |
| BrokenLines.SuchAnEndpoint | config.go:243-254 | the endpoint 1.2.3.4:51820 with a newline and an allowed_ip line after its port is such an endpoint |
| Health.StepInv | routine.go:324-476 | every step keeps the invariant: the keys of the records, a stored matching reply behind every nonzero record, fresh replies behind every passed check |
| Health.RecordKeysFixed | routine.go:465-468 | after initialisation the records are those of the CheckAlive addresses in every reachable state |
| Health.RecordsNeverDecrease | routine.go:458-460 | no record decreases over any run |
| Health.ReadyMeansAlive | routine.go:324-344 | a 200, asked later than one window after the epoch, implies for every address a stored reply, stored within CheckAliveInterval + 2 seconds before its record was checked |
| HealthHistory.PingHistory | routine.go:375-461 | in every run a stored reply was received by an event that repeats the sequence number and the data of the request, at the time the ping notes, and its store set the record of its address to that time in whole seconds |
| Health.ReceivedInTimeExactly | routine.go:333-340 | a reply is within the window at every check its record passes if and only if it was received in the whole second it was stored in, or no check after the store can pass |
| Health.ReadyMeansReceived | routine.go:324-344 | when every stored reply of an address was received in the second it was stored in, a 200 implies a reply of it received within the window before its check |
| Health.LateReplyAnsweredReady | routine.go:415-461 | from every reachable state whose record of an address comes from a reply that was not, and is its latest, the machine leads to a 200 with no reply of that address received within the window, while that record can still pass and no other is older |
| Health.ReadyBoundsTheRequest | routine.go:402-461 | with a bound on the time from reply to store, a 200 bounds the age of a reply by the window and that time, and the age of its request by CheckAliveInterval more |
| Health.FreshRecordsAnswerOk | routine.go:332-342 | a request that finds no record stale leads to a 200 |
| Health.CheckPassesExactly | routine.go:333-340 | a check passes if and only if some matching reply was stored in a second that began within the window |
| Health.TruncationCanReject | routine.go:333-340 | a run that ends in a 503 although its only ping was stored within the window before the request |
| Health.LateStoreStillReady | routine.go:415-461 | a run that ends in a 200 although no reply was received within the window |
| HealthServer.VirtualTun.StartPingIPs | routine.go:465-468 | the loop leaves the initial state of the machine, with record 0 for exactly the CheckAlive addresses |
| HealthServer.VirtualTun.Pong | routine.go:416-461 | a ping goroutine from its read to its end is a run of the machine: a reply equal to the request in sequence and data is stored in whole seconds, any other outcome leaves the records alone |
| HealthServer.VirtualTun.Readyz | routine.go:332-342 | the loop, reading the clock anew for each record, is a run of the machine: 200 only if every record was at most CheckAliveInterval + 2 seconds old at its own time, 503 only if one was older |
| Metrics.WriteLine | routine.go:354-365 | one line of the dump becomes its redacted form and a newline, or itself when it has no equals sign |
| Metrics.Filter | routine.go:352-366 | the loop builds the concatenation of what each line becomes |
| Metrics.RedactExactly | routine.go:354-365 | a line of private_key or preshared_key becomes that key and REDACTED, every other line stays, also with equals signs in its value |
| Metrics.SecretsHidden | routine.go:352-366 | for every well-formed dump the body has its nonempty lines in order, private_key and preshared_key showing REDACTED and every other line as it is, each ended by a newline |
| Metrics.NonEmptyOfAll | routine.go:353-353 | of a dump without blank lines every line counts |
| Metrics.BodyKeepsLinesExactly | routine.go:352-366 | the body has the nonempty lines of the dump, redacted and in order, if and only if no line without an equals sign comes before another nonempty line |
| Metrics.LinesMerge | routine.go:355-358 | for every line without an equals sign followed by one with it, the body has the two as one line |
| Metrics.WellFormedBody | routine.go:352-366 | when every nonempty line has an equals sign, the body is exactly the redacted nonempty lines, each ended by a newline |
| Metrics.MetricsTwice | routine.go:352-366 | filtering such a dump a second time changes nothing |
| BasicAuth.OpenProxy | http.go:27-29 | without a configured user name and password every request is accepted |
| BasicAuth.AcceptedExactly | http.go:26-49 | with a user name or a password configured a header is accepted if and only if, after an optional "Basic ", it is base64 for the configured pair joined by a colon and the configured user name has no colon |
| BasicAuth.StandardHeader | http.go:26-49 | the header of section 2 of RFC 7617, for any colon-free user and any password, colons included, is accepted if both equal the configured pair and gets 401 otherwise |
| BasicAuth.RejectionCodes | http.go:31-48 | each of 407, 406, 411 and 401 is returned for exactly its kind of header |
| HttpProxy.DefaultPort | http.go:51-77 | a host without a port is dialled at port 443 for CONNECT and at port 80 otherwise |
| HttpProxy.NamedPort | http.go:51-77 | a host that names its port is dialled as it is |
| HttpProxy.Server.Connect | http.go:51-92 | a peer that is returned is open and at the target; one that was dialled and is not returned is closed |
| HttpProxy.Server.Serve | http.go:94-142 | on every path no peer stays with the handler: one is dialled only for a request that was read and authenticated, never without a header when credentials are configured, and is then closed or handed to the two copying goroutines |

## Left out

- Sockets, listeners, DNS and TLS: dials, reads and writes are events with all their outcomes.
- The AmneziaWG device, the network stack and the SOCKS5 library: only the text sent to the device and the dump received from it are modelled.
- The INI library: a section is a map from key to text, looked up by exact name, and its number and switch readers are parameters.
- Address and prefix parsing, host resolution: partial functions from text to a printed value; FileToDevice.FileReachesDevice asks of them only that printed IP addresses and prefixes have no newline.
- TCP tunnels, the SOCKS5 server, HTTP responses and the other routine parsers: copying and concatenation that would only add easy members.
- Copying of data through a proxied connection, and the close of the client's connection: only the ownership of the dialled peer is modelled.
- The command line program: operating system calls and setup.
- ICMP marshalling, address families and random choice: a reply either matches in sequence and data or does not.
- Error messages: an error is a constructor that says which check failed and on which key.
- Data races in the Go memory model: `lastActive` stores outside the lock and reads of the ping records without their lock are single steps.
- The 10-second ticker: a sweep may begin whenever the sweeper waits, so the results hold for every schedule of sweeps.
- Overflow of durations beyond 64 bits, and machine time that goes back.
- AwgConfig.Validate: the fields of the source's struct are grouped into records and its "set" flags are options, so a struct whose flags disagree with its pointers is not modelled.
- IpcRequest.EmittedRangeOrdered: assumes a stored range to be in order, as the parser leaves it; the field cannot be set from outside its package.
- ConfigFile.ParseDevice: starts from the sections of a loaded file; which file WGConfig names is not modelled.
