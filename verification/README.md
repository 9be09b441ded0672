# Verification of the SPA gate

A Dafny 4.11 model of the gate that keeps TCP ports invisible until a client sends one
authenticated UDP packet (a *knock*), with proofs about whole runs of it. `dafny verify
dfyconfig.toml` checks the project; it needs nothing but Dafny.

## What is modelled

| File | Contents |
|---|---|
| `Wire.dfy` | the authorization's byte layout, its encoder and its cursor-driven decoder |
| `Envelope.dfy` | sealing and opening around abstract primitives with correctness contracts |
| `Frame.dfy` | Ethernet frames as byte sequences, the XDP parser, 16-byte address keys |
| `DataPlane.dfy` | the XDP program over its maps: grants, flow table, size filter, limiter |
| `Core.dfy` | the ordered checks of one `admit` and the phases between its shared accesses |
| `Adapters.dfy` | pruned replay cache, hot-swappable trust store, allow-list writer |
| `Gatekeeper.dfy` | `admit` and the bundle reload as the sequential programs they are |
| `System.dfy` | the transition system in which knock loop, watcher and data plane interleave |
| `Admission.dfy`, `Reload.dfy` | the steps, run without interruption, are those programs; what a sealed knock then gets |
| `Serving.dfy`, `EndToEnd.dfy` | one `admit` spread over a run; from the knock on the wire to a living connection |
| `NonBypass.dfy` … `Junk.dfy` | the other theorems about runs, one file per subject |

Each stateful component appears twice: as a class whose methods follow the program, and as
the pure functions their contracts equate the new state with. `System.Step` is built from
those functions, and `Admission.AdmitIsTheProgram` and `Reload.ReloadIsTheProgram` put them back
together: an uninterrupted `admit` or reload does what the method's contract says. One `admit` is six
steps (screening, client table, token table, replay decision, token consumption, grant),
because the watcher can swap a table between any two; a reload is one step per table and per
port. An event carries what the environment chooses: packets, both clocks, bundles, evictions,
and whether the kernel accepted a map write whose result the program ignores.

The lemmas named `…Exactly` (and `FlagsAreBits`, `ParseReads`, `ClassifyReads`, `DecodingErrors`) state each
decision the rest builds on in literal numbers, byte offsets, table fields and primitive calls, without
the functions that compute it.

Main results: a packet reaches a protected port only along an unbroken trail that an authentic,
permitted opening under 30 s old started (`NonBypass`); no authorization opens twice while the
clocks drift apart by less than 1 s, and the exact bound for every configured skew
(`ReplaySafety`, `ReplayBound`); a sealed, expected knock lets its client's connection in (`EndToEnd`);
one-time tokens are conserved under every interleaving (`Tokens`); revocation holds against
rollback (`Revocation`); a refused knock leaves no trace (`Junk`); the lossy flow table only
closes, and the exact way it can open (`Flows`, `Reopening`); the limiter's exact bound over any
interval (`RateBound`); the codec is a canonical
bijection (`Wire`).

## Premises

- One XDP packet is one atomic step, and monotonic time does not decrease along a run.
- Opening the gate reads the clock and writes ALLOW in one step. The code reads first and inserts
  later; runs in which packets fall in between are outside the model.
- Claims are per daemon process: the replay cache, burned tokens and the applied generation do
  not survive a restart.
- The primitives meet `Envelope.Correct`: key agreement commutes, opening undoes sealing, the tag
  adds 16 bytes, matching signatures and MACs verify. Nothing is assumed about secrecy.
- PROTECTED refuses an insertion only when its 64 entries are taken; ALLOW (1024 entries) may
  also fail for other reasons. Removals of present keys succeed.
- A frame carries no trailer where the size filter is concerned.

## Where the code departs from its description

The model follows the code.

- An opening lasts the constant 30 s of spa-gated/src/main.rs:37; DESIGN.md describes a
  configurable sub-second pinhole.
- Established flows are remembered by the program's own LRU map, not by kernel connection tracking.
- ALLOW is a plain hash map that nothing reaps. Once 1024 sources hold an entry, expired or not,
  a new source's knock is answered as opened while its packets are dropped
  (`AllowList.FullListShutsNewcomersOut`).
- A reload inserts before it removes and ignores failures, so it equals a full replacement exactly
  when old and new ports fit PROTECTED together; otherwise a new port stays uncloaked, and is not
  retried while it remains listed (`Gatekeeper.Watcher.Reload`, `Revocation.MissedPortStaysUncloaked`).
- Eviction only closes except after a granted, recorded SYN with FIN or RST on a flow the evicting
  table lost and the unbounded one still tracks: `Flows.GateKeepsCover` and, over runs,
  `Flows.CoverLastsUntilBroken` say exactly when, `Reopening.EvictionCanOpenInARun` gives the run.
- A burned token that a later bundle still lists is installed afresh and opens once more
  (`Admission.BurnedTokenOpensAgain`); token conservation therefore counts installs.
- A FIN or RST that arrives while its port is unprotected passes ungated and leaves the flow tracked
  (`NonBypass.CloseCountsIffProtected`); the non-bypass trail speaks of the packets that arrive while
  the port is protected.

A note on arithmetic: the product `skew_seconds * 2 + 1` is an unchecked u64 one, but TOML integers
are signed 64-bit, so no configuration file makes it wrap, and replay safety needs no premise on the
window (`ReplaySafety.LoadedGateOpensOnce`). The results on wrapped windows
(`ReplayBound.WrappedWindowForgets`, the second half of `ReplayBound.ReplayBoundInSeconds`) concern
only a skew obtained some other way.

## Model

| member | source | states |
|---|---|---|
| Wire.SuiteFromByte | spa-common/src/lib.rs:40-53 | a byte decodes to a suite exactly if it is that suite's byte; any other byte is reported back |
| Wire.SuiteBytes | spa-common/src/lib.rs:40-53 | 0x01 is Fips, 0x02 is Modern, any other byte is refused as itself |
| Wire.EncodeSigningBytes | spa-common/src/lib.rs:102-119 | produces the signing region, or the offending port count if it is 0 or above 8 |
| Wire.Encode | spa-common/src/lib.rs:122-126 | produces signing region and authenticator under the same condition |
| Wire.Reader.Take | spa-common/src/lib.rs:180-185 | either the next n bytes and an advanced cursor, or TooShort and no movement |
| Wire.ReadPreamble | spa-common/src/lib.rs:137-140 | the four fixed fields at their wire offsets, or TooShort |
| Wire.ReadPorts | spa-common/src/lib.rs:146-149 | the counted ports in order and the cursor behind them, or TooShort |
| Wire.Decode | spa-common/src/lib.rs:130-164 | the loop-and-cursor decoder computes the specified result on every buffer, error by error |
| Wire.SigningLayout | spa-common/src/lib.rs:74-79 | every field lies at its documented offset of the signing region |
| Wire.DecodeInvertsEncode | spa-common/src/lib.rs:122-164 | decoding an encoding returns the authorization, for every one with 1 to 8 ports |
| Wire.EncodeInvertsDecode | spa-common/src/lib.rs:130-164 | an accepted buffer is the encoding of what it decodes to |
| Wire.AcceptedIffEncoding | spa-common/src/lib.rs:130-164 | accepted buffers are exactly the encodings, of length 138 + 2n |
| Wire.TruncationAndExtensionRejected | spa-common/src/lib.rs:151-154 | every proper prefix of an encoding is TooShort, every extension TrailingBytes |
| Wire.DecodingErrors | spa-common/src/lib.rs:130-164 | exactly which buffers meet each error: version other than 1, count outside 1 to 8, too short, trailing bytes |
| Wire.DecodedFields | spa-common/src/lib.rs:136-161 | an accepted buffer's fields at their byte offsets, every port as two big-endian bytes |
| Wire.SigningBytesInjective | spa-common/src/lib.rs:99-119 | equal signing regions mean equal authorizations up to the authenticator, and conversely |
| Envelope.SealEnvelope | spa-crypto/src/lib.rs:442-473 | the growing-header program computes the specified envelope or fails with it |
| Envelope.Seal | spa-crypto/src/lib.rs:392-398 | overwriting the zero signature yields the specified signed knock, same errors |
| Envelope.SealPsk | spa-crypto/src/lib.rs:427-439 | the same for the MAC of a shared secret |
| Envelope.OpenInvertsSeal | spa-crypto/src/lib.rs:236-269 | the gate recovers exactly the authorization sealed to its public key, in either suite |
| Envelope.OpenExactly | spa-crypto/src/lib.rs:236-269 | a packet opens to given contents if and only if version, suite byte, agreement, 44 derived bytes split 32 and 12, associated data and decoding all agree, byte by byte |
| Envelope.ForeignPacketsStayShut | spa-crypto/src/lib.rs:238-246 | no packet of another version or suite opens |
| Envelope.HkdfInfoBinds | spa-crypto/src/lib.rs:102-120 | the derivation context determines suite and ephemeral key |
| Envelope.SealedExactly | spa-crypto/src/lib.rs:442-473 | the header and ciphertext of a sealed envelope, or the crypto error, byte by byte |
| Envelope.KnockExactly | spa-crypto/src/lib.rs:392-439 | which knocks cannot be encoded or signed, and the authorization sealed otherwise |
| Envelope.SignedKnockRoundTrip | spa-crypto/src/lib.rs:392-398 | a signed knock opens to exactly the request and its signature verifies |
| Envelope.PskKnockRoundTrip | spa-crypto/src/lib.rs:427-439 | a token knock opens to exactly the request and its MAC verifies |
| Envelope.OpenedIsWhatWasSigned | spa-crypto/src/lib.rs:246-268 | the bytes handed to the verifier are the signing region of the decoded authorization; packet length is 188 + 2n or 221 + 2n |
| Envelope.AuthenticatorPinsRequest | spa-crypto/src/lib.rs:260-268 | two opened packets share verified bytes exactly if they make the same request |
| Frame.Load | spa-ebpf/src/main.rs:263-272 | a read succeeds exactly if it lies in the frame, and has the asked length |
| Frame.FillMappedV4 | spa-ebpf/src/main.rs:250-259 | the filled buffer is the IPv4-mapped address |
| Frame.ParseInvertsFraming | spa-ebpf/src/main.rs:131-160 | addresses, protocol and L4 offset come back from IPv4 with any IHL and from IPv6 |
| Frame.ParseReads | spa-ebpf/src/main.rs:131-160 | which frames are located, and the byte offsets their addresses, protocol and L4 header are read at |
| Frame.ClassifyReads | spa-ebpf/src/main.rs:162-212 | a located packet is TCP or UDP by protocol 6 or 17 and length; its ports, flags and payload length by byte offset |
| Frame.FlagsAreBits | spa-ebpf/src/main.rs:94-97 | FIN, SYN, RST and ACK are bits 0x01, 0x02, 0x04 and 0x10 of the flag byte, whatever the others are |
| Frame.ClassifyTcp | spa-ebpf/src/main.rs:162-173 | a framed TCP segment is seen with exactly its addresses, ports and flags |
| Frame.ClassifyUdp | spa-ebpf/src/main.rs:199-212 | a framed datagram is seen with its source, port and payload length |
| Frame.TcpSeenIffFramed | spa-ebpf/src/main.rs:131-173 | a TCP packet is gated exactly if the frame is a framing of that packet |
| Frame.KeysAgree | spa-gated/src/adapters.rs:155-162 | the key the XDP program reads off a frame equals the daemon's key for the sender the socket reports, IPv4, IPv4-mapped or IPv6; no two IPv4 senders share a key |
| DataPlane.Grant.AllowsPort | spa-ebpf-common/src/lib.rs:38-52 | the bounded loop answers membership in the clamped valid prefix |
| DataPlane.AllowedExactly | spa-ebpf/src/main.rs:278-285 | a source is allowed exactly before its grant's expiry and for one of the first `port_count` of eight slots |
| DataPlane.XdpGate.CheckSource | spa-ebpf/src/main.rs:278-285 | true exactly for a live grant that lists the port |
| DataPlane.XdpGate.CheckRate | spa-ebpf/src/main.rs:225-247 | limiter decision and new limiter table on every path |
| DataPlane.XdpGate.GateTcp | spa-ebpf/src/main.rs:162-197 | verdict and all five maps after a TCP frame, unreadable headers included |
| DataPlane.XdpGate.GateUdp | spa-ebpf/src/main.rs:199-222 | verdict and all five maps after a UDP frame |
| DataPlane.XdpGate.TryGate | spa-ebpf/src/main.rs:117-127 | verdict and all five maps for every frame |
| DataPlane.OrdinaryTrafficPasses | spa-ebpf/src/main.rs:117-127 | whatever is not for a protected TCP port or the knock port passes and changes nothing |
| DataPlane.OrdinaryFramesPass | spa-ebpf/src/main.rs:162-207 | so do the frames of TCP packets to unprotected ports and of datagrams to other ports than the knock port |
| DataPlane.ForeignFramesPass | spa-ebpf/src/main.rs:131-160 | and all frames that are neither IPv4 nor IPv6 or carry neither TCP nor UDP |
| DataPlane.TcpGateExactly | spa-ebpf/src/main.rs:179-197 | by flag bits: who passes to a protected port, that a live flow survives exactly without FIN and RST, that only a granted SYN without ACK starts one, and that nothing else changes |
| DataPlane.KnockGateExactly | spa-ebpf/src/main.rs:209-247 | a datagram to the knock port passes exactly with 180 to 260 bytes and fewer than ten counted in its second; the new limiter table |
| Adapters.MemReplay.constructor | spa-gated/src/adapters.rs:37-42 | an empty cache over an empty history |
| Adapters.MemReplay.Admit | spa-gated/src/adapters.rs:46-55 | true exactly if no accepted call for the nonce lies within the window; the cache stays the recent part of the full history, and as large |
| Adapters.RecentTableSound | spa-gated/src/adapters.rs:48-49 | every cache entry is an accepted call of the last window |
| Adapters.RecentTableComplete | spa-gated/src/adapters.rs:48-49 | every accepted call of the last window is in the cache at its own time |
| Adapters.RecentTableSize | spa-gated/src/adapters.rs:28-30 | cache size equals the number of accepted calls in the window |
| Adapters.PruneIsRecent | spa-gated/src/adapters.rs:48-49 | pruning later yields what was never-pruned history's recent part then |
| Adapters.FreshIffNoRecentCall | spa-gated/src/adapters.rs:50-54 | absence from the pruned cache is absence of a recent call in the full history |
| Adapters.GuardFollowsHistory | spa-gated/src/adapters.rs:46-55 | one call on the cache answers as the full history would, and leaves the recent part of the extended history |
| Adapters.Installed | spa-gated/src/adapters.rs:81-96 | the installed table's ids are exactly the listed ones |
| Adapters.LastCredentialWins | spa-gated/src/adapters.rs:81-96 | the table holds each listed credential's own key and ports, the last one's for a repeated id |
| Adapters.SharedTrust.Set | spa-gated/src/adapters.rs:81-87 | the client table becomes the installed list: each client's own key and ports, last duplicate winning |
| Adapters.SharedTrust.SetTokens | spa-gated/src/adapters.rs:90-96 | the same for tokens |
| Adapters.SharedTrust.Lookup | spa-gated/src/adapters.rs:100-120 | clients first as signature policies, then tokens as single-use PSK policies, else nothing |
| Adapters.SharedTrust.Consume | spa-gated/src/adapters.rs:122-124 | removes exactly that token |
| Adapters.GrantFor | spa-gated/src/adapters.rs:135-145 | eight slots lose no port of a list of up to eight, add none, and expiry is now plus ttl unless it saturates |
| Adapters.AllowAfterExactly | spa-gated/src/adapters.rs:146-148 | a write is taken exactly for a source that has an entry or while fewer than 1024 have one, and touches no other source |
| Adapters.BpfGateWriter.Open | spa-gated/src/adapters.rs:135-148 | the slot-filling loop stores that grant under the source's key, or nothing if the write fails |
| Gatekeeper.Keeper.RunChecks | spa-core/src/lib.rs:176-214 | the first failing check in order, or the knock with its policy |
| Gatekeeper.ChecksExactly | spa-core/src/lib.rs:176-214 | every verdict by the tables and primitives themselves: the credential's own key verifies the authenticator, its own list holds every port; which flaw gives which reason |
| Gatekeeper.RefusalExactly | spa-core/src/lib.rs:216-218 | a checked knock is refused as a replay exactly if its nonce is cached and under a window old |
| Gatekeeper.Keeper.Judge | spa-core/src/lib.rs:176-218 | the first failing check, the replay guard last, or the knock with its policy; only an accepted knock's nonce is recorded |
| Gatekeeper.Keeper.Admit | spa-core/src/lib.rs:175-231 | the decision; an opened knock's credential verifies it and lists all its ports, one that does not verify it gives BadSignature; a refused knock burns no nonce or token and opens nothing; an accepted one does exactly its three effects |
| Gatekeeper.Watcher.Start | spa-gated/src/main.rs:154-159 | loading the ports one by one succeeds exactly if they fit the map, and then the map holds just them |
| Gatekeeper.ProtectPortTakes | spa-ebpf/src/main.rs:36-37 | an insertion is taken exactly if the port is there already or fewer than 64 are |
| Gatekeeper.InsertAllExact | spa-gated/src/main.rs:366-368 | in whatever order ports are inserted, none is lost, none is added unlisted, and all are there exactly if the union fits; otherwise the map is full |
| Gatekeeper.Watcher.Reload | spa-gated/src/main.rs:347-376 | applies exactly newer verified bundles; PROTECTED equals the new set if and only if the additions fit beside the old entries and no port still listed was missed before; shared ports never go; the whole new state for the insertion order used |
| Gatekeeper.Watcher.InsertMissing | spa-gated/src/main.rs:366-368 | inserts each newly listed port exactly once, in some order |
| Gatekeeper.Watcher.RemoveStale | spa-gated/src/main.rs:369-371 | exactly the dropped ports are removed |
| NonBypass.OpeningIsAuthentic | spa-core/src/lib.rs:175-231 | every opening has an earlier packet and lookup; it named this gate, was in skew, authentic and permitted |
| NonBypass.OpeningIsVouchedFor | spa-core/src/lib.rs:175-231 | every opening goes back to a packet that opened to it and a later lookup of an entry whose own key verified it and whose own list held every port, for this gate and within the configured seconds |
| NonBypass.GrantIsSound | spa-gated/src/adapters.rs:135-153 | every stored grant stems from an opening for that key and covers no more ports or time |
| NonBypass.FlowIsSound | spa-ebpf/src/main.rs:179-194 | every tracked flow ends an unbroken trail from an earned SYN |
| NonBypass.TrailsAreAuthorized | spa-core/src/lib.rs:175-231 | every trail leads back to a single knock whose arrival, lookup and opening lie in that order, and which met every check under the policy found |
| NonBypass.NoFrameBypassesTheGate | spa-ebpf/src/main.rs:117-197 | the same as the next row for every frame that frames a TCP packet to a protected port |
| NonBypass.NothingBypassesTheGate | spa-ebpf/src/main.rs:162-197 | every packet passed to a protected port ends such a trail: gaps under 120 s, start under 30 s after an opening that requested the port, and among the flow's packets that arrived while the port was protected none since the start was dropped and none before the last carried FIN or RST |
| NonBypass.CloseCountsIffProtected | spa-ebpf/src/main.rs:162-186 | a FIN or RST ends a tracked flow if and only if its port is protected when it arrives |
| ReplaySafety.AcceptancesAreSpaced | spa-gated/src/adapters.rs:46-55 | a nonce is accepted again only a full window later, whatever happens between |
| ReplaySafety.OpeningTwiceTakesDrift | spa-gated/src/adapters.rs:46-55 | two openings of one nonce and timestamp take a window below 2^64 ns and a drift of at least window less acceptance span |
| ReplaySafety.RefusedAsReplayIff | spa-gated/src/adapters.rs:46-55 | over whole runs, a flawless knock is refused as a replay if and only if its nonce was accepted less than a window before |
| ReplaySafety.LoadedGateOpensOnce | spa-gated/src/main.rs:175-180 | for every skew a configuration file can hold, no nonce and timestamp open twice while the clocks drift apart by under 1 s |
| ReplaySafety.NoAuthorizationOpensTwice | spa-gated/src/main.rs:175-180 | the same for every skew whose window does not wrap, saturated ones included, or wraps beyond 2^64 ns |
| ReplayBound.OpensTwice | spa-gated/src/adapters.rs:46-55 | in one run, whatever was admitted once under a reusable credential opens the gate again after a window if still within skew |
| ReplayBound.DriftBoundIsTight | spa-gated/src/main.rs:175-180 | one run with two openings of one authorization at a drift of exactly 1 s, for every admitted knock and unsaturated skew |
| ReplayBound.WrappedWindowForgets | spa-gated/src/main.rs:175-175 | for a skew no configuration file holds: one run with two openings and no drift at all, whenever the window wraps and both clocks can advance by it |
| ReplayBound.ReplaySafeIff | spa-gated/src/main.rs:175-180 | all runs with this skew keep openings of one authorization a given drift apart if and only if the window outlasts u64 or exceeds the acceptance span by that drift |
| ReplayBound.ReplayBoundInSeconds | spa-gated/src/main.rs:175-180 | below 2^64 ns that drift is exactly 1 s for a window that does not wrap, as for every loadable skew, and no positive drift for one that does |
| Admission.AdmitIsTheProgram | spa-core/src/lib.rs:175-231 | six uninterrupted steps, each at its own time, yield the program's one decision, reject reason included, and exactly its effects |
| Admission.ForgeryIsRefused | spa-core/src/lib.rs:196-210 | a timely knock whose credential's key does not verify it is refused with BadSignature and changes nothing |
| Admission.UnlistedPortIsRefused | spa-core/src/lib.rs:212-214 | a timely, authentic knock with one unlisted port at any position is refused with PortNotAllowed and changes nothing |
| Admission.StrayKnockIsRefused | spa-core/src/lib.rs:176-189 | what does not open, names another gate or is outside the skew is refused as such |
| System.SkewExactly | spa-gated/src/main.rs:176-180 | the saturated skew accepts exactly timestamps within the configured seconds; an opening lasts 30 s |
| System.WindowExactly | spa-gated/src/main.rs:175-175 | the replay window is the u64 product in seconds, modulo 2^64 |
| System.OutOfTurnIsIdle | spa-core/src/lib.rs:175-231 | a step of either thread that is not its turn does nothing and decides nothing |
| Reload.ReloadIsTheProgram | spa-gated/src/main.rs:347-376 | an uninterrupted reload's steps leave exactly the state `Watcher.Reload` promises for the same insertion order |
| Reload.OtherwiseNothingHappens | spa-gated/src/main.rs:347-361 | while no newer verified bundle comes, no step of the watcher changes anything |
| Serving.VisitOpensIffWelcome | spa-core/src/lib.rs:175-231 | with any steps of the other threads in between, a knock opens exactly if it passes every check at the moment that check is made |
| Serving.WelcomeExactly | spa-core/src/lib.rs:175-231 | what each check is, in the tables' and primitives' own terms, at the moment it is made |
| EndToEnd.KnockFacesOnlyTheLimiter | spa-ebpf/src/main.rs:199-222 | a framed sealed knock passes the XDP program exactly if the limiter's entry for its sender has room |
| EndToEnd.KnockLetsTheConnectionIn | spa-core/src/lib.rs:175-231 | that knock, signed or under a token, served after it while expected, opens its ports; the client's SYN passes while the grant lasts, and the connection lives on |
| Admission.SignedKnockIsAdmitted | spa-core/src/lib.rs:186-231 | a signed knock opens exactly its ports if and only if addressee, skew, policy and freshness hold |
| Admission.PskKnockIsAdmitted | spa-core/src/lib.rs:186-231 | the same for a token knock, which also burns the token |
| Admission.GateCryptoDecodes | spa-crypto/src/lib.rs:262-263 | whatever opens carries 1 to 8 ports |
| Admission.SizeFilterSparesKnocks | spa-ebpf/src/main.rs:209-214 | a framed packet the daemon could open is never dropped for its size |
| Admission.AdmittedAgainAfterWindow | spa-gated/src/adapters.rs:46-55 | the same packet is admitted again after a window if still within skew |
| Admission.BurnedTokenOpensAgain | spa-gated/src/adapters.rs:90-96 | a token that opened is unknown to the next knock, until a bundle listing it is installed: then a fresh knock under it opens |
| Tokens.TokensAreConserved | spa-gated/src/adapters.rs:90-124 | openings credited to a token never exceed its installs, for every schedule |
| Tokens.WithoutReinstallOpensOnce | spa-core/src/lib.rs:220-224 | a token never installed again opens at most once |
| Revocation.GenerationsStrictlyIncrease | spa-gated/src/main.rs:354-376 | applied generations strictly increase and change only by a commit |
| Revocation.RevokedNeverOpens | spa-gated/src/main.rs:347-364 | after a revoking bundle's swaps no later lookup leads to an opening, unless a bundle taken up before that opening lists the id; refused bundles, older ones among them, may list it |
| Revocation.OldBundlesAreRefused | spa-gated/src/main.rs:354-361 | whatever is taken up after a bundle's swaps is of a newer generation |
| Revocation.VouchedKnockOutlivesRevocation | spa-core/src/lib.rs:191-230 | a knock whose lookup had succeeded opens even if both tables are emptied before its decision |
| Revocation.MissedPortStaysUncloaked | spa-gated/src/main.rs:366-375 | a listed port whose insertion failed stays uncloaked while bundles keep listing it |
| Revocation.ReloadNeverStrays | spa-gated/src/main.rs:365-376 | at every moment, full map or not, PROTECTED stays within old ∪ new, and no protected port listed on both sides is removed |
| Revocation.ReloadNeverBlinks | spa-gated/src/main.rs:365-376 | while old and new fit together in every reload so far, PROTECTED also holds old ∩ new throughout and ends as the new set |
| Revocation.ReloadEndsAsNewSetIff | spa-gated/src/main.rs:365-376 | a reload interleaved with anything ends as the new set if and only if no port still listed was missed before and the new ports fit beside the old entries |
| Flows.GateKeepsCover | spa-ebpf/src/main.rs:179-196 | one packet: what passes under an evicting table passes under one that covers its flow, and coverage survives exactly unless a granted, recorded SYN with FIN or RST starts in the one what it closes in the other |
| Flows.CoverIffUnambiguous | spa-ebpf/src/main.rs:179-196 | coverage of a flow survives its packet for all tables exactly if that is not a granted SYN with FIN or RST |
| Flows.EvictionCanOpen | spa-ebpf/src/main.rs:181-194 | after such a packet the evicting gate passes data the unbounded one drops |
| Flows.CoverLastsUntilBroken | spa-ebpf/src/main.rs:179-196 | over whole runs the unbounded table covers a flow of the evicting one exactly as long as no such SYN of that flow came |
| Flows.EvictionOnlyCloses | spa-ebpf/src/main.rs:39-41 | over whole runs, evictions and failed writes included, every passed packet passes an unbounded gate too, unless such a SYN of its own flow came before |
| Reopening.EvictionCanOpenInARun | spa-ebpf/src/main.rs:179-196 | two runs that differ in one eviction, for any admitted knock and granted flow: the evicting gate passes a packet the unbounded one drops |
| Flows.GrantedConnectionOutlivesGrant | spa-ebpf/src/main.rs:162-194 | after a granted SYN, or any packet that keeps its flow tracked, every packet up to the first FIN or RST passes, whatever becomes of the grant |
| AllowList.LatestStoredOpeningDecides | spa-ebpf/src/main.rs:278-285 | on every run, a source may reach a port exactly if its latest opening that the kernel accepted lists it and has not expired, saturation included |
| AllowList.LatestOpeningWins | spa-ebpf/src/main.rs:278-285 | if the latest opening was accepted and does not saturate: exactly if it lists the port and is under 30 s old |
| AllowList.StoredExactly | spa-ebpf/src/main.rs:31-33 | an opening's grant is stored exactly if the write succeeds and its source has an entry or fewer than 1024 have; otherwise the list is unchanged |
| AllowList.TrackedSourcesAreListed | spa-ebpf/src/main.rs:179-194 | a flow is tracked only for a source that holds an allow-list entry |
| AllowList.FullListShutsNewcomersOut | spa-ebpf/src/main.rs:31-33 | once the allow-list is full, a new source's knocks are answered as opened and change nothing, and all its packets to protected ports are dropped, for good |
| RateBound.IntervalBound | spa-ebpf/src/main.rs:225-247 | an interval of T > 0 ns in which the source's entry is not evicted and its writes are stored lets through at most 10·(⌊(T − 1) / 1 s⌋ + 1) of its knocks, and 9 more unless T − 1 ns is a whole number of seconds, whatever happened before |
| RateBound.IntervalBoundIsAttained | spa-ebpf/src/main.rs:225-247 | for every T below 2^63 a run in which such an interval lets through exactly that many |
| RateBound.DroppedOnlyAfterTen | spa-ebpf/src/main.rs:225-247 | a limiter drop means ten got through within the preceding second, evictions and failed writes notwithstanding |
| Junk.JunkLeavesNoTrace | spa-core/src/lib.rs:175-231 | schedules related by erased refusals end in equal trust, maps, watcher and openings |
| Junk.RefusedKnocksMightNeverHaveArrived | spa-core/src/lib.rs:216-224 | deleting every refused knock from any schedule leaves exactly the openings and the same state |

## Left out

- Cryptographic internals, key generation and key files: primitives are functions with contracts only.
- Loading and attaching the program, raw pointer reads, the kernel verifier, and races between CPUs on one map.
- The nftables floor, including the grants and port sets mirrored into it.
- Frames handed on unread (other protocols, IPv6 extension headers, VLAN tags, truncated headers, and later IP fragments, which the code parses as if they held a TCP header) are outside the non-bypass claim unless they classify as TCP.
- Bundle and configuration parsing, signature verification of bundles, and file polling: the watcher sees an arbitrary sequence of verified bundles and failures.
- The control-plane client, provisioning, the client library and command line, and the audit log.
- The LRU order of evictions: any entries may go at any time, which covers every order.
- Flows.EvictionOnlyCloses: compares flow tables only; an evicted limiter entry lets more knocks through, which `RateBound.IntervalBound` excludes by premise for the interval it bounds.
- Revocation.RevokedNeverOpens: excludes a knock whose lookup had already succeeded when the tables were swapped; the code does not recheck it (`Revocation.VouchedKnockOutlivesRevocation`).
- Adapters.BpfGateWriter.Open: writes the kernel map only; the mirror of the grant into nftables, on when the floor is, is not modelled.
