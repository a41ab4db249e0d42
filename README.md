# PekAutomotiveApp connection core in Dafny

PekAutomotiveApp is an Android client that finds a text server on the local
Wi-Fi network (port 8000) and sends it what the user types. This project
models the part of the app that decides where to send the text:

- `Commons.intToIp`, which renders the DHCP record's DNS address as a dotted
  quad. It is modelled with Kotlin's 32-bit `Int`, arithmetic shifts and masks,
  and it comes with a parser: the round trip, injectivity and worked examples
  are proved.
- The subnet sweep `getLocalIpAddress`. It produces the 254 candidates
  `a.b.c.1` … `a.b.c.254` of the DNS server's /24 network and keeps those that
  are online.
- `NetworkManager`. Its `connectToServer` is the bounded retry loop: three
  rounds under an overall deadline, with a manual override branch and an
  auto-discovery branch. Its `sendToServer` sends to the override address or
  to every endpoint not yet refused, and records new refusals. These methods
  mutate a `MainViewModel` class, and each is proved to end in the state that
  a functional specification (`Establish`, `Dispatch`) describes. Lemmas then
  prove what that specification promises.
- `MainActivity`'s own copy of the logic:
  - the start-up restore of the saved `server_ip`;
  - `connectToServer` (override, then the saved address, then a scan);
  - `testConnection`;
  - `sendToServer`, which removes failing endpoints through the iterator,
    records refusals and saves `server_ip`;
  - `resetConnection`;
  - a sequential `getLocalIpAddress` over a four-byte buffer;
  - its own `intToIp`.

The network is an input throughout. Each probe result is a `SocketResult`
(`Connected`, `ConnectFailed(refused)`, `UnknownHost`, `IoFailure`,
`SocketTimeout`), and an oracle says which candidate a sweep finds online.
Texts written to sockets are recorded in a ghost `deliveries` log.

Files:

- `wrappers.dfy`: `Option`.
- `lists.dfy`: duplicate-free sequences, which model the `HashSet`s.
- `commons.dfy`: `intToIp`, decimal numerals and dotted quads.
- `subnet.dfy`: the sweep candidates and their filtering.
- `probes.dfy`: socket outcomes, attemptConnection and testConnection.
- `viewmodel.dfy`: `MainViewModel`.
- `network_manager.dfy`: `NetworkManager`.
- `main_activity.dfy`: `MainActivity`.

## Model

| member | source | states |
|---|---|---|
| Commons.Octet | app/src/main/java/com/furkan/pekautomotiveapp/util/Commons.kt:6-9 | `i shr 8k and 0xFF` on a 32-bit Int is a byte value below 256 |
| Commons.Decimal | app/src/main/java/com/furkan/pekautomotiveapp/util/Commons.kt:6-9 | `Int.toString()` of a non-negative value is a non-empty digit string with a leading '0' exactly for 0 |
| Commons.DecimalRoundTrip | app/src/main/java/com/furkan/pekautomotiveapp/util/Commons.kt:6-9 | reading back the decimal text of n gives n |
| Commons.NumeralCanonical | app/src/main/java/com/furkan/pekautomotiveapp/util/Commons.kt:6-9 | every canonical numeral (no leading zero unless "0") is the decimal text of its value |
| Commons.DecimalInjective | app/src/main/java/com/furkan/pekautomotiveapp/util/Commons.kt:6-9 | distinct values have distinct decimal texts |
| Commons.OctetsRecompose | app/src/main/java/com/furkan/pekautomotiveapp/util/Commons.kt:5-10 | the four masked bytes recombine little-endian to the unsigned 32-bit reading of i |
| Commons.IntToIp | app/src/main/java/com/furkan/pekautomotiveapp/util/Commons.kt:5-10 | intToIp: the four bytes of the 32-bit value, lowest first, each as `shr` then `and 0xFF`, rendered in decimal and joined by dots |
| Commons.IntToIpFormat | app/src/main/java/com/furkan/pekautomotiveapp/util/Commons.kt:6-9 | intToIp yields exactly four dot-separated canonical fields, field k being byte k of i with the lowest byte first |
| Commons.IntToIpRoundTrip | app/src/main/java/com/furkan/pekautomotiveapp/util/Commons.kt:5-10 | parsing intToIp(i) as a dotted quad gives the bytes of i, whose value is i read as an unsigned 32-bit number |
| Commons.IntToIpInjective | app/src/main/java/com/furkan/pekautomotiveapp/util/Commons.kt:5-10 | distinct 32-bit ints render as distinct addresses |
| Commons.IntToIpExample | app/src/main/java/com/furkan/pekautomotiveapp/util/Commons.kt:5-10 | 0x0101A8C0, a little-endian DHCP value, renders as "192.168.1.1" |
| Commons.IntToIpNegativeExample | app/src/main/java/com/furkan/pekautomotiveapp/util/Commons.kt:8-9 | -1 renders as "255.255.255.255": the arithmetic shift's sign bits are masked off |
| Commons.ParseQuad | app/src/main/java/com/furkan/pekautomotiveapp/network/NetworkManager.kt:90-91 | `InetAddress.getByName` on a dotted quad accepts only octets below 256 |
| Commons.FormatParse | app/src/main/java/com/furkan/pekautomotiveapp/network/NetworkManager.kt:90-97 | a formatted quad of byte values parses back to the same four bytes |
| Commons.ParseFormat | app/src/main/java/com/furkan/pekautomotiveapp/network/NetworkManager.kt:90-97 | any text that parses as a quad is the formatting of what it parses to |
| Commons.FormatQuadInjective | app/src/main/java/com/furkan/pekautomotiveapp/network/NetworkManager.kt:95-97 | distinct byte quads format to distinct address texts |
| Subnet.HostAddress | app/src/main/java/com/furkan/pekautomotiveapp/network/NetworkManager.kt:90-91 | resolving intToIp(dns1) always succeeds and yields exactly the four bytes of dns1 |
| Subnet.Candidates | app/src/main/java/com/furkan/pekautomotiveapp/network/NetworkManager.kt:90-96 | the 254 addresses the scan tries, in loop order: the resolved DNS address with its last byte set to 1 … 254, rendered without the leading slash |
| Subnet.CandidatesShape | app/src/main/java/com/furkan/pekautomotiveapp/network/NetworkManager.kt:93-97 | there are 254 candidates; candidate k keeps the DNS server's first three fields and has last field k+1 |
| Subnet.CandidatesParse | app/src/main/java/com/furkan/pekautomotiveapp/network/NetworkManager.kt:93-97 | every candidate parses as the DNS server's /24 prefix with host byte 1..254 |
| Subnet.CandidatesNoDup | app/src/main/java/com/furkan/pekautomotiveapp/network/NetworkManager.kt:93-97 | the 254 candidates are pairwise distinct |
| Subnet.Reachable | app/src/main/java/com/furkan/pekautomotiveapp/network/NetworkManager.kt:98-102 | the sweep keeps exactly the candidates judged online, adds no repeats, and never grows the list |
| Subnet.ReachableSnoc | app/src/main/java/com/furkan/pekautomotiveapp/MainActivity.kt:290-298 | one more candidate adds itself to the sweep result exactly when it is online |
| Subnet.FirstAccepted | app/src/main/java/com/furkan/pekautomotiveapp/network/NetworkManager.kt:266-279 | the iterator loop stops at the first address that tests true; every earlier address tested false |
| Subnet.FirstAcceptedAt | app/src/main/java/com/furkan/pekautomotiveapp/network/NetworkManager.kt:266-279 | an index with all earlier entries failing and itself passing is the loop's stopping point |
| Subnet.FirstAcceptedExists | app/src/main/java/com/furkan/pekautomotiveapp/network/NetworkManager.kt:266-279 | the loop finds an address exactly when some address of the set tests true |
| Probes.AttemptConnection | app/src/main/java/com/furkan/pekautomotiveapp/network/NetworkManager.kt:23-62 | attemptConnection is true exactly when the socket connects; refused, unknown host, I/O error and socket timeout all give false |
| Probes.TestConnection | app/src/main/java/com/furkan/pekautomotiveapp/network/NetworkManager.kt:64-80 | testConnection is true exactly when the attempt finishes before SOCKET_TIMEOUT and connects; a timeout leaves false |
| Probes.Deliveries | app/src/main/java/com/furkan/pekautomotiveapp/network/NetworkManager.kt:148-181 | one write of the text per address sent to |
| Probes.DeliveriesContents | app/src/main/java/com/furkan/pekautomotiveapp/network/NetworkManager.kt:148-181 | write k carries the text to address k, so the writes follow the order of the addresses sent to |
| ViewModel.MainViewModel.constructor | app/src/main/java/com/furkan/pekautomotiveapp/viewmodel/MainViewModel.kt:6-15 | a new view model is disconnected, with empty endpoint and refused lists, override off and empty texts |
| Network.GetLocalIpAddress | app/src/main/java/com/furkan/pekautomotiveapp/network/NetworkManager.kt:82-118 | the result holds each candidate of dns1's /24 network judged online, exactly once, and nothing else |
| Network.Subnetwork | app/src/main/java/com/furkan/pekautomotiveapp/network/NetworkManager.kt:82-118 | every round's sweep of the device's network is duplicate-free and holds exactly the candidates of its /24 network judged online in that round; probes are untouched |
| Network.ManualRound | app/src/main/java/com/furkan/pekautomotiveapp/network/NetworkManager.kt:246-255 | one manual round: test the override address within the remaining deadline; on success the endpoint set becomes just that address and isConnected is posted true |
| Network.AutoRound | app/src/main/java/com/furkan/pekautomotiveapp/network/NetworkManager.kt:256-282 | one auto round: sweep, make the sweep the endpoint set, test its members in order; the first that tests true becomes the only endpoint and the refused list is cleared |
| Network.Rounds | app/src/main/java/com/furkan/pekautomotiveapp/network/NetworkManager.kt:242-291 | the retry loop from a given round: post false, run a round, stop on success, on the deadline or after three rounds, and delay between failed rounds |
| Network.Establish | app/src/main/java/com/furkan/pekautomotiveapp/network/NetworkManager.kt:236-295 | one connectToServer call: the retry loop from round 0 with fresh counters under the overall deadline |
| Network.RoundCounters | app/src/main/java/com/furkan/pekautomotiveapp/network/NetworkManager.kt:246-283 | a round neither counts a retry nor delays, a manual round never sweeps, and a round that connects did not hit the deadline |
| Network.RoundOutcome | app/src/main/java/com/furkan/pekautomotiveapp/network/NetworkManager.kt:246-283 | a round connects only if its target tests true, and a round that ran to its end without connecting had no target that tests true |
| Network.ManualRoundSession | app/src/main/java/com/furkan/pekautomotiveapp/network/NetworkManager.kt:246-255 | a manual round leaves the refused list alone and, on success, makes the override address the only endpoint |
| Network.AutoRoundSession | app/src/main/java/com/furkan/pekautomotiveapp/network/NetworkManager.kt:256-282 | a successful auto round keeps only the first sweep address that tests true and clears the refused list |
| Network.FirstRoundFacts | app/src/main/java/com/furkan/pekautomotiveapp/network/NetworkManager.kt:242-283 | a loop pass counts one retry, connects only when its round succeeds, and fails without a timeout only when the round cannot succeed |
| Network.RoundsCounters | app/src/main/java/com/furkan/pekautomotiveapp/network/NetworkManager.kt:238-295 | the loop runs between one and three rounds, with one delay fewer than rounds; it ends connected, timed out or after three rounds |
| Network.RoundsEarlierFail | app/src/main/java/com/furkan/pekautomotiveapp/network/NetworkManager.kt:238-295 | every round before the last one the loop ran failed |
| Network.RoundsLastOutcome | app/src/main/java/com/furkan/pekautomotiveapp/network/NetworkManager.kt:238-295 | the last round succeeded exactly when the loop ends connected, unless the deadline cut it |
| Network.RoundsManualSession | app/src/main/java/com/furkan/pekautomotiveapp/network/NetworkManager.kt:246-255 | over the whole manual loop the refused list is untouched, and the endpoints become [override] on success and stay as they were otherwise |
| Network.RoundsAutoSession | app/src/main/java/com/furkan/pekautomotiveapp/network/NetworkManager.kt:256-282 | over the whole auto loop, a connected session holds exactly the address the last round settled on, with the refused list cleared |
| Network.EstablishRetryBound | app/src/main/java/com/furkan/pekautomotiveapp/network/NetworkManager.kt:238-293 | connectToServer runs at least one and at most maxRetries = 3 rounds, waiting between rounds but not after the last |
| Network.EstablishAllFail | app/src/main/java/com/furkan/pekautomotiveapp/network/NetworkManager.kt:238-293 | if every round fails before the deadline, exactly 3 rounds and 2 delays happen, and no round could have succeeded |
| Network.EstablishStopsAtFirstSuccess | app/src/main/java/com/furkan/pekautomotiveapp/network/NetworkManager.kt:284-286 | the loop stops at the first round that connects; every earlier round failed, and a connected result never timed out |
| Network.EstablishManual | app/src/main/java/com/furkan/pekautomotiveapp/network/NetworkManager.kt:246-255 | with the override active connectToServer never sweeps and keeps the refused list; success means the endpoint set is exactly the override address |
| Network.EstablishAuto | app/src/main/java/com/furkan/pekautomotiveapp/network/NetworkManager.kt:256-282 | in auto mode success leaves a single endpoint, the first address of the last sweep that tested true, with the refused list emptied |
| Network.DispatchStep | app/src/main/java/com/furkan/pekautomotiveapp/network/NetworkManager.kt:216-226 | one endpoint of the send loop: skip it if refused; otherwise attempt it, write the text on success, add it to the refused list on failure |
| Network.Dispatch | app/src/main/java/com/furkan/pekautomotiveapp/network/NetworkManager.kt:215-227 | the auto send loop over the endpoint set in iteration order, with isConnected ending as the last attempt posted |
| Network.DispatchRefused | app/src/main/java/com/furkan/pekautomotiveapp/network/NetworkManager.kt:215-227 | the refused list only grows, by exactly the endpoints whose attemptConnection failed, and stays free of repeats |
| Network.DispatchSends | app/src/main/java/com/furkan/pekautomotiveapp/network/NetworkManager.kt:215-227 | the text goes to exactly the endpoints not already refused whose attempt succeeded, once each |
| Network.DispatchConnected | app/src/main/java/com/furkan/pekautomotiveapp/network/NetworkManager.kt:215-227 | isConnected ends as the result of the last endpoint probed, or unchanged when every endpoint was already refused |
| Network.DispatchSettles | app/src/main/java/com/furkan/pekautomotiveapp/network/NetworkManager.kt:215-227 | a second send with the network unchanged refuses nothing new and reaches the same endpoints |
| Network.NetworkManager.constructor | app/src/main/java/com/furkan/pekautomotiveapp/network/NetworkManager.kt:18-22 | a manager holds its view model and has sent nothing |
| Network.NetworkManager.SendToIp | app/src/main/java/com/furkan/pekautomotiveapp/network/NetworkManager.kt:148-181 | sendToIp writes the text to the address once |
| Network.NetworkManager.ManualAttempt | app/src/main/java/com/furkan/pekautomotiveapp/network/NetworkManager.kt:246-255 | the manual branch of a round updates the view model as ManualRound says |
| Network.NetworkManager.AutoAttempt | app/src/main/java/com/furkan/pekautomotiveapp/network/NetworkManager.kt:256-283 | the auto branch, whose loop tests sweep entries in order until one connects, updates the view model as AutoRound says |
| Network.NetworkManager.RetryPass | app/src/main/java/com/furkan/pekautomotiveapp/network/NetworkManager.kt:242-293 | one pass of the retry loop either ends the loop in its final state or leaves a state from which the rest of the loop ends where it would have |
| Network.NetworkManager.ConnectToServer | app/src/main/java/com/furkan/pekautomotiveapp/network/NetworkManager.kt:231-315 | connectToServer leaves the view model and the counters exactly as Establish says; the override fields are untouched |
| Network.NetworkManager.RetryLoop | app/src/main/java/com/furkan/pekautomotiveapp/network/NetworkManager.kt:238-295 | the retry loop carries the view model and the counters from their state on entry to what Rounds gives from round 0 |
| Network.NetworkManager.SendManual | app/src/main/java/com/furkan/pekautomotiveapp/network/NetworkManager.kt:191-214 | the manual send posts the attempt's result and writes the text only when the override address connects |
| Network.NetworkManager.DispatchEntry | app/src/main/java/com/furkan/pekautomotiveapp/network/NetworkManager.kt:216-226 | one endpoint of the send loop updates the refused list, isConnected and the writes as DispatchStep says |
| Network.NetworkManager.SendAuto | app/src/main/java/com/furkan/pekautomotiveapp/network/NetworkManager.kt:215-227 | the send loop leaves the endpoint set unchanged and the refused list, isConnected and the writes as Dispatch says |
| Network.NetworkManager.SendToServer | app/src/main/java/com/furkan/pekautomotiveapp/network/NetworkManager.kt:183-229 | with the override the refused list stays as it is and only the override address is written to on success; otherwise the send is as Dispatch says |
| Activity.PrivateIntToIp | app/src/main/java/com/furkan/pekautomotiveapp/MainActivity.kt:310-315 | MainActivity's private intToIp yields the same text as Commons.intToIp for every Int |
| Activity.ToByte | app/src/main/java/com/furkan/pekautomotiveapp/MainActivity.kt:291 | `Int.toByte()` gives a signed byte congruent to the Int modulo 256 |
| Activity.Unsigned | app/src/main/java/com/furkan/pekautomotiveapp/MainActivity.kt:292 | an address byte reads as a value below 256 |
| Activity.ByteRoundTrip | app/src/main/java/com/furkan/pekautomotiveapp/MainActivity.kt:288-292 | storing a value 0..255 into the byte buffer and reading it back gives the value |
| Activity.AddressIsCandidate | app/src/main/java/com/furkan/pekautomotiveapp/MainActivity.kt:288-295 | the buffer with the DNS server's first three bytes and last byte i renders as candidate i of the sweep |
| Activity.Connect | app/src/main/java/com/furkan/pekautomotiveapp/MainActivity.kt:138-164 | connectToServer reports success only if an endpoint it keeps connects; with the override it succeeds exactly when the override address connects, and then the endpoints are just that address, else they are left as they were; with no override a saved address that connects becomes the only endpoint; failing both, the endpoints are the scan and success means some scanned address connects |
| Activity.SendStep | app/src/main/java/com/furkan/pekautomotiveapp/MainActivity.kt:233-271 | one entry of sendToServer: skip it if refused; otherwise dial usedIp; on success recheck the entry, remove it if that fails, save it as server_ip and write the text; on a refused dial add it to the refused list; any other failure changes nothing |
| Activity.SendAll | app/src/main/java/com/furkan/pekautomotiveapp/MainActivity.kt:230-273 | sendToServer over the entries in iteration order, each handled as SendStep says |
| Activity.SendRestAll | app/src/main/java/com/furkan/pekautomotiveapp/MainActivity.kt:231-272 | continuing the loop over the remaining entries, from the state the entries already visited left, gives the pass over all entries |
| Activity.SendRefused | app/src/main/java/com/furkan/pekautomotiveapp/MainActivity.kt:255-262 | the refused list grows by exactly the entries whose socket was refused, keeps its old entries in front, and stays free of repeats |
| Activity.SendKeeps | app/src/main/java/com/furkan/pekautomotiveapp/MainActivity.kt:239-245 | an entry leaves the set exactly when its socket opened and the follow-up testConnection failed; the set never grows and stays free of repeats |
| Activity.SendKeepsValid | app/src/main/java/com/furkan/pekautomotiveapp/MainActivity.kt:225-274 | sendToServer keeps both the endpoint set and the refused list free of repeats |
| Activity.SendSavesLastOpened | app/src/main/java/com/furkan/pekautomotiveapp/MainActivity.kt:246-249 | server_ip ends as the last entry whose socket opened, or unchanged if none opened |
| Activity.SendDeliveries | app/src/main/java/com/furkan/pekautomotiveapp/MainActivity.kt:236-254 | text goes only to hosts that connected (the override address when it is active, else set entries); every entry not refused that connected got it; none goes out when nothing connects; with the override off no entry refused beforehand gets the text |
| Activity.ManualRefusalBlocksAll | app/src/main/java/com/furkan/pekautomotiveapp/MainActivity.kt:234-262 | when every dial of the override address is refused, every entry joins the refused list, nothing is sent and server_ip is kept |
| Activity.MainActivity.constructor | app/src/main/java/com/furkan/pekautomotiveapp/MainActivity.kt:44-60 | onCreate starts with an empty endpoint set and refused list and the restored override and server_ip |
| Activity.MainActivity.TestConnection | app/src/main/java/com/furkan/pekautomotiveapp/MainActivity.kt:178-223 | testConnection is true exactly when the dialled host connects, and it dials the override address whenever the override is active, whatever ip is |
| Activity.MainActivity.GetLocalIpAddress | app/src/main/java/com/furkan/pekautomotiveapp/MainActivity.kt:279-307 | the byte-buffer loop over 1..254 returns exactly the reachable candidates of dns1's /24 network, in order and without repeats |
| Activity.MainActivity.RestoreEndpoints | app/src/main/java/com/furkan/pekautomotiveapp/MainActivity.kt:62-70 | a saved address that tests true is added to the set; otherwise the set becomes the scan result |
| Activity.MainActivity.AnyConnects | app/src/main/java/com/furkan/pekautomotiveapp/MainActivity.kt:157-162 | the loop reports success exactly when some scanned address connects |
| Activity.MainActivity.ConnectToServer | app/src/main/java/com/furkan/pekautomotiveapp/MainActivity.kt:138-176 | connectToServer ends in the endpoint set and result Connect describes, and leaves server_ip, the refused list and the override untouched |
| Activity.MainActivity.ResetConnection | app/src/main/java/com/furkan/pekautomotiveapp/MainActivity.kt:113-117 | reset unchecks the override and forgets server_ip, and leaves everything else alone |
| Activity.MainActivity.SendEntry | app/src/main/java/com/furkan/pekautomotiveapp/MainActivity.kt:232-271 | one loop pass handles the next entry as SendStep says, removing it in place when it is invalid |
| Activity.MainActivity.SendEach | app/src/main/java/com/furkan/pekautomotiveapp/MainActivity.kt:230-273 | the iterator loop over the entries leaves the endpoint set, refused list, server_ip and writes as SendAll says |
| Activity.MainActivity.SendToServer | app/src/main/java/com/furkan/pekautomotiveapp/MainActivity.kt:225-274 | sendToServer leaves the endpoint set, refused list, server_ip and writes as SendAll says, and keeps the lists free of repeats |

## Left out

- Socket I/O itself is not modelled. Connecting, `writeUTF` or a buffered write, flush and close are replaced by a per-host outcome and a ghost log of (host, text) writes. The bytes on the wire are not modelled.
- Activity.SendAll and Activity.SendStep answer each dial through `open` and `recheck`, which are functions of the host dialled. Within one `sendToServer` pass, every dial of the same host therefore gets the same answer. The source dials `Socket(usedIp, 8000)` afresh for each entry not yet refused (MainActivity.kt:236-239). With the override active it dials the override address once per entry, and those dials can end differently. A pass in which the override accepts the dial for one entry and refuses it for a later one is therefore not modelled: the source writes the text for the first entry and adds the second to the refused list, and the model cannot reach that state. Activity.ManualRefusalBlocksAll's premise, that the override refuses, stands for every dial of the override in the pass.
- Activity.Connect dials a saved address once on the fast path (MainActivity.kt:150) and, when that fails and the address is among the scan results, once more in the scan loop (MainActivity.kt:158). Both dials get the same answer from `open`, so a saved address that fails the first dial and connects on the second is not modelled.
- Network.NetworkManager.SendToIp logs one write for every call. In the source `sendToIp` opens a second socket of its own and catches any `IOException` its connect or write raises (NetworkManager.kt:148-181). A connect or write that fails there, after attemptConnection succeeded, is not modelled, and the log still records the write.
- A write failing after its socket opened is not modelled. In `MainActivity.sendToServer` that is an `IOException` raised after `server_ip` was saved.
- The Android services are not modelled: `WifiManager`/`dhcpInfo`, `InetAddress.isReachable`, `isHostOnline`, the `arp -a` process in `isHostInArpCache`, and the DNS lookup that only logs. `dns1` is an input, and whether a candidate is online is an oracle.
- The scan's `UnknownHostException` and `IOException` handlers are not modelled. Resolving the dotted quad that `intToIp` produces cannot fail, and the model has no exception that stops a scan midway.
- The scan's 254 `async` jobs in `NetworkManager.getLocalIpAddress` are not modelled as concurrent. Their result set does not depend on finishing order, so the sweep is sequential in candidate order. The jobs share one byte array (line 95); that race is not modelled.
- `withTimeout(CONNECTION_TIMEOUT)` and `delay(1500)` are modelled as a budget of awaited operations and as counters. Wall-clock time is not modelled. The per-probe `withTimeout(SOCKET_TIMEOUT)` is modelled as the `TimedAttempt` outcome.
- Network.ManualRound and Network.AutoRound treat a probe cut off by `SOCKET_TIMEOUT` or by the overall `CONNECTION_TIMEOUT` as having no effect other than a false `testConnection`. In the source the blocking `socket.connect` inside `withContext(Dispatchers.IO)` is not interrupted, and a connect that completes after the timer still posts `isConnected = true` (NetworkManager.kt:36). The loop's check at line 284 can then read true and end the call as connected. The endpoint set is then not narrowed to the override or the found address, and in auto mode the refused list is not cleared. Network.EstablishManual and Network.EstablishAuto hold only for runs in which no late connect posts true.
- LiveData `postValue` is modelled as an immediate assignment. Any lag before the main thread applies it is not modelled.
- `HashSet` iteration order is modelled as a duplicate-free sequence in insertion or scan order. Hash ordering is not modelled.
- The UI is not modelled: dialogs, toasts, snackbars, logs, the menu, and `showConnectionDialog` re-triggering a connect after reset.
- The `onCreate` button wiring and its empty-input check are not modelled. Only the calls it makes are modelled.
- The `Constants` object is not part of this model. PORT and the timeouts only reach the model through the probe outcomes and the budget.
- Neither `connectToServer` stores `server_ip`. `MainActivity.sendToServer` is the only writer, as in the source.
- The scan branch of `MainActivity.connectToServer` keeps the whole scan result as the endpoint set. Its loop only decides success, so the model records whether some scanned address connects, not which one was found first.
