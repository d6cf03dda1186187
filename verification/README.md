# Verified models of the core algorithms

A Dafny project beside the repository. It models the self-contained algorithms of the ShadowsocksR
server, of the IPv4 list merger and of the LMO translation archive, and proves what they are for.
`dafny verify dfyconfig.toml` checks all of it (Dafny 4.11).

| files | what they model |
|---|---|
| `FrameLoop`, `FrameLink`, `StreamBasics` | the receive loop shared by the stream protocols, for any codec: chunk independence, lock step and delivery, also over every interleaving of writes and deliveries |
| `Xorshift`, `KeystreamCipher`, `ChainCodec`, `ChainHandshake`, `ChainFormat`, `PaddingTables`, `PaddingRules` | the auth_chain protocols a to d: frames chained by digests, the greeting, their bytes, the padding rules and their generator |
| `ChainEnds`, `AuthChain`, `ChainSession`, `ChainPair` | both ends, as functions and as objects, runs of calls, and two connected objects |
| `AuthFrames`, `AuthGreeting`, `AuthFormat`, `AuthEnds`, `AuthStream`, `AuthSession`, `AuthPair` | auth_sha1_v4 and auth_aes128 in the same way |
| `ReplayWindow`, `ClientTable`, `ClientRuns`, `UserTables` | the window of connection ids, the tables of clients, one per user, and runs of their calls |
| `Admission`, `ChainAdmission` | greetings before these tables: who is let in, and for how long a greeting is refused when it comes again |
| `RangeMerger` | sorting and merging IPv4 ranges in place |
| `OrderedDictionary`, `LruCache` | the linked dictionary on the heap, and the timeout cache in touch order |
| `PoString`, `LmoArchive`, `LmoRoundTrip`, `LmoCatalog` | taking strings out of PO lines, writing and opening archives, searching and translating |
| `DnsCodec`, `DnsMessage`, `DnsResponse`, `HostNames`, `Resolver`, `Answering` | the messages of RFC 1035, valid host names, the queries pending, and who is answered when |
| `StreamCipher` | block alignment of the stream cipher and the encryptor around it |
| `RateLimit` | the speed limit |
| `PortLedger`, `Billing` | the traffic counted and accepted per port |
| `ByteStrings`, `Sorting`, `Options` | byte strings, words, bitwise operations; sorting; a value that may be missing |

Each part has the same shape. Functions on values say what a step does. Methods, on objects whose fields the
source updates too, are proved equal to them; the two `Pair` files connect such objects and prove, call by call, that
everything written at one comes out at the other. Lemmas say what the functions mean, over all inputs and all runs.
Cryptographic primitives are functions of which nothing is known but the length of what they return, and, where
a handshake needs it, that AES decryption undoes encryption. Random bytes are any bytes of the length
asked for.

What the proofs brought out, beyond what one would expect of the code:

- A client of auth_aes128 whose first write is empty raises on that write and on every later one, since no greeting is sent and no
  key is set (`AuthStream.AuthEnd.ClientPreEncrypt`, an equivalence).
- The first frame of an auth_chain server holds the MSS in two bytes; with a unit of one byte the client raises as soon as that
  frame is complete, and in no other case (`ChainSession.OneByteRaises`).
- A failing receive loop throws away what the same call has decoded before. So chunk boundaries can be seen after all: the
  bytes handed over differ exactly when a failure takes payload with it (`ChainEnds.ServerCallChunks`, `ChainEnds.CutShows`).
- A last frame of four bytes stays in the receive buffer of auth_chain, because the loop asks for more than four;
  it carries no payload, so no payload is missing (`FrameLoop.DeliversAll`).
- Examining a client for eviction moves it to the end, so that the client deleted is another one unless there is only one
  (`ClientTable.EvictedIsExamined`); when that costs an active client its place is said by `ClientTable.ActiveEvictedWhen`.
- A greeting that has been taken is not refused for good. The same bytes are taken again when their client has lost its place to
  another one, even if it was active (`Admission.TakenTwice`), and in auth_chain as soon as it has closed its only connection
  (`ChainAdmission.TakenAfterClosing`); `Admission.GreetingOnce` and `ChainAdmission.GreetingOnce` say exactly when.
- A text of 4096 bytes or more is looked up under the id 0, whatever its words (`LmoCatalog.StoredTextIsTranslated`), and an
  archive without entries sends the search outside of its index (`LmoArchive.FindFaults`).
- `clear_cache` raises on a port that waits to be settled, because it deletes from a set as from a map; the books stay sound
  (`Billing.TransferBase.RemovePort`). The program does not come to it: before each del_server_out_of_bound_safe a successful push has
  emptied force_update_transfer, which then only takes in ports of rows, while clear_cache is called for ports without one.
- An auth_chain or auth_aes128 server with users checks the greeting of a user it does not know under the IV as key
  (`ChainHandshake.ReadsExactly`, `AuthGreeting.AesTakesGreetings`).
- Stopping a server bills what the last push saw, so that the traffic since then is never accepted, and none if no push was
  accepted since its start (`PortLedger.StopLoses`).
- A second waiter for a pending host name cannot be taken back (`Resolver.SecondWaiterStays`); a waiter can be removed if and only if it opened its
  query (`Resolver.SoundMeans`).
- parse_name adds a dot to a name whose last pointer leads to the root (`DnsCodec.ParsedTextExact`), and a request is parsed back
  if and only if its host name has labels of 1 to 63 bytes between single dots (`DnsMessage.RequestRoundTrip`).
- is_valid_hostname lets through a label of 63 bytes and a newline, for which no request can be built: resolve raises and leaves a
  status behind (`Resolver.StatusLeftBehind`). In Python 2 it lets through a dot at the end, which the answer does not have
  (`HostNames.ValidHostRecovered`).
- With a size_t of 32 bits lmo_open opens a file whose index begins in its last four bytes with 0x0FFFFFFF entries
  (`LmoArchive.OpenedIsIndexed`).
- po2lmo counts offsets in an int: with 2^31 bytes of values and more it removes its output (`LmoArchive.ArchiveWritten`).

## Model

| member | source | states |
|---|---|---|
| `FrameLoop.DecodeChunks` | newpackage/lean/luci-app-ssrserver-python/root/usr/share/ssr/shadowsocks/obfsplugin/auth_chain.py:430-462 | feeding a then b leaves the same payloads, state and verdict as feeding a + b, for every loop whose turn can be taken up again; a failure stands whatever follows |
| `FrameLoop.PrefixDelivery` | newpackage/lean/luci-app-ssrserver-python/root/usr/share/ssr/shadowsocks/obfsplugin/auth_chain.py:550-587 | after any prefix of the peer's bytes the loop has not failed, has output exactly the payloads of the complete frames and keeps exactly the unused bytes |
| `FrameLoop.CompleteAll` | newpackage/lean/luci-app-ssrserver-python/root/usr/share/ssr/shadowsocks/obfsplugin/auth_chain.py:550-550 | when all bytes are there at most one frame stays back, a last one of no more than four bytes |
| `FrameLoop.LockStepDelivery` | newpackage/lean/luci-app-ssrserver-python/root/usr/share/ssr/shadowsocks/obfsplugin/auth_chain.py:339-361 | at every frame boundary of any run, for whatever prefix has arrived, encoder and decoder are in lock step and exactly the first k payloads are out |
| `FrameLoop.DeliversAll` | newpackage/lean/luci-app-ssrserver-python/root/usr/share/ssr/shadowsocks/obfsplugin/auth_chain.py:550-591 | all bytes arrived: all payload bytes are out; only an empty frame can be left in the buffer |
| `FrameLink.RunDelivers` | newpackage/lean/luci-app-ssrserver-python/root/usr/share/ssr/shadowsocks/obfsplugin/auth_chain.py:410-477 | delivery as an invariant of a link: any interleaving of writes and deliveries of any size keeps output a prefix of what was written, and all of it when nothing is in flight |
| `FrameLink.RunConsistent` | newpackage/lean/luci-app-ssrserver-python/root/usr/share/ssr/shadowsocks/obfsplugin/auth_chain.py:425-462 | every run keeps the decoder where it would be had all bytes come at once |
| `ByteStrings.XorTwice` | newpackage/lean/luci-app-ssrserver-python/root/usr/share/ssr/shadowsocks/obfsplugin/auth_chain.py:344-345 | masking a field twice with the same mask gives it back |
| `KeystreamCipher.ApplyTwice` | newpackage/lean/luci-app-ssrserver-python/root/usr/share/ssr/shadowsocks/obfsplugin/auth_chain.py:340-341 | decryption is encryption, at the same offset of the key stream |
| `KeystreamCipher.ApplyAppend` | newpackage/lean/luci-app-ssrserver-python/root/usr/share/ssr/shadowsocks/obfsplugin/auth_chain.py:454-454 | only the position in the key stream matters, not how the data is cut |
| `StreamBasics.SplitFlatten` | newpackage/lean/luci-app-ssrserver-python/root/usr/share/ssr/shadowsocks/obfsplugin/auth_chain.py:418-423 | cutting a write into units loses nothing, no piece is longer than the unit |
| `Xorshift.StepsInjective` | newpackage/lean/luci-app-ssrserver-python/root/usr/share/ssr/shadowsocks/obfsplugin/auth_chain.py:75-82 | draws lose nothing: two generators are in the same state after n draws if and only if they were before |
| `Xorshift.NeverZero` | newpackage/lean/luci-app-ssrserver-python/root/usr/share/ssr/shadowsocks/obfsplugin/auth_chain.py:75-82 | a generator seeded with anything but zeros never comes to the state in which all draws are zero |
| `Xorshift.StepBits` | newpackage/lean/luci-app-ssrserver-python/root/usr/share/ssr/shadowsocks/obfsplugin/auth_chain.py:75-82 | the word that a draw computes, bit by bit of the two words before |
| `Xorshift.SeedRoundTrip` | newpackage/lean/luci-app-ssrserver-python/root/usr/share/ssr/shadowsocks/obfsplugin/auth_chain.py:84-87 | the state holds exactly the first sixteen bytes of the seed, zero-extended |
| `Xorshift.SeedsApart` | newpackage/lean/luci-app-ssrserver-python/root/usr/share/ssr/shadowsocks/obfsplugin/auth_chain.py:89-96 | seeding with a digest and a length gives the same state if and only if lengths and the last 14 bytes of the digests agree |
| `Xorshift.FourDropped` | newpackage/lean/luci-app-ssrserver-python/root/usr/share/ssr/shadowsocks/obfsplugin/auth_chain.py:89-96 | seeding from a digest and a length puts the length into the first two bytes and drops four draws |
| `Xorshift.Generator.InitFromBinLen` | newpackage/lean/luci-app-ssrserver-python/root/usr/share/ssr/shadowsocks/obfsplugin/auth_chain.py:89-96 | seeding from a digest whose first two bytes are replaced by the length, then four draws |
| `ChainCodec.HeaderRoundTrip` | newpackage/lean/luci-app-ssrserver-python/root/usr/share/ssr/shadowsocks/obfsplugin/auth_chain.py:339-349 | the decoder reads the masked length of the frame that was packed, and derives the same padding size |
| `ChainCodec.OpenOwnFrame` | newpackage/lean/luci-app-ssrserver-python/root/usr/share/ssr/shadowsocks/obfsplugin/auth_chain.py:443-462 | the payload is found and decrypted where the encoder spliced it into the padding |
| `ChainCodec.FrameRoundTrip` | newpackage/lean/luci-app-ssrserver-python/root/usr/share/ssr/shadowsocks/obfsplugin/auth_chain.py:339-361 | a complete frame decodes to its payload, whatever follows it, unless no more than four bytes are there |
| `ChainCodec.PartialFrameWaits` | newpackage/lean/luci-app-ssrserver-python/root/usr/share/ssr/shadowsocks/obfsplugin/auth_chain.py:430-441 | a strict prefix of a frame makes the decoder wait |
| `ChainCodec.AfterFrameLockStep` | newpackage/lean/luci-app-ssrserver-python/root/usr/share/ssr/shadowsocks/obfsplugin/auth_chain.py:347-349 | after a frame both ends hold the same digest, frame number and key stream offset |
| `ChainCodec.StepRestartable` | newpackage/lean/luci-app-ssrserver-python/root/usr/share/ssr/shadowsocks/obfsplugin/auth_chain.py:304-337 | an incomplete frame leaves the generator partly used, yet the next turn goes as if it had not, because the length rule reseeds it |
| `ChainFormat.FrameLayout` | newpackage/lean/luci-app-ssrserver-python/root/usr/share/ssr/shadowsocks/obfsplugin/auth_chain.py:339-349 | where the masked length, the enciphered payload inside its padding and the tag are in a frame, and what of |
| `ChainFormat.TurnIs` | newpackage/lean/luci-app-ssrserver-python/root/usr/share/ssr/shadowsocks/obfsplugin/auth_chain.py:550-587 | which bytes a decoder opens as a frame, waits on or ends the protocol for: too long, incomplete, wrong tag |
| `ChainEnds.ServerCallChunks` | newpackage/lean/luci-app-ssrserver-python/root/usr/share/ssr/shadowsocks/obfsplugin/auth_chain.py:550-591 | what server_post_decrypt returns and keeps for a and then b is what it returns and keeps for a + b: the later state always, the bytes handed over if and only if no failure takes payload with it; and unless the whole fails, the one call asks for a packet in return if and only if one of the two does |
| `ChainEnds.ClientCallChunks` | newpackage/lean/luci-app-ssrserver-python/root/usr/share/ssr/shadowsocks/obfsplugin/auth_chain.py:425-462 | the same for client_post_decrypt, with its MSS and the exception for a first frame that is too short for it |
| `ChainEnds.CutShows` | newpackage/lean/luci-app-ssrserver-python/root/usr/share/ssr/shadowsocks/obfsplugin/auth_chain.py:566-577 | an input for which the cut shows: a good frame and one with a wrong tag, whose payload comes out in two calls and is lost in one |
| `ChainCodec.ChainMatched` | newpackage/lean/luci-app-ssrserver-python/root/usr/share/ssr/shadowsocks/obfsplugin/auth_chain.py:339-361 | encoder and decoder of a direction meet all that the delivery theorems ask |
| `ChainCodec.Delivery` | newpackage/lean/luci-app-ssrserver-python/root/usr/share/ssr/shadowsocks/obfsplugin/auth_chain.py:550-591 | two ends in lock step: the decoder outputs exactly what was packed and does not fail |
| `ChainHandshake.HelloRoundTrip` | newpackage/lean/luci-app-ssrserver-python/root/usr/share/ssr/shadowsocks/obfsplugin/auth_chain.py:486-548 | the server reads from the 36 bytes exactly the user id, keys, digests and card that the client put there, whatever follows |
| `ChainHandshake.HelloWaits` | newpackage/lean/luci-app-ssrserver-python/root/usr/share/ssr/shadowsocks/obfsplugin/auth_chain.py:486-495 | every strict prefix of a greeting makes the server wait |
| `ChainHandshake.RefusalStands` | newpackage/lean/luci-app-ssrserver-python/root/usr/share/ssr/shadowsocks/obfsplugin/auth_chain.py:487-492 | a head refused once is refused whatever bytes follow, from twelve bytes on |
| `ChainHandshake.NotYetWhole` | newpackage/lean/luci-app-ssrserver-python/root/usr/share/ssr/shadowsocks/obfsplugin/auth_chain.py:486-498 | below 36 bytes nothing is read: the first tag decides from twelve bytes on, and at seven and eight in part |
| `ChainHandshake.ReadsExactly` | newpackage/lean/luci-app-ssrserver-python/root/usr/share/ssr/shadowsocks/obfsplugin/auth_chain.py:486-548 | of 36 bytes and more a server reads exactly those whose first tag fits under its own key and whose second fits under the key of the user named; without users under its own; and for a user it does not know under the IV, so that a greeting of such a client is refused unless its tag happens to be that |
| `ChainFormat.HelloLayout` | newpackage/lean/luci-app-ssrserver-python/root/usr/share/ssr/shadowsocks/obfsplugin/auth_chain.py:363-395 | the fields of the 36 bytes, and the digests and keys that both ends start from |
| `StreamBasics.AcceptedTimes` | newpackage/lean/luci-app-ssrserver-python/root/usr/share/ssr/shadowsocks/obfsplugin/auth_chain.py:530-531 | a time is accepted if and only if it is at most a day before or after, across the end of the 32-bit clock |
| `ChainSession.HandshakeAgreement` | newpackage/lean/luci-app-ssrserver-python/root/usr/share/ssr/shadowsocks/obfsplugin/auth_chain.py:363-395 | from what a client has sent and kept: the server comes to the same keys, with the client's sending side as its receiving side and the client's receiving side as its sending side: digest, frame number, offset and generator |
| `PaddingTables.TablesB` | newpackage/lean/luci-app-ssrserver-python/root/usr/share/ssr/shadowsocks/obfsplugin/auth_chain.py:683-698 | for every key the two tables are non-empty, sorted and below 1440, of 4-11 and 8-23 entries |
| `PaddingTables.TableC` | newpackage/lean/luci-app-ssrserver-python/root/usr/share/ssr/shadowsocks/obfsplugin/auth_chain.py:747-756 | the same for the table of variant c, of 12-35 entries |
| `PaddingTables.TableD` | newpackage/lean/luci-app-ssrserver-python/root/usr/share/ssr/shadowsocks/obfsplugin/auth_chain.py:797-819 | variant d stops with at most 64 entries, and has 64 or a largest entry of at least 1300 |
| `PaddingRules.TablesBAreDrawn` | newpackage/lean/luci-app-ssrserver-python/root/usr/share/ssr/shadowsocks/obfsplugin/auth_chain.py:683-698 | both tables are exactly the entries drawn, sorted, of the counts drawn |
| `PaddingRules.TableCIsDrawn` | newpackage/lean/luci-app-ssrserver-python/root/usr/share/ssr/shadowsocks/obfsplugin/auth_chain.py:747-756 | the same for variant c |
| `PaddingRules.TableDIsDrawn` | newpackage/lean/luci-app-ssrserver-python/root/usr/share/ssr/shadowsocks/obfsplugin/auth_chain.py:797-819 | the same for variant d, whose patching draws on just as long as every entry is below 1300 |
| `PaddingTables.PadLenBounds` | newpackage/lean/luci-app-ssrserver-python/root/usr/share/ssr/shadowsocks/obfsplugin/auth_chain.py:709-737 | padding is never negative and below 1440, large payloads get none, payload and padding stay below 4096; every index and modulus of the rule is in range |
| `PaddingTables.PadLenReseeds` | newpackage/lean/luci-app-ssrserver-python/root/usr/share/ssr/shadowsocks/obfsplugin/auth_chain.py:767-787 | a rule either pads nothing and leaves the generator alone or depends on length and digest only |
| `PaddingRules.BisectCounts` | newpackage/lean/luci-app-ssrserver-python/root/usr/share/ssr/shadowsocks/obfsplugin/auth_chain.py:714-716 | the bisected position leaves exactly the entries behind it that the frame can be filled up to |
| `PaddingRules.RuleA` | newpackage/lean/luci-app-ssrserver-python/root/usr/share/ssr/shadowsocks/obfsplugin/auth_chain.py:304-315 | the padding by the size of the payload, and the generator behind it |
| `PaddingRules.RuleB` | newpackage/lean/luci-app-ssrserver-python/root/usr/share/ssr/shadowsocks/obfsplugin/auth_chain.py:709-737 | which entry of which table a frame is filled up to, or by which remainder it is padded, after how many draws |
| `PaddingRules.RuleC` | newpackage/lean/luci-app-ssrserver-python/root/usr/share/ssr/shadowsocks/obfsplugin/auth_chain.py:767-787 | one of the entries that fit, by the draw; if none is larger, by size |
| `PaddingRules.RuleD` | newpackage/lean/luci-app-ssrserver-python/root/usr/share/ssr/shadowsocks/obfsplugin/auth_chain.py:830-840 | one of the entries that fit, by the draw; if none is larger, none |
| `PaddingTables.AllVariantsGood` | newpackage/lean/luci-app-ssrserver-python/root/usr/share/ssr/shadowsocks/obfsplugin/auth_chain.py:830-840 | the rules of all four variants meet what the codec asks of them |
| `ChainSession.VariantsAreGood` | newpackage/lean/luci-app-ssrserver-python/root/usr/share/ssr/shadowsocks/obfsplugin/auth_chain.py:671-681 | so the session theorems hold of all four variants with the real generator |
| `PaddingTables.TableBuilder.InitDataSizeB` | newpackage/lean/luci-app-ssrserver-python/root/usr/share/ssr/shadowsocks/obfsplugin/auth_chain.py:683-698 | the loops draw exactly the tables of variant b |
| `PaddingTables.TableBuilder.InitDataSizeC` | newpackage/lean/luci-app-ssrserver-python/root/usr/share/ssr/shadowsocks/obfsplugin/auth_chain.py:747-756 | the loops draw exactly the table of variant c |
| `PaddingTables.TableBuilder.CheckAndPatchDataSize` | newpackage/lean/luci-app-ssrserver-python/root/usr/share/ssr/shadowsocks/obfsplugin/auth_chain.py:797-803 | the recursion appends entries until the last is large enough or there are 64, and ends |
| `PaddingTables.TableBuilder.InitDataSizeD` | newpackage/lean/luci-app-ssrserver-python/root/usr/share/ssr/shadowsocks/obfsplugin/auth_chain.py:805-819 | drawing, patching and sorting again give the table of variant d |
| `AuthChain.AuthChain.RndData` | newpackage/lean/luci-app-ssrserver-python/root/usr/share/ssr/shadowsocks/obfsplugin/auth_chain.py:325-337 | the padding has the length of the rule and the payload is spliced in at the drawn position |
| `AuthChain.AuthChain.PackClientData` | newpackage/lean/luci-app-ssrserver-python/root/usr/share/ssr/shadowsocks/obfsplugin/auth_chain.py:339-349 | one frame of the client's run; digest, number and offset move on |
| `AuthChain.AuthChain.PackServerData` | newpackage/lean/luci-app-ssrserver-python/root/usr/share/ssr/shadowsocks/obfsplugin/auth_chain.py:351-361 | one frame of the server's run |
| `AuthChain.AuthChain.PackAuthData` | newpackage/lean/luci-app-ssrserver-python/root/usr/share/ssr/shadowsocks/obfsplugin/auth_chain.py:363-395 | the greeting and the first frame, and the keys and digests kept from them |
| `AuthChain.AuthChain.ClientPreEncrypt` | newpackage/lean/luci-app-ssrserver-python/root/usr/share/ssr/shadowsocks/obfsplugin/auth_chain.py:410-423 | what a client writes is cut and packed without loss, the first write behind a greeting |
| `AuthChain.AuthChain.ServerPreEncrypt` | newpackage/lean/luci-app-ssrserver-python/root/usr/share/ssr/shadowsocks/obfsplugin/auth_chain.py:464-477 | what a server writes is cut and packed; the MSS goes before the first write and fixes the unit; without keys it raises, with those two fields as after a write |
| `AuthChain.AuthChain.ClientPostDecrypt` | newpackage/lean/luci-app-ssrserver-python/root/usr/share/ssr/shadowsocks/obfsplugin/auth_chain.py:425-462 | fields and reply are those of ClientCall, exceptions included, also for a client without keys |
| `AuthChain.AuthChain.ServerPostDecrypt` | newpackage/lean/luci-app-ssrserver-python/root/usr/share/ssr/shadowsocks/obfsplugin/auth_chain.py:479-591 | fields, tables of clients and reply are those of GuardedCall: data, a request for a packet in return, an exception or 2048 letters E; the table of the user in a greeting is asked for its ids when all else is right, and told of the data that comes |
| `AuthChain.AuthChain.Dispose` | newpackage/lean/luci-app-ssrserver-python/root/usr/share/ssr/shadowsocks/obfsplugin/auth_chain.py:667-668 | the connection is taken off the client it was opened for, in the table of its user |
| `ChainEnds.TakeAll` | newpackage/lean/luci-app-ssrserver-python/root/usr/share/ssr/shadowsocks/obfsplugin/auth_chain.py:454-460 | in a call that comes to frame 1 at most once, the client takes the two bytes of the MSS off it and outputs all payloads as they are, or raises if the frame is shorter |
| `ChainEnds.ClientLoopDecodes` | newpackage/lean/luci-app-ssrserver-python/root/usr/share/ssr/shadowsocks/obfsplugin/auth_chain.py:429-462 | the client's loop, which takes the MSS off in between, is decoding and then taking it off |
| `ChainSession.ClientToServer` | newpackage/lean/luci-app-ssrserver-python/root/usr/share/ssr/shadowsocks/obfsplugin/auth_chain.py:410-423 | calls of a fresh server on any chunks of a greeting and any frames: none raises, the output is a prefix of what was written and all of it at the end, in lock step with the client; the clock matters for the greeting alone |
| `ChainSession.ServerToClient` | newpackage/lean/luci-app-ssrserver-python/root/usr/share/ssr/shadowsocks/obfsplugin/auth_chain.py:464-477 | calls of a client on any chunks of any writes, for every unit of at least two bytes and up to 2^32 frames: none raises, the output is what was written without the MSS, in lock step with the server |
| `ChainSession.OneByteRaises` | newpackage/lean/luci-app-ssrserver-python/root/usr/share/ssr/shadowsocks/obfsplugin/auth_chain.py:456-458 | over whole runs of chunks some call raises if and only if the unit is one byte and the first frame is complete |
| `ChainSession.OneByteRun` | newpackage/lean/luci-app-ssrserver-python/root/usr/share/ssr/shadowsocks/obfsplugin/auth_chain.py:425-462 | such a client outputs nothing before that frame is complete and raises in the call that completes it |
| `ChainPair.TalkDelivers` | newpackage/lean/luci-app-ssrserver-python/root/usr/share/ssr/shadowsocks/obfsplugin/auth_chain.py:339-361 | in every state of a connection each side has handed over a prefix of what the other wrote, all of it when nothing is in flight, in lock step |
| `ChainPair.Pair.ClientWrites` | newpackage/lean/luci-app-ssrserver-python/root/usr/share/ssr/shadowsocks/obfsplugin/auth_chain.py:410-423 | a client object writes to a connected server object: the invariant of the connection holds, handshake included |
| `ChainPair.Pair.ServerWrites` | newpackage/lean/luci-app-ssrserver-python/root/usr/share/ssr/shadowsocks/obfsplugin/auth_chain.py:464-477 | the server object writes; it raises exactly until it has taken the greeting |
| `ChainPair.Pair.DeliverToServer` | newpackage/lean/luci-app-ssrserver-python/root/usr/share/ssr/shadowsocks/obfsplugin/auth_chain.py:479-591 | any number of bytes reach the server object: it hands over data and never raises, while the tables of clients, which it shares with any other connections, let in the greeting; it knows the user and client of exactly this greeting |
| `ChainPair.Pair.DeliverToClient` | newpackage/lean/luci-app-ssrserver-python/root/usr/share/ssr/shadowsocks/obfsplugin/auth_chain.py:425-462 | any number of bytes reach the client object: it hands over data and never raises |
| `ChainPair.Pair.Delivers` | newpackage/lean/luci-app-ssrserver-python/root/usr/share/ssr/shadowsocks/obfsplugin/auth_chain.py:410-477 | so whatever calls have been made, in either direction and any order: output is a prefix of what was written, and all of it when nothing is in flight |
| `AuthFrames.FrameOpens` | newpackage/lean/luci-app-ssrserver-python/root/usr/share/ssr/shadowsocks/obfsplugin/auth.py:269-301 | a complete frame opens to its payload whatever follows, and until it is complete the decoder waits |
| `AuthFrames.PaddingSkipped` | newpackage/lean/luci-app-ssrserver-python/root/usr/share/ssr/shadowsocks/obfsplugin/auth.py:291-296 | the decoder skips exactly the padding, in both of its encodings |
| `AuthFormat.TurnIs` | newpackage/lean/luci-app-ssrserver-python/root/usr/share/ssr/shadowsocks/obfsplugin/auth.py:595-625 | which bytes the receive loop opens as a frame, with which payload, waits on, or fails for and why: both formats |
| `AuthFormat.Sha1FrameLayout` | newpackage/lean/luci-app-ssrserver-python/root/usr/share/ssr/shadowsocks/obfsplugin/auth.py:221-229 | the fields of a frame of auth_sha1_v4 and what its checks are of |
| `AuthFormat.AesFrameLayout` | newpackage/lean/luci-app-ssrserver-python/root/usr/share/ssr/shadowsocks/obfsplugin/auth.py:524-532 | the same for auth_aes128 |
| `AuthFrames.TurnsRegular` | newpackage/lean/luci-app-ssrserver-python/root/usr/share/ssr/shadowsocks/obfsplugin/auth.py:595-621 | the loop can be interrupted anywhere and taken up again |
| `AuthFrames.FramingMatched` | newpackage/lean/luci-app-ssrserver-python/root/usr/share/ssr/shadowsocks/obfsplugin/auth.py:221-229 | encoder and decoder of both formats meet all that the delivery theorems ask |
| `AuthFrames.FramingDelivers` | newpackage/lean/luci-app-ssrserver-python/root/usr/share/ssr/shadowsocks/obfsplugin/auth.py:524-532 | one direction over whole runs, any padding and any interleaving, across the wrap of the 32-bit frame number: the decoder never fails and outputs what was written |
| `AuthGreeting.Sha1Accepts` | newpackage/lean/luci-app-ssrserver-python/root/usr/share/ssr/shadowsocks/obfsplugin/auth.py:231-240 | an auth_sha1_v4 server waits for all of a greeting and takes exactly its first payload from it, whatever follows |
| `AuthGreeting.AesAccepts` | newpackage/lean/luci-app-ssrserver-python/root/usr/share/ssr/shadowsocks/obfsplugin/auth.py:534-562 | an auth_aes128 server that has the client's key for the user, or has no users and the same server key, takes key and first payload from exactly the client's greeting, whatever follows |
| `AuthGreeting.Sha1TakesGreetings` | newpackage/lean/luci-app-ssrserver-python/root/usr/share/ssr/shadowsocks/obfsplugin/auth.py:321-366 | an auth_sha1_v4 server takes exactly the bytes that begin with a greeting under its IV and key that comes in time |
| `AuthGreeting.Sha1NotYet` | newpackage/lean/luci-app-ssrserver-python/root/usr/share/ssr/shadowsocks/obfsplugin/auth.py:321-340 | what it does with all other bytes: wait, end the protocol or raise |
| `AuthGreeting.AesTakesGreetings` | newpackage/lean/luci-app-ssrserver-python/root/usr/share/ssr/shadowsocks/obfsplugin/auth.py:639-700 | an auth_aes128 server takes exactly the greetings whose first two tags fit under its own key and the last under that of the user named; without users its own; for a user it does not know the IV |
| `AuthGreeting.AesNotYet` | newpackage/lean/luci-app-ssrserver-python/root/usr/share/ssr/shadowsocks/obfsplugin/auth.py:644-668 | what it does before the last tag: the first one decides from seven bytes on and in part at two and three, a wrong second one makes it wait a while |
| `AuthFormat.Sha1HelloLayout` | newpackage/lean/luci-app-ssrserver-python/root/usr/share/ssr/shadowsocks/obfsplugin/auth.py:231-240 | the fields of a greeting of auth_sha1_v4 |
| `AuthFormat.AesHelloLayout` | newpackage/lean/luci-app-ssrserver-python/root/usr/share/ssr/shadowsocks/obfsplugin/auth.py:534-562 | the fields of a greeting of auth_aes128 |
| `AuthSession.HandshakeAgreement` | newpackage/lean/luci-app-ssrserver-python/root/usr/share/ssr/shadowsocks/obfsplugin/auth.py:639-700 | the server waits for exactly the client's greeting and takes key and first payload from it; both ends check frames under the same key |
| `AuthSession.KeyLearned` | newpackage/lean/luci-app-ssrserver-python/root/usr/share/ssr/shadowsocks/obfsplugin/auth.py:657-675 | a server that has 31 bytes of a greeting knows the key, and not before |
| `AuthSession.FailureSaid` | newpackage/lean/luci-app-ssrserver-python/root/usr/share/ssr/shadowsocks/obfsplugin/auth.py:362-391 | over whole runs of calls: when frames fail, an auth_sha1_v4 server sends the 2048 letters if and only if no call has handed over data before, and an auth_aes128 server if and only if the frame has the number 0; otherwise they raise |
| `AuthEnds.ServerCallChunks` | newpackage/lean/luci-app-ssrserver-python/root/usr/share/ssr/shadowsocks/obfsplugin/auth.py:702-747 | what server_post_decrypt returns and keeps for a and then b is what it returns and keeps for a + b: the later state always, the bytes handed over if and only if no failure takes payload with it; and unless the whole fails, the one call asks for a packet in return if and only if one of the two does |
| `AuthEnds.ClientCallChunks` | newpackage/lean/luci-app-ssrserver-python/root/usr/share/ssr/shadowsocks/obfsplugin/auth.py:593-625 | the same for client_post_decrypt, where a wrong check of a length loses nothing |
| `AuthSession.ClientToServer` | newpackage/lean/luci-app-ssrserver-python/root/usr/share/ssr/shadowsocks/obfsplugin/auth.py:255-267 | calls of a fresh server on any chunks of a greeting and any frames: none raises, the output is the first payload and what the frames carry, all of it at the end, in step with the client |
| `AuthSession.ServerToClient` | newpackage/lean/luci-app-ssrserver-python/root/usr/share/ssr/shadowsocks/obfsplugin/auth.py:627-637 | calls of a client on any chunks of any frames: none raises, the output is what they carry, across wraps of the frame number |
| `AuthPair.PairDelivers` | newpackage/lean/luci-app-ssrserver-python/root/usr/share/ssr/shadowsocks/obfsplugin/auth.py:577-637 | in every state of a connection each side has handed over a prefix of what the other wrote, and all of it when nothing is in flight |
| `AuthPair.Pair.ClientWrites` | newpackage/lean/luci-app-ssrserver-python/root/usr/share/ssr/shadowsocks/obfsplugin/auth.py:577-591 | a client object writes to a connected server object: the invariant of the connection holds; an auth_aes128 client whose first write is empty raises then and ever after |
| `AuthPair.Pair.ServerWrites` | newpackage/lean/luci-app-ssrserver-python/root/usr/share/ssr/shadowsocks/obfsplugin/auth.py:627-637 | the server object writes; it raises exactly while it has no key |
| `AuthPair.Pair.DeliverToServer` | newpackage/lean/luci-app-ssrserver-python/root/usr/share/ssr/shadowsocks/obfsplugin/auth.py:639-747 | any number of bytes reach the server object: it hands over data and never raises, while the tables of clients, which it shares with any other connections, let in the greeting; it knows the user and client of exactly this greeting |
| `AuthPair.Pair.DeliverToClient` | newpackage/lean/luci-app-ssrserver-python/root/usr/share/ssr/shadowsocks/obfsplugin/auth.py:593-625 | any number of bytes reach the client object: it hands over data and never raises |
| `AuthPair.Pair.Delivers` | newpackage/lean/luci-app-ssrserver-python/root/usr/share/ssr/shadowsocks/obfsplugin/auth.py:577-637 | so whatever calls have been made, in either direction and any order: output is a prefix of what was written, and all of it when nothing is in flight |
| `Admission.GreetingJudged` | newpackage/lean/luci-app-ssrserver-python/root/usr/share/ssr/shadowsocks/obfsplugin/auth.py:676-700 | a greeting that fits, in whatever pieces it has come and whatever follows it, is taken if and only if it comes in time and the table of its user lets its ids in; auth_sha1_v4 and auth_aes128 |
| `Admission.CallRuns` | newpackage/lean/luci-app-ssrserver-python/root/usr/share/ssr/shadowsocks/obfsplugin/auth.py:690-746 | what a call does to the tables is a run of at most two of their events, and only a greeting asks |
| `AuthEnds.NotAsked` | newpackage/lean/luci-app-ssrserver-python/root/usr/share/ssr/shadowsocks/obfsplugin/auth.py:702-747 | without a greeting that is good in all else the answer of the tables makes no difference |
| `AuthEnds.NamedWhen` | newpackage/lean/luci-app-ssrserver-python/root/usr/share/ssr/shadowsocks/obfsplugin/auth.py:644-675 | an auth_aes128 server knows the user if and only if both tags fit and it has the user |
| `Admission.GreetingOnce` | newpackage/lean/luci-app-ssrserver-python/root/usr/share/ssr/shadowsocks/obfsplugin/auth.py:110-179 | a greeting that has been taken, and comes again on any connection after any run of inserts, updates and removals of all clients: while every event has left its client the window, it is refused if and only if it comes too late or the client is active; once the window is lost, it is judged like an id never seen |
| `Admission.RefusedWhileHeard` | newpackage/lean/luci-app-ssrserver-python/root/usr/share/ssr/shadowsocks/obfsplugin/auth.py:110-179 | while its window is kept, a greeting that comes again in time is refused if and only if a request or data of the client, found in the events, is less than three minutes old |
| `Admission.DataRefreshes` | newpackage/lean/luci-app-ssrserver-python/root/usr/share/ssr/shadowsocks/obfsplugin/auth.py:702-746 | data of a greeted connection makes now the last time that its client was heard of, and of no other |
| `Admission.NobodyBefore` | newpackage/lean/luci-app-ssrserver-python/root/usr/share/ssr/shadowsocks/obfsplugin/auth.py:690-700 | a connection stands for no other client than before until it has taken a greeting |
| `Admission.TakenTwice` | newpackage/lean/luci-app-ssrserver-python/root/usr/share/ssr/shadowsocks/obfsplugin/auth.py:167-168 | an input for which an active client does not keep its window: with room for two, another client comes, and the same bytes are taken twice at the same time |
| `ChainAdmission.GreetingJudged` | newpackage/lean/luci-app-ssrserver-python/root/usr/share/ssr/shadowsocks/obfsplugin/auth_chain.py:526-548 | the same for auth_chain |
| `ChainAdmission.CallRuns` | newpackage/lean/luci-app-ssrserver-python/root/usr/share/ssr/shadowsocks/obfsplugin/auth_chain.py:536-590 | the same for auth_chain |
| `ChainEnds.NotAsked` | newpackage/lean/luci-app-ssrserver-python/root/usr/share/ssr/shadowsocks/obfsplugin/auth_chain.py:550-591 | the same for auth_chain |
| `ChainAdmission.GreetingOnce` | newpackage/lean/luci-app-ssrserver-python/root/usr/share/ssr/shadowsocks/obfsplugin/auth_chain.py:161-243 | the same for auth_chain, whose clients are active while they have a connection and sent data in the last ten minutes |
| `ChainAdmission.RefusedWhileOpen` | newpackage/lean/luci-app-ssrserver-python/root/usr/share/ssr/shadowsocks/obfsplugin/auth_chain.py:157-243 | while its window is kept, a greeting that comes again in time is refused if and only if the client has a connection open, counted over the events, and a request or data of it is less than ten minutes old |
| `ChainAdmission.DataRefreshes` | newpackage/lean/luci-app-ssrserver-python/root/usr/share/ssr/shadowsocks/obfsplugin/auth_chain.py:550-590 | as for auth_aes128 |
| `ChainAdmission.NobodyBefore` | newpackage/lean/luci-app-ssrserver-python/root/usr/share/ssr/shadowsocks/obfsplugin/auth_chain.py:536-548 | the same for auth_chain |
| `ChainAdmission.TakenTwice` | newpackage/lean/luci-app-ssrserver-python/root/usr/share/ssr/shadowsocks/obfsplugin/auth_chain.py:232-233 | an input for which an active client does not keep its window, as for auth_sha1_v4 |
| `ChainAdmission.TakenAfterClosing` | newpackage/lean/luci-app-ssrserver-python/root/usr/share/ssr/shadowsocks/obfsplugin/auth_chain.py:157-162 | after a client has closed a connection, its greeting is taken again if and only if it comes in time and that was its only connection or nothing was heard of it for ten minutes |
| `AuthStream.Sha1Padding` | newpackage/lean/luci-app-ssrserver-python/root/usr/share/ssr/shadowsocks/obfsplugin/auth.py:207-219 | a padding that tells its own size, of at most 1, 258 or 514 bytes by payload size |
| `AuthStream.AesPaddingLen` | newpackage/lean/luci-app-ssrserver-python/root/usr/share/ssr/shadowsocks/obfsplugin/auth.py:501-514 | the branches of the length rule: none for full buffers, otherwise frame and padding within one or two segments, or below 32 |
| `AuthStream.AesPadding` | newpackage/lean/luci-app-ssrserver-python/root/usr/share/ssr/shadowsocks/obfsplugin/auth.py:516-522 | a padding that tells its own size and keeps the frame below 8192, for every branch |
| `AuthStream.AuthEnd.PackData` | newpackage/lean/luci-app-ssrserver-python/root/usr/share/ssr/shadowsocks/obfsplugin/auth.py:524-532 | one frame; its length field is its byte length, within 7..8191 |
| `AuthStream.AuthEnd.PackUnits` | newpackage/lean/luci-app-ssrserver-python/root/usr/share/ssr/shadowsocks/obfsplugin/auth.py:261-267 | cutting and packing without loss |
| `AuthStream.AuthEnd.PackAuthData` | newpackage/lean/luci-app-ssrserver-python/root/usr/share/ssr/shadowsocks/obfsplugin/auth.py:534-562 | the greeting; an empty first payload makes auth_aes128 send none and leaves the key unset |
| `AuthStream.AuthEnd.ClientPreEncrypt` | newpackage/lean/luci-app-ssrserver-python/root/usr/share/ssr/shadowsocks/obfsplugin/auth.py:577-591 | what a client writes arrives in greeting and frames; auth_aes128 raises if and only if its first write was empty, and then on every write |
| `AuthStream.AuthEnd.ServerPreEncrypt` | newpackage/lean/luci-app-ssrserver-python/root/usr/share/ssr/shadowsocks/obfsplugin/auth.py:627-637 | what a server writes, cut and packed; raises exactly while auth_aes128 has no key |
| `AuthStream.AuthEnd.ReceiveLoop` | newpackage/lean/luci-app-ssrserver-python/root/usr/share/ssr/shadowsocks/obfsplugin/auth.py:381-398 | the while loop is the decoder |
| `AuthStream.AuthEnd.ClientPostDecrypt` | newpackage/lean/luci-app-ssrserver-python/root/usr/share/ssr/shadowsocks/obfsplugin/auth.py:593-625 | fields and reply are those of ClientCall; a wrong length check raises without ending the protocol, other failures end it |
| `AuthStream.AuthEnd.ServerPostDecrypt` | newpackage/lean/luci-app-ssrserver-python/root/usr/share/ssr/shadowsocks/obfsplugin/auth.py:639-747 | fields, tables of clients and reply are those of GuardedCall, for every judgement of the greeting and every failure of the loop, with key and user learned while waiting; the tables are asked and told as in auth_chain |
| `ReplayWindow.NoReplay` | newpackage/lean/luci-app-ssrserver-python/root/usr/share/ssr/shadowsocks/obfsplugin/auth.py:117-140 | within an epoch no id is accepted twice, whatever is requested |
| `ReplayWindow.WindowDecides` | newpackage/lean/luci-app-ssrserver-python/root/usr/share/ssr/shadowsocks/obfsplugin/auth.py:123-132 | the windowed test accepts exactly the unseen ids that are not too old and not too far ahead, as if all ids were remembered |
| `ReplayWindow.WindowBounds` | newpackage/lean/luci-app-ssrserver-python/root/usr/share/ssr/shadowsocks/obfsplugin/auth.py:133-139 | front <= back <= front + 0x1000 and fewer than 0x1000 remembered ids, none of them at front |
| `ReplayWindow.WindowAdvances` | newpackage/lean/luci-app-ssrserver-python/root/usr/share/ssr/shadowsocks/obfsplugin/auth.py:133-139 | the window never moves back |
| `ReplayWindow.FreshAccepts` | newpackage/lean/luci-app-ssrserver-python/root/usr/share/ssr/shadowsocks/obfsplugin/auth.py:111-115 | the id that opens an epoch is accepted whatever came before: replays are kept out within an epoch only |
| `ReplayWindow.ClientQueue.InsertId` | newpackage/lean/luci-app-ssrserver-python/root/usr/share/ssr/shadowsocks/obfsplugin/auth.py:117-140 | an insert is the rule on all ids of the epoch; an idle queue starts a new one |
| `ReplayWindow.ClientQueue.Advance` | newpackage/lean/luci-app-ssrserver-python/root/usr/share/ssr/shadowsocks/obfsplugin/auth.py:136-139 | the advancing loop ends on back - front and restores the window |
| `ReplayWindow.ClientQueue.ReEnable` | newpackage/lean/luci-app-ssrserver-python/root/usr/share/ssr/shadowsocks/obfsplugin/auth.py:111-115 | a new epoch |
| `ClientTable.ClientData.Insert` | newpackage/lean/luci-app-ssrserver-python/root/usr/share/ssr/shadowsocks/obfsplugin/auth.py:157-179 | answer and table are those of Inserted, in the order of its keys, for both rules of activity |
| `ClientTable.ClientData.Update` | newpackage/lean/luci-app-ssrserver-python/root/usr/share/ssr/shadowsocks/obfsplugin/auth_chain.py:205-211 | a client that is there is refreshed and comes last |
| `ClientTable.ClientData.Remove` | newpackage/lean/luci-app-ssrserver-python/root/usr/share/ssr/shadowsocks/obfsplugin/auth_chain.py:245-250 | a client that is there has one connection less and comes last |
| `ClientTable.AnswerIs` | newpackage/lean/luci-app-ssrserver-python/root/usr/share/ssr/shadowsocks/obfsplugin/auth.py:157-179 | a known client is let in if and only if it is idle or its window accepts the id, a new one if and only if there is room or the client examined is idle |
| `ClientTable.InsertedClients` | newpackage/lean/luci-app-ssrserver-python/root/usr/share/ssr/shadowsocks/obfsplugin/auth.py:157-179 | which clients the table holds after an insert, and the answer: known, room, eviction, refusal; the table never outgrows its limit |
| `ClientTable.FirstAfterTest` | newpackage/lean/luci-app-ssrserver-python/root/usr/share/ssr/shadowsocks/obfsplugin/auth.py:167-168 | looking the first client up moves it to the end, so that another one is first when it is deleted |
| `ClientTable.EvictedIsExamined` | newpackage/lean/luci-app-ssrserver-python/root/usr/share/ssr/shadowsocks/obfsplugin/auth.py:167-168 | the client deleted is the client examined if and only if it is the only one |
| `ClientTable.ActiveEvictedWhen` | newpackage/lean/luci-app-ssrserver-python/root/usr/share/ssr/shadowsocks/obfsplugin/auth.py:157-179 | an insert removes an active client if and only if the client is new, the table full, the first of at least two clients idle and the second active |
| `ClientTable.ActiveClientEvicted` | newpackage/lean/luci-app-ssrserver-python/root/usr/share/ssr/shadowsocks/obfsplugin/auth.py:167-168 | that state is reached by inserts from an empty table, under both rules of activity, and the active client goes |
| `ClientTable.SameIdAgain` | newpackage/lean/luci-app-ssrserver-python/root/usr/share/ssr/shadowsocks/obfsplugin/auth.py:157-179 | the client that has gone is then let in again with the id it has just used |
| `ClientRuns.RememberedAfter` | newpackage/lean/luci-app-ssrserver-python/root/usr/share/ssr/shadowsocks/obfsplugin/auth.py:110-179 | an insert, update or removal leaves an id remembered if and only if it leaves the client its window or is a request with this very id |
| `ClientRuns.RunRemembers` | newpackage/lean/luci-app-ssrserver-python/root/usr/share/ssr/shadowsocks/obfsplugin/auth.py:110-179 | over any run of events that leave a client its window, the ids it was let in with are remembered |
| `ClientRuns.RunForgets` | newpackage/lean/luci-app-ssrserver-python/root/usr/share/ssr/shadowsocks/obfsplugin/auth.py:110-179 | over any other run they are forgotten, unless the id is asked for in between |
| `ClientRuns.ReplayAnswer` | newpackage/lean/luci-app-ssrserver-python/root/usr/share/ssr/shadowsocks/obfsplugin/auth.py:110-179 | the answer to an id that was let in before such a run |
| `ClientRuns.CountsConnections` | newpackage/lean/luci-app-ssrserver-python/root/usr/share/ssr/shadowsocks/obfsplugin/auth_chain.py:153-162 | over any run, the counter of a client is the number of its accepted requests since it last came into the table less its removals, stopping at zero, counted on the events |
| `ClientRuns.HearsOfClients` | newpackage/lean/luci-app-ssrserver-python/root/usr/share/ssr/shadowsocks/obfsplugin/auth.py:105-110 | over any run, a client was last heard of when its last request or data came |
| `ClientRuns.ActiveAfter` | newpackage/lean/luci-app-ssrserver-python/root/usr/share/ssr/shadowsocks/obfsplugin/auth_chain.py:161-162 | so a client of auth_chain is active if and only if it has a connection open and was heard of in the last 600 seconds; one of the others in the last 180 |
| `UserTables.OwnEvents` | newpackage/lean/luci-app-ssrserver-python/root/usr/share/ssr/shadowsocks/obfsplugin/auth.py:426-429 | a user's table is where the user's own events alone would have brought it, whatever others do |
| `UserTables.UserData.Insert` | newpackage/lean/luci-app-ssrserver-python/root/usr/share/ssr/shadowsocks/obfsplugin/auth.py:426-455 | the table of the user, made if there is none, is asked, and no other changes |
| `UserTables.UserData.Update` | newpackage/lean/luci-app-ssrserver-python/root/usr/share/ssr/shadowsocks/obfsplugin/auth.py:414-420 | the same for data that has come |
| `UserTables.UserData.Remove` | newpackage/lean/luci-app-ssrserver-python/root/usr/share/ssr/shadowsocks/obfsplugin/auth_chain.py:245-250 | the same for a connection that has ended, but that no table is made |
| `RangeMerger.NormalizeCorrect` | newpackage/lean/ipset-lists/tools/ipv4_merger.c:246-274 | the merged list denotes the same addresses, sorted, with a gap of at least one address between neighbours, ranges up to 0xffffffff included |
| `RangeMerger.NormalFormUnique` | newpackage/lean/ipset-lists/tools/ipv4_merger.c:251-274 | two canonical lists of the same addresses are the same list |
| `RangeMerger.NormalizeDecidesSet` | newpackage/lean/ipset-lists/tools/ipv4_merger.c:246-274 | two inputs give the same output if and only if they denote the same addresses |
| `RangeMerger.NormalizeIdempotent` | newpackage/lean/ipset-lists/tools/ipv4_merger.c:246-274 | merging again changes nothing |
| `RangeMerger.NormalizeShortest` | newpackage/lean/ipset-lists/tools/ipv4_merger.c:246-274 | no list of ranges for the same addresses is shorter |
| `RangeMerger.NetCovers` | newpackage/lean/ipset-lists/tools/ipv4_merger.c:122-134 | net/bits covers exactly the addresses that agree with net in the first bits, for all 33 prefix lengths |
| `RangeMerger.RangeTable.AddRange` | newpackage/lean/ipset-lists/tools/ipv4_merger.c:78-111 | appends a range, growing the table |
| `RangeMerger.RangeTable.AddNetmask` | newpackage/lean/ipset-lists/tools/ipv4_merger.c:113-120 | appends the range of a network and mask |
| `RangeMerger.RangeTable.AddNet` | newpackage/lean/ipset-lists/tools/ipv4_merger.c:122-134 | appends the range of a prefix |
| `RangeMerger.MergeInPlace` | newpackage/lean/ipset-lists/tools/ipv4_merger.c:258-274 | the in-place loop, with its write index behind its read index, is the merge, and the guard keeps end + 1 from wrapping |
| `RangeMerger.RangeTable.Close` | newpackage/lean/ipset-lists/tools/ipv4_merger.c:246-274 | sorting and merging leave the normal form of what was added |
| `OrderedDictionary.OperationsKeepWellFormed` | newpackage/lean/luci-app-ssrserver-python/root/usr/share/ssr/shadowsocks/ordereddict.py:40-57 | every operation keeps keys distinct and in step with the values |
| `OrderedDictionary.OrderedDict.SetItem` | newpackage/lean/luci-app-ssrserver-python/root/usr/share/ssr/shadowsocks/ordereddict.py:40-48 | the circle of links represents the sequence with the key set; a new key goes to the end |
| `OrderedDictionary.OrderedDict.DelItem` | newpackage/lean/luci-app-ssrserver-python/root/usr/share/ssr/shadowsocks/ordereddict.py:50-57 | the circle without the key's link; a missing key is the KeyError and changes nothing |
| `OrderedDictionary.OrderedDict.Iter` | newpackage/lean/luci-app-ssrserver-python/root/usr/share/ssr/shadowsocks/ordereddict.py:59-66 | following next from the sentinel yields the keys in order |
| `OrderedDictionary.OrderedDict.Reversed` | newpackage/lean/luci-app-ssrserver-python/root/usr/share/ssr/shadowsocks/ordereddict.py:68-75 | following prev yields exactly the reversed sequence |
| `OrderedDictionary.OrderedDict.Pop` | newpackage/lean/luci-app-ssrserver-python/root/usr/share/ssr/shadowsocks/ordereddict.py:118-130 | value or default, and the key removed |
| `OrderedDictionary.OrderedDict.PopItem` | newpackage/lean/luci-app-ssrserver-python/root/usr/share/ssr/shadowsocks/ordereddict.py:139-148 | the last or first pair, removed; an empty dictionary is the KeyError |
| `OrderedDictionary.OrderedDict.Clear` | newpackage/lean/luci-app-ssrserver-python/root/usr/share/ssr/shadowsocks/ordereddict.py:77-84 | the empty sequence again |
| `LruCache.TouchKeepsOrder` | newpackage/lean/luci-app-ssrserver-python/root/usr/share/ssr/shadowsocks/lru_cache.py:54-68 | with a clock that does not run backwards accesses keep times sorted in list order |
| `LruCache.ExpiredFirst` | newpackage/lean/luci-app-ssrserver-python/root/usr/share/ssr/shadowsocks/lru_cache.py:96-101 | expired keys are a prefix of the list and fresh ones the rest |
| `LruCache.SweepIsFilter` | newpackage/lean/luci-app-ssrserver-python/root/usr/share/ssr/shadowsocks/lru_cache.py:90-110 | for every limit, a sweep removes the first keys of those that a filter of the whole cache by time would remove, oldest access first, as many as there are up to the limit; the others of them and the fresh keys stay, in order |
| `LruCache.DropOldestKeeps` | newpackage/lean/luci-app-ssrserver-python/root/usr/share/ssr/shadowsocks/lru_cache.py:102-104 | what is left keeps its values and times |
| `LruCache.DroppedOncePerKey` | newpackage/lean/luci-app-ssrserver-python/root/usr/share/ssr/shadowsocks/lru_cache.py:105-106 | the callback gets each removed value once, oldest access first |
| `LruCache.KeptAreRecent` | newpackage/lean/luci-app-ssrserver-python/root/usr/share/ssr/shadowsocks/lru_cache.py:112-129 | every key left was accessed no earlier than every key removed |
| `LruCache.LruCache.GetItem` | newpackage/lean/luci-app-ssrserver-python/root/usr/share/ssr/shadowsocks/lru_cache.py:54-60 | the value, with the key moved to the end; a missing key is the KeyError |
| `LruCache.LruCache.SetItem` | newpackage/lean/luci-app-ssrserver-python/root/usr/share/ssr/shadowsocks/lru_cache.py:62-68 | store and times in step |
| `LruCache.LruCache.DelItem` | newpackage/lean/luci-app-ssrserver-python/root/usr/share/ssr/shadowsocks/lru_cache.py:70-74 | key gone from both |
| `LruCache.LruCache.Sweep` | newpackage/lean/luci-app-ssrserver-python/root/usr/share/ssr/shadowsocks/lru_cache.py:90-110 | the loop removes what that filter gives, up to the limit, and hands its values over; its answer |
| `LruCache.LruCache.Clear` | newpackage/lean/luci-app-ssrserver-python/root/usr/share/ssr/shadowsocks/lru_cache.py:112-129 | exactly the keep most recently touched keys are left |
| `PoString.EscapeRoundTrip` | newpackage/lean/default-settings/tools/po2lmo/src/po2lmo.c:39-83 | every text comes back from its escaped form, whatever follows the closing quote |
| `PoString.ExtractString` | newpackage/lean/default-settings/tools/po2lmo/src/po2lmo.c:39-83 | the in-place copy writes exactly the unescaped text between the quotes, and its length; -1 without a quote |
| `LmoArchive.WriteArchive` | newpackage/lean/default-settings/tools/po2lmo/src/po2lmo.c:195-242 | the loop with its running int offset writes padded values, sorted index and offset, or removes the file |
| `LmoArchive.ArchiveWritten` | newpackage/lean/default-settings/tools/po2lmo/src/po2lmo.c:233-242 | below 2^32 bytes of values an archive is written if and only if there is an entry and the values take less than 2^31 bytes: beyond, the int offset is negative |
| `LmoArchive.FindEntry` | newpackage/lean/default-settings/tools/po2lmo/src/template_lmo.c:244-278 | the loop is the search Find, with unsigned 32-bit bounds, for every index in the file and for a length of -1 |
| `LmoArchive.FindIsLookup` | newpackage/lean/default-settings/tools/po2lmo/src/template_lmo.c:244-278 | on keys in ascending order the search agrees with linear search |
| `LmoArchive.FindFaults` | newpackage/lean/default-settings/tools/po2lmo/src/template_lmo.c:249-259 | the search reads outside the index if and only if there are no entries |
| `LmoArchive.OpenedIsIndexed` | newpackage/lean/default-settings/tools/po2lmo/src/template_lmo.c:126-134 | what lmo_open opens has its index inside the file, or length -1, if and only if a size_t has 64 bits or the index does not begin in the last four bytes |
| `LmoArchive.LengthWraps` | newpackage/lean/default-settings/tools/po2lmo/src/template_lmo.c:134-134 | the length that comes of an index in the last four bytes, for both sizes of size_t |
| `LmoRoundTrip.SortIncreases` | newpackage/lean/default-settings/tools/po2lmo/src/po2lmo.c:85-96 | sorting entries with distinct ids makes them strictly ascend |
| `LmoRoundTrip.ValueAt` | newpackage/lean/default-settings/tools/po2lmo/src/po2lmo.c:214-223 | every entry says where its value is |
| `LmoRoundTrip.OpenFindsIndex` | newpackage/lean/default-settings/tools/po2lmo/src/template_lmo.c:126-136 | lmo_open finds index and length of a written file |
| `LmoRoundTrip.EntryAtIs` | newpackage/lean/default-settings/tools/po2lmo/src/template_lmo.c:244-262 | the entries read back are the entries written |
| `LmoRoundTrip.ArchiveRoundTrip` | newpackage/lean/default-settings/tools/po2lmo/src/po2lmo.c:104-117 | a written archive opens, every stored key id is found with exactly its value, and no other id is found |
| `LmoRoundTrip.WrittenWhen` | newpackage/lean/default-settings/tools/po2lmo/src/po2lmo.c:195-242 | for any pairs, an archive is written if and only if some key and value are not empty and hash differently, and the values take less than 2^31 bytes |
| `LmoRoundTrip.TranslationsAreFound` | newpackage/lean/default-settings/tools/po2lmo/src/po2lmo.c:195-242 | for any pairs, each whose key and value are not empty and hash differently is found under the hash of its key with exactly its value, and an id that is the hash of no such key is not found |
| `LmoCatalog.CanonHash` | newpackage/lean/default-settings/tools/po2lmo/src/template_lmo.c:72-98 | the in-place loop hashes the text with white space squeezed and trimmed; texts of 4096 bytes and more hash to zero |
| `LmoCatalog.CanonSameWords` | newpackage/lean/default-settings/tools/po2lmo/src/template_lmo.c:81-95 | two texts have the same canonical form if and only if they have the same words; canonical forms are their own |
| `LmoCatalog.Translate` | newpackage/lean/default-settings/tools/po2lmo/src/template_lmo.c:280-302 | the archives are searched in turn for the id of the text until one has it |
| `LmoCatalog.StoredTextIsTranslated` | newpackage/lean/default-settings/tools/po2lmo/src/template_lmo.c:280-302 | for any translation among the pairs that the archive was made of: a text with the words of its canonical key leads to exactly its value if and only if the text is shorter than 4096 bytes or the key hashes to zero |
| `DnsCodec.BuildAddress` | newpackage/lean/luci-app-ssrserver-python/root/usr/share/ssr/shadowsocks/asyncdns.py:97-108 | the loop writes the labels of the address without outer dots, or refuses a label over 63 bytes |
| `DnsCodec.JoinSplit` | newpackage/lean/luci-app-ssrserver-python/root/usr/share/ssr/shadowsocks/asyncdns.py:98-99 | splitting at dots and joining again gives the text |
| `DnsCodec.StripsDots` | newpackage/lean/luci-app-ssrserver-python/root/usr/share/ssr/shadowsocks/asyncdns.py:98-98 | stripping takes away all outer dots and nothing else |
| `DnsCodec.ReadName` | newpackage/lean/luci-app-ssrserver-python/root/usr/share/ssr/shadowsocks/asyncdns.py:130-148 | the loop, with its recursion into pointers, is the parser function |
| `DnsCodec.ParseSpelled` | newpackage/lean/luci-app-ssrserver-python/root/usr/share/ssr/shadowsocks/asyncdns.py:130-148 | on names whose pointers go strictly backwards parse_name ends and gives their size and labels, with a dot too many when a last pointer leads to the root |
| `DnsCodec.ParsedTextExact` | newpackage/lean/luci-app-ssrserver-python/root/usr/share/ssr/shadowsocks/asyncdns.py:137-143 | the text is the labels joined by dots if and only if no last pointer leads to the root or there are no labels |
| `DnsCodec.RootPointerDot` | newpackage/lean/luci-app-ssrserver-python/root/usr/share/ssr/shadowsocks/asyncdns.py:137-143 | a message for which it is not: "a." for the one label "a" |
| `DnsMessage.ReadRecords` | newpackage/lean/luci-app-ssrserver-python/root/usr/share/ssr/shadowsocks/asyncdns.py:222-239 | a loop over records; anything that raises ends it |
| `DnsMessage.ReadResponse` | newpackage/lean/luci-app-ssrserver-python/root/usr/share/ssr/shadowsocks/asyncdns.py:208-246 | the four loops of parse_response |
| `DnsResponse.ResponseRead` | newpackage/lean/luci-app-ssrserver-python/root/usr/share/ssr/shadowsocks/asyncdns.py:173-246 | any message laid out as RFC 1035 says, with compressed names: parse_response gives the first name, the questions and the answers in order, each with its type, class, and the address, name or bytes of its data, whatever the other sections hold; and fails if and only if an address has the wrong size |
| `DnsResponse.AddressAnswerRead` | newpackage/lean/luci-app-ssrserver-python/root/usr/share/ssr/shadowsocks/asyncdns.py:173-246 | the answer a server sends to a request, its name a pointer to the question: name, question and address come back |
| `DnsMessage.RequestName` | newpackage/lean/luci-app-ssrserver-python/root/usr/share/ssr/shadowsocks/asyncdns.py:111-116 | the name a parser finds in any request: the labels up to the first empty one |
| `DnsMessage.RequestParsed` | newpackage/lean/luci-app-ssrserver-python/root/usr/share/ssr/shadowsocks/asyncdns.py:208-246 | what parse_response makes of any request |
| `DnsMessage.RequestRoundTrip` | newpackage/lean/luci-app-ssrserver-python/root/usr/share/ssr/shadowsocks/asyncdns.py:111-116 | parse_response(build_request(h, q)) gives back h and q if and only if h is made of labels of 1 to 63 bytes separated by single dots |
| `DnsMessage.EmptyHostMisread` | newpackage/lean/luci-app-ssrserver-python/root/usr/share/ssr/shadowsocks/asyncdns.py:97-116 | without a name the question is read one byte too early |
| `HostNames.ValidHostRecovered` | newpackage/lean/luci-app-ssrserver-python/root/usr/share/ssr/shadowsocks/asyncdns.py:249-254 | a request can be built for a name that is_valid_hostname lets through if and only if its labels have at most 63 bytes, and is parsed back if and only if, besides, the name has no dot at the end |
| `HostNames.MatchesWhen` | newpackage/lean/luci-app-ssrserver-python/root/usr/share/ssr/shadowsocks/asyncdns.py:38-38 | what the pattern for a label matches |
| `HostNames.MatchingLength` | newpackage/lean/luci-app-ssrserver-python/root/usr/share/ssr/shadowsocks/asyncdns.py:38-38 | a label that the pattern matches is too long for a request if and only if it has 63 bytes and then a newline |
| `HostNames.ValidNotAskable` | newpackage/lean/luci-app-ssrserver-python/root/usr/share/ssr/shadowsocks/asyncdns.py:38-38 | a name that is let through and for which no request can be built: a label of 63 bytes and a newline |
| `Resolver.AskedIsKnown` | newpackage/lean/luci-app-ssrserver-python/root/usr/share/ssr/shadowsocks/asyncdns.py:464-511 | so for every name that comes through all checks of resolve |
| `Resolver.StatusLeftBehind` | newpackage/lean/luci-app-ssrserver-python/root/usr/share/ssr/shadowsocks/asyncdns.py:495-504 | with such a name resolve raises and leaves a status for which nobody waits |
| `Resolver.EveryRun` | newpackage/lean/luci-app-ssrserver-python/root/usr/share/ssr/shadowsocks/asyncdns.py:369-421 | over every list of calls and responses in which no two calls of resolve bring the same callback: no callback is invoked twice, status and waiters have the same host names but for statuses left behind, which are of names no request can be built for, removable callbacks are waiters, no pending query switches its family twice |
| `Resolver.SoundMeans` | newpackage/lean/luci-app-ssrserver-python/root/usr/share/ssr/shadowsocks/asyncdns.py:445-455 | every callback given is waiting, invoked once or removed; a waiting one can be removed if and only if it opened its query |
| `Resolver.SecondWaiterStays` | newpackage/lean/luci-app-ssrserver-python/root/usr/share/ssr/shadowsocks/asyncdns.py:497-511 | a second waiter cannot be taken back and is still invoked |
| `Answering.AddressAnswers` | newpackage/lean/luci-app-ssrserver-python/root/usr/share/ssr/shadowsocks/asyncdns.py:384-402 | a response with an address for a pending name invokes exactly its waiters, in order, with the first address of class IN, and the name is no longer pending |
| `Answering.NoAddressSwitches` | newpackage/lean/luci-app-ssrserver-python/root/usr/share/ssr/shadowsocks/asyncdns.py:389-421 | one without an address moves a query of the first family to the other with the same waiters, and ends one of the other family, with an error for all waiters, if and only if it has a question of that family |
| `Answering.SentAgainWhen` | newpackage/lean/luci-app-ssrserver-python/root/usr/share/ssr/shadowsocks/asyncdns.py:394-399 | a second query is sent if and only if the name is asked for in the first family and the response has no address for it |
| `Answering.StuckAfter` | newpackage/lean/luci-app-ssrserver-python/root/usr/share/ssr/shadowsocks/asyncdns.py:394-421 | what a response does to a name for which no request could be built |
| `Answering.OthersAreIgnored` | newpackage/lean/luci-app-ssrserver-python/root/usr/share/ssr/shadowsocks/asyncdns.py:384-386 | a response for a name that is not pending invokes nobody |
| `Answering.ToldInTheEnd` | newpackage/lean/luci-app-ssrserver-python/root/usr/share/ssr/shadowsocks/asyncdns.py:384-421 | over whole runs: a callback whose name is asked about is told the address in the first response that has one, unless an error comes first or it is taken back |
| `Answering.ResolveWaits` | newpackage/lean/luci-app-ssrserver-python/root/usr/share/ssr/shadowsocks/asyncdns.py:491-511 | who asks for a name waits for it, last in the row |
| `Answering.AnsweredAtOnce` | newpackage/lean/luci-app-ssrserver-python/root/usr/share/ssr/shadowsocks/asyncdns.py:464-490 | a name that needs no query is answered at once with its address |
| `Answering.TakenBack` | newpackage/lean/luci-app-ssrserver-python/root/usr/share/ssr/shadowsocks/asyncdns.py:445-455 | a callback that opened a query can be taken back and is then not invoked; the others keep waiting |
| `Answering.AskedWhen` | newpackage/lean/luci-app-ssrserver-python/root/usr/share/ssr/shadowsocks/asyncdns.py:464-492 | a name is asked about if and only if it is no address, unknown, not black and valid |
| `Answering.KnownWhen` | newpackage/lean/luci-app-ssrserver-python/root/usr/share/ssr/shadowsocks/asyncdns.py:464-486 | and answered from itself, the hosts file or the cache, in this order |
| `Resolver.AfterSound` | newpackage/lean/luci-app-ssrserver-python/root/usr/share/ssr/shadowsocks/asyncdns.py:384-421 | every event keeps the invariant, and what was invoked stays invoked |
| `Resolver.DnsResolver.Resolve` | newpackage/lean/luci-app-ssrserver-python/root/usr/share/ssr/shadowsocks/asyncdns.py:464-511 | the checks in their order, then answer at once, open a query, join one, or raise when the request cannot be built |
| `Resolver.DnsResolver.CallCallback` | newpackage/lean/luci-app-ssrserver-python/root/usr/share/ssr/shadowsocks/asyncdns.py:369-382 | all waiters of a host name, in order, and nothing of it left |
| `Resolver.DnsResolver.HandleData` | newpackage/lean/luci-app-ssrserver-python/root/usr/share/ssr/shadowsocks/asyncdns.py:384-421 | the object goes the step of the resolver: it switches the family and sends the other query, answers, or ignores; it raises at most for a status left behind |
| `Resolver.DnsResolver.RemoveCallback` | newpackage/lean/luci-app-ssrserver-python/root/usr/share/ssr/shadowsocks/asyncdns.py:445-455 | takes an opener off its list, and the query with the last waiter |
| `StreamCipher.AlignedXor` | newpackage/lean/luci-app-ssrserver-python/root/usr/share/ssr/shadowsocks/crypto/sodium.py:90-101 | zeros in front of the data move the key stream from the block to the byte |
| `StreamCipher.SodiumCrypto.Update` | newpackage/lean/luci-app-ssrserver-python/root/usr/share/ssr/shadowsocks/crypto/sodium.py:87-105 | the output continues the key stream where the last call stopped, through a shared buffer that grows |
| `StreamCipher.RunCipher` | newpackage/lean/luci-app-ssrserver-python/root/usr/share/ssr/shadowsocks/crypto/util.py:97-121 | encrypting and decrypting in random pieces gives the plaintext |
| `StreamCipher.Encryptor.Encrypt` | newpackage/lean/luci-app-ssrserver-python/root/usr/share/ssr/shadowsocks/encrypt.py:121-128 | the IV goes before the first output, empty writes do nothing |
| `StreamCipher.Encryptor.Decrypt` | newpackage/lean/luci-app-ssrserver-python/root/usr/share/ssr/shadowsocks/encrypt.py:130-147 | the IV is collected from whatever arrives |
| `StreamCipher.SealAnyChunks` | newpackage/lean/luci-app-ssrserver-python/root/usr/share/ssr/shadowsocks/encrypt.py:121-128 | however the plaintext is cut, the wire carries the IV and the encryption of the whole |
| `StreamCipher.AnyTwoChunkings` | newpackage/lean/luci-app-ssrserver-python/root/usr/share/ssr/shadowsocks/encrypt.py:130-147 | under two independent chunkings the other end outputs exactly the plaintext so far |
| `RateLimit.EventBalance` | newpackage/lean/luci-app-ssrserver-python/root/usr/share/ssr/shadowsocks/tcprelay.py:107-124 | one read: the counter takes in its bytes and loses no more than the time allows |
| `RateLimit.AnyWindow` | newpackage/lean/luci-app-ssrserver-python/root/usr/share/ssr/shadowsocks/tcprelay.py:98-124 | in any window of length d of any run, at most max_speed * d + max_speed + C bytes are read |
| `RateLimit.AgreesWhen` | newpackage/lean/luci-app-ssrserver-python/root/usr/share/ssr/shadowsocks/tcprelay.py:116-124 | a meter agrees to a read if and only if it is not limited or holds less than drains in one second more than has passed |
| `RateLimit.ReadLeaves` | newpackage/lean/luci-app-ssrserver-python/root/usr/share/ssr/shadowsocks/tcprelay.py:107-114 | what a read leaves in a meter, drained before |
| `RateLimit.SpeedTester.Add` | newpackage/lean/luci-app-ssrserver-python/root/usr/share/ssr/shadowsocks/tcprelay.py:107-114 | the counter drains to zero at least, then the bytes are added |
| `RateLimit.SpeedTester.IsExceed` | newpackage/lean/luci-app-ssrserver-python/root/usr/share/ssr/shadowsocks/tcprelay.py:116-124 | drains, and compares with one second's worth |
| `RateLimit.HandleReadable` | newpackage/lean/luci-app-ssrserver-python/root/usr/share/ssr/shadowsocks/tcprelay.py:1073-1075 | a read happens only when both meters agree, and what it brings is added to both |
| `PortLedger.NeverOverbilled` | newpackage/lean/luci-app-ssrserver-python/root/usr/share/ssr/db_transfer.py:32-78 | over whole runs the database accepts no more than the relays carried, up and down, and since the last reset exactly last_update_transfer |
| `PortLedger.AfterSound` | newpackage/lean/luci-app-ssrserver-python/root/usr/share/ssr/db_transfer.py:148-188 | traffic, pushes, acknowledgements, stops, starts and removals keep the books of a port |
| `PortLedger.DeltaPositive` | newpackage/lean/luci-app-ssrserver-python/root/usr/share/ssr/db_transfer.py:44-58 | no delta is ever negative, in either direction |
| `PortLedger.PushCatchesUp` | newpackage/lean/luci-app-ssrserver-python/root/usr/share/ssr/db_transfer.py:48-58 | while a server keeps running nothing is lost: after an accepted push the shortfall is that of its start |
| `PortLedger.CountsTraffic` | newpackage/lean/luci-app-ssrserver-python/root/usr/share/ssr/db_transfer.py:32-78 | the books count exactly the traffic of the events while the port runs |
| `PortLedger.PushAccepts` | newpackage/lean/luci-app-ssrserver-python/root/usr/share/ssr/db_transfer.py:44-72 | what a push adds to the accepted traffic: all of a running server, and of one to be settled what was last seen |
| `PortLedger.StopLoses` | newpackage/lean/luci-app-ssrserver-python/root/usr/share/ssr/db_transfer.py:159-170 | what stopping a server loses: the traffic since the last push, or all if none was accepted since it started |
| `PortLedger.RemoveLoses` | newpackage/lean/luci-app-ssrserver-python/root/usr/share/ssr/db_transfer.py:174-199 | what removing a port keeps and forgets |
| `Billing.ServerPool.GetServersTransfer` | newpackage/lean/luci-app-ssrserver-python/root/usr/share/ssr/server_pool.py:272-292 | one row per port, the sum over its relays |
| `Billing.ServerPool.GetServerTransfer` | newpackage/lean/luci-app-ssrserver-python/root/usr/share/ssr/server_pool.py:237-254 | the sum of the four relays of a port, zeros for a port without any |
| `Billing.ServerPool.CbDelServer` | newpackage/lean/luci-app-ssrserver-python/root/usr/share/ssr/server_pool.py:180-214 | all relays of the port are gone, others untouched |
| `Billing.StartedRelays` | newpackage/lean/luci-app-ssrserver-python/root/usr/share/ssr/server_pool.py:108-167 | a new server has relays of just the kinds configured |
| `Billing.Deltas` | newpackage/lean/luci-app-ssrserver-python/root/usr/share/ssr/db_transfer.py:40-58 | the report: settled ports as last seen, others what they have gained |
| `Billing.Accept` | newpackage/lean/luci-app-ssrserver-python/root/usr/share/ssr/db_transfer.py:68-72 | accepted rows are added, except for settled ports |
| `Billing.TransferBase.PushDbAllUser` | newpackage/lean/luci-app-ssrserver-python/root/usr/share/ssr/db_transfer.py:32-78 | a push does to every port what its ledger says, and before the first pull nothing |
| `Billing.TransferBase.StopServer` | newpackage/lean/luci-app-ssrserver-python/root/usr/share/ssr/db_transfer.py:159-170 | a stopped server is to be settled by the next push |
| `Billing.TransferBase.ClearCache` | newpackage/lean/luci-app-ssrserver-python/root/usr/share/ssr/db_transfer.py:196-199 | both memories are cleared, except that for a port to be settled deleting from the set raises |
| `Billing.TransferBase.RemovePort` | newpackage/lean/luci-app-ssrserver-python/root/usr/share/ssr/db_transfer.py:174-183 | a removed port starts anew; the exception leaves its books in order |

## Left out

- Sockets, event loops, fork, files, SQL, JSON, logging, configuration: not part of this model; clocks, random draws and answers of other components are parameters or arbitrary choices.
- HMAC, MD5, SHA-1, CRC-32, Adler-32, RC4, AES, Salsa20, ChaCha20, base64, EVP_BytesToKey and sfh_hash are parameters; two different inputs may have equal digests, and nothing is said about forged traffic.
- The UDP packets of auth_chain and auth_aes128, the older auth protocols, http_simple and the TLS look-alike of obfs_tls.py, whose client needs the server's reply in one read.
- AuthChain.AuthChain.ServerPostDecrypt: after a refusal the fields for keys, digests and overhead, which nothing reads any more, are as before; the source has set some of them.
- AuthChain.AuthChain.RndData: the position of the payload is cut off at the padding length so that the function is total for any rule; the rules proved never reach it.
- AuthChain.AuthChain.ServerPreEncrypt: a unit below one byte is excluded, for which the source never leaves its loop.
- ChainSession.ServerToClient: up to 2^32 frames, because the client strips an MSS from every frame numbered 1, while the server adds one per call.
- The two generators of an auth_chain end are held as values; `Xorshift.Generator` is the object that refines them.
- The integer clock of the greeting and the real one of the tables are two parameters, as the source calls time.time() for each; connections are served one call after the other.
- AuthStream.AuthEnd.PackData: a segment size above 4096 is excluded, as tcprelay.py only passes on 501 to 1500.
- AuthStream.TrapezoidInt: the float of the trapezoid distribution is any real of [0, 1).
- ClientTable.ClientData.Insert: no window is ever disabled, so the branch that enables one again is not modelled; the table of the values that the cache of lru_cache.py holds, without its times, which nothing reads here.
- RangeMerger.RangeTable.AddRange: allocation does not fail, and the table is not shrunk at the end; parsing of the input lines and ranges with start above end are not modelled.
- RangeMerger.RangeTable.AddNet: prefix lengths above 32 are excluded.
- RangeMerger.RangeTable.Sort: qsort is a sorting function; LmoArchive.WriteArchive likewise, which fixes the order only for distinct ids.
- OrderedDictionary.OrderedDict.Iter: iteration is over a whole unchanged dictionary; setdefault, copies, views and comparison are left out as easy members over the same operations.
- LruCache.LruCache.Sweep: the cache keeps its times in the value that OrderedDict stands for, not in the object; the callback is represented by the list of values handed to it.
- PoString.ExtractString: a buffer without any zero byte has its full length; the line-by-line states of po2lmo are not modelled, the archive starts from a list of pairs.
- LmoArchive.WriteArchive: the overflow of the int offset is modelled as wrap-around.
- LmoRoundTrip.ArchiveRoundTrip: for values below 2^31 bytes, beyond which nothing is written, and files below 2^32 bytes, whose size lmo_open can hold.
- LmoArchive.FindEntry: what a probe outside of the index reads is not modelled. Files of one to three bytes, from which lmo_open reads before the mapping, are excluded.
- LmoCatalog.Translate: reading a directory into a catalogue is not modelled.
- LmoCatalog.StoredTextIsTranslated: for stored keys that are in canonical form, because the writer hashes keys as they are; hashes of different keys that coincide are excluded by distinct ids.
- DnsCodec.ReadName: the interpreter's limit on recursion is a parameter, the depth; the theorems need a depth of at least the number of pointers followed, which is at most the offset of the name.
- DnsMessage.ReadResponse: times to live and header flags are read by the source and used by nobody; the text of addresses is a parameter.
- Resolver.DnsResolver.Resolve: the test for addresses is a parameter, and the hosts file, the black list and the version of Python are configuration; the cache is a map without its timeouts, which are in LruCache; callbacks do not call the resolver and are distinct.
- StreamCipher.SodiumCrypto.Update: the block number is an exact quotient; the source divides floats, which round from 2^53 bytes on, and the 32-bit block counter of chacha20-ietf is not modelled.
- RateLimit.AnyWindow: over reals, without rounding; changing the limit during a run is not part of the bound.
- Billing.ServerPool.GetServersTransfer: the counters that multi-user relays keep per user are left out.
- Billing.TransferBase.PushDbAllUser: ports with a multi-user relay are left out, as a forced reset does not reset the counters of such relays; the multiplier is one, and the rule that small amounts wait is one of the subsets of rows that may be accepted.
- Billing.TransferBase.StopServer: closing a relay does not fail.
- JSFormat in shell.py, the openl2tp RPC files, mproxy, hidecss.js, build files, patches and translations.
