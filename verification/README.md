# Telegram Desktop, modelled in Dafny

Verified models of the self-contained algorithms and protocols of Telegram Desktop: how an update is packed and
installed, how 3D meshes are converted, how sync hashes are folded, how the client talks to the server about messages,
stickers, link previews, albums, forwards, chats lists, invite links and searches, and how the shell of a web app talks
to its frame. Each file below is one module. Where the program changes state step by step the model has a method or a
class that does so, proved against a specification, and the lemmas state what holds over all inputs or over all runs.

| module | what it models |
|---|---|
| `Sha1`, `PackerSha1` | FIPS 180-4, and the packer's SHA-1 against it |
| `Repeated`, `Envelope` | the update envelope: writer, reader, and adding signatures later |
| `BigEndian`, `MeshFile`, `PyText`, `MeshText`, `MeshRoundTrip` | the two mesh scripts and their round trip |
| `ApiHash` | the 64-bit sync hash |
| `ShellBridge`, `ShellColors` | the web-app shell: its event queue, and the ripple colour |
| `MessageData`, `WebPages` | batched requests with many callers |
| `StickerSets`, `StickerReorder` | the sticker transaction: local edit, and the order that goes out at its end |
| `Albums`, `Forwarding` | sending albums, and forwarding in batches |
| `DialogsLoad` | loading chats lists |
| `InviteLinks`, `MessagesSearch` | two caches |
| `Updater` | the updater's scan of an unpacked update |
| `Util` | vocabulary shared by the others |

How protocols are modelled: a request is a fresh positive id; replies arrive in any order, or never; a cancelled
request gets none. A run is a sequence of states, each reached from the one before by some step, and a result "over all
runs" is an invariant of every state of every run. The class beside a protocol has the fields of the program; its ghost
state is the state of the protocol, and each method is proved to take exactly one of its steps.

Where the code and what is said or expected of it disagree, the model follows the code, and the disagreement is stated
as a lemma:

- The packer pads as SHA-1 does only below 2^29 bytes (`PackerSha1.PadsLikeTheStandard`).
- Byte identity of the mesh scripts needs whole triples, pairs and triangles (`MeshRoundTrip.RoundTripExactly`,
  `MeshRoundTrip.LooseFloatIsLost`).
- A link preview moved to an earlier time is asked for late (`WebPages.LateIff`, `WebPages.MovedIsLate`).
- A complete album can stay unsent (`Albums.LeftBehindIff`, `Albums.LeftBehind`).
- Events are lost without a trace to a frame that cannot take them (`ShellBridge.BlockedIff`,
  `ShellBridge.NothingBlockedIff`, `ShellBridge.OriginlessFrameLosesEvents`).
- A not-modified reply, which a request with a zero hash should not get, stops a chats list for good
  (`DialogsLoad.StuckIff`, `DialogsLoad.StuckMain`) and is cached as a page of a search
  (`MessagesSearch.PagesKeptIff`, `MessagesSearch.NotModifiedIsKept`).
- The count of invite links can fall behind the list (`InviteLinks.StepCoversIff`,
  `InviteLinks.ReportedIsNotCounted`).
- A search held back while messages are deleted can store a wrong page (`MessagesSearch.CacheKeptIff`,
  `MessagesSearch.HeldBackPoisons`), and topics share cached pages (`MessagesSearch.TopicsShareAPage`).
- Two files of an update can have the same target (`Updater.TargetsDistinctIff`, `Updater.SameTargetTwice`,
  `Updater.SameTargetExample`).

`dafny verify dfyconfig.toml` checks everything.

## Model

| member | source | states |
|---|---|---|
| `PackerSha1.ShiftIsRotation` | Telegram/SourceFiles/_other/packer.cpp:82-84 | the two-shift expression is the left rotation of FIPS 180-4, for every shift it is used with |
| `PackerSha1.ChooseIsCh` | Telegram/SourceFiles/_other/packer.cpp:104-105 | the OR form of the choice function equals Ch, which the standard writes with exclusive or |
| `PackerSha1.MajorityIsMaj` | Telegram/SourceFiles/_other/packer.cpp:107 | the OR form of the majority function equals Maj |
| `PackerSha1.SwapIsRound` | Telegram/SourceFiles/_other/packer.cpp:89-97 | one use of the swap macro is one round of section 6.1.2 |
| `PackerSha1.ExtendSchedule` | Telegram/SourceFiles/_other/packer.cpp:99-102 | the in-place schedule step computes the next word of the message schedule and leaves the earlier ones |
| `PackerSha1.Sha1PartHash` | Telegram/SourceFiles/_other/packer.cpp:86-118 | the 80 in-place rounds turn the state into the standard's compression of the old state and the 16 loaded words |
| `PackerSha1.LoadBlock` | Telegram/SourceFiles/_other/packer.cpp:128-133 | packing by shifts loads the block's words in big-endian order |
| `PackerSha1.LoadTail` | Telegram/SourceFiles/_other/packer.cpp:138-143 | the tail and the 0x80 byte stand in the zeroed words, byte by byte, nothing else set |
| `PackerSha1.OverflowBlock` | Telegram/SourceFiles/_other/packer.cpp:143-147 | a tail of 56 bytes or more gives a block of its own, the last but one of the padded message |
| `PackerSha1.ClosingBlock` | Telegram/SourceFiles/_other/packer.cpp:137-149 | in both tail cases the last block hashed is the last block of the padded message |
| `PackerSha1.StoreDigest` | Telegram/SourceFiles/_other/packer.cpp:151-155 | the 20 bytes written are the five words, most significant byte first, and no other byte changes |
| `PackerSha1.HashSha1` | Telegram/SourceFiles/_other/packer.cpp:122-158 | the loops compute the hash of the packer's own padding of the message and write only the digest |
| `PackerSha1.StallsIff` | Telegram/SourceFiles/_other/packer.cpp:127-134 | the loop over the blocks goes on for ever, its 32-bit counter wrapped, exactly for lengths from 2^32 - 64 on |
| `PackerSha1.PadsLikeTheStandard` | Telegram/SourceFiles/_other/packer.cpp:148 | the packer's padding equals that of section 5.1.1 of FIPS 180-4 exactly for messages shorter than 2^29 bytes |
| `PackerSha1.PackerDigestIsSha1` | Telegram/SourceFiles/_other/packer.cpp:122-158 | for every message shorter than 2^29 bytes the packer's digest is SHA-1 |
| `Envelope.AppendLeU32` | Telegram/SourceFiles/_other/packer.cpp:164-172 | four bytes, least significant first |
| `Envelope.AppendLeU64` | Telegram/SourceFiles/_other/packer.cpp:174-177 | the low half before the high half |
| `Envelope.BuildV2Envelope` | Telegram/SourceFiles/_other/packer.cpp:278-313 | the appends produce the concatenation of header, length-prefixed fields, counted signatures and payload |
| `Envelope.HeadLayout` | Telegram/SourceFiles/_other/packer.cpp:278-290 | the magic, the format, the three codes, the version and the two's complement of the time of creation, at their places |
| `Envelope.ParseEnvelope` | Telegram/SourceFiles/core/update_verify.cpp:609-739 | the reader with its moving offset computes the left-to-right parse, with the client's limits |
| `Envelope.ParseBuild` | Telegram/SourceFiles/core/update_verify.cpp:609-739 | what the packer writes is read back field by field with its signed region, and is refused exactly when a field breaks a limit |
| `Envelope.ClientCaps` | Telegram/SourceFiles/core/update_verify.cpp:609-739 | the client reads what was written iff no field is empty and none is beyond its cap, in numbers |
| `Envelope.BuildParse` | Telegram/SourceFiles/core/update_verify.cpp:609-739 | accepted bytes are exactly the bytes the packer writes for what was read |
| `Envelope.BuildInjective` | Telegram/SourceFiles/_other/packer.cpp:278-313 | with sizes below 2^32 the bytes determine every argument |
| `Envelope.EmbedV2Signatures` | Telegram/SourceFiles/_other/packer.cpp:474-537 | the embed pass refuses unreadable, already signed and wrong-channel files in that order, and re-builds the rest with the signatures |
| `Envelope.RefusedWhen` | Telegram/SourceFiles/_other/packer.cpp:474-537 | which reason a file is refused for, each exactly when those before it do not apply |
| `Envelope.EmbeddingKeepsTheRest` | Telegram/SourceFiles/_other/packer.cpp:529-537 | embedding changes only the signature section; the client accepts the result iff the new signatures meet its limits, and reads the old fields |
| `Envelope.SameSigningInput` | Telegram/SourceFiles/core/update_verify.cpp:741-747 | the input that was signed before embedding is the input verified after it, whatever the payload hash |
| `Envelope.SigningInputIs` | Telegram/SourceFiles/core/update_verify.cpp:741-747 | what is signed: the head and the manifest as written, and the hash of the payload |
| `MeshFile.ReadBinobj` | Telegram/cmake/binobj2obj.py:31-55 | the offset-driven reader computes the decoding, with every way it can fail |
| `MeshFile.WriteBinobj` | Telegram/cmake/obj2binobj.py:60-69 | writing succeeds iff all counts and indices fit int32, and then gives the encoding |
| `MeshFile.DecodeEncode` | Telegram/cmake/obj2binobj.py:14-19 | every mesh that can be written is read back unchanged |
| `MeshFile.EncodeDecode` | Telegram/cmake/binobj2obj.py:46-55 | every file that can be read is what writing its mesh gives: no slack in the format |
| `MeshFile.CornerErrors` | Telegram/cmake/binobj2obj.py:49-55 | which files fail at the corners: one that ends within them is malformed, one that goes on behind them has a trail |
| `MeshText.ParseObj` | Telegram/cmake/obj2binobj.py:35-58 | the line loop computes the parse of the text, None where a line raises |
| `MeshText.Triangulate` | Telegram/cmake/obj2binobj.py:57-58 | the corners of a face are its vertices' indices, and triangle t of the fan is made of the corners 0, t + 1 and t + 2; nothing where an index does not parse |
| `MeshText.CornerIs` | Telegram/cmake/obj2binobj.py:50-55 | a corner has the indices of its first three fields less one, -1 for those left out or empty, and is none where one does not parse |
| `MeshText.OtherLines` | Telegram/cmake/obj2binobj.py:37-47 | empty lines, comments and lines of any other kind change nothing |
| `MeshText.PrintObj` | Telegram/cmake/binobj2obj.py:57-80 | the printing loops write the lines of the mesh in order |
| `PyText.SplitSpaced` | Telegram/cmake/obj2binobj.py:37 | splitting undoes joining of tokens by spaces |
| `PyText.LinesOfJoin` | Telegram/cmake/obj2binobj.py:36 | iterating over the file gives back the lines written |
| `PyText.LinesEnd` | Telegram/cmake/obj2binobj.py:36 | a line ends at a line feed, a carriage return, or both together, or with the file |
| `PyText.AsciiSpaces` | Telegram/cmake/obj2binobj.py:37 | the ASCII characters at which a line is split |
| `PyText.SplitSlashTriple` | Telegram/cmake/obj2binobj.py:50 | a corner splits at its slashes into its three fields |
| `PyText.ParseDecimal` | Telegram/cmake/obj2binobj.py:52-54 | int() undoes %d for every integer, negative ones included |
| `PyText.ParseIs` | Telegram/cmake/obj2binobj.py:52-54 | what int() reads: digits one after the other, single underscores between them, a sign in front |
| `MeshRoundTrip.Binobj2Obj` | Telegram/cmake/binobj2obj.py:31-82 | the whole script: a text for exactly the files that decode |
| `MeshRoundTrip.Obj2Binobj` | Telegram/cmake/obj2binobj.py:30-71 | the whole script: parse, then write, None where either raises |
| `MeshRoundTrip.ReparseIs` | Telegram/cmake/binobj2obj.py:58-80 | what parsing a printed mesh gives, for every mesh: whole triples, pairs and triangles, each float as printing and parsing leave it |
| `MeshRoundTrip.RoundTripExactly` | Telegram/cmake/binobj2obj.py:15 | printing and parsing gives the same bytes iff the counts are whole triples, pairs and triangles and every float survives the text |
| `MeshRoundTrip.LooseFloatIsLost` | Telegram/cmake/binobj2obj.py:15 | a file with a single position float is accepted and does not come back, whatever the float |
| `MeshRoundTrip.ByteIdentical` | Telegram/cmake/binobj2obj.py:15-20 | with 9-digit round-tripping of all floats but NaN, the promised byte identity |
| `MeshRoundTrip.NaNsAre` | Telegram/cmake/binobj2obj.py:15-20 | which words are NaN: those above the two infinities, and so the only ones the promise leaves out |
| `MeshRoundTrip.AcceptedIsAligned` | Telegram/cmake/obj2binobj.py:41-58 | an accepted text gives whole triples, pairs and triangles, and as many corners as its fans have |
| `MeshRoundTrip.ConversionSettles` | Telegram/cmake/binobj2obj.py:11-15 | a second conversion changes nothing iff the floats survive; without NaN they do |
| `ApiHash.HashUpdate` | Telegram/SourceFiles/api/api_hash.h:40-45 | the four statements compute one step |
| `ApiHash.CountHash` | Telegram/SourceFiles/api/api_hash.h:64-70 | the loop computes the fold over the range |
| `ApiHash.HashBegins` | Telegram/SourceFiles/api/api_hash.h:36-38 | the hash starts at 0, so that the hash of nothing is 0 and that of a single value is the value |
| `ApiHash.StepIsPermutation` | Telegram/SourceFiles/api/api_hash.h:40-45 | for each value the step permutes the 64-bit states: it has a two-sided inverse |
| `ApiHash.StepHitsOnce` | Telegram/SourceFiles/api/api_hash.h:40-45 | for each state and each wanted result exactly one value leads there |
| `ApiHash.SuffixIsPermutation` | Telegram/SourceFiles/api/api_hash.h:64-70 | hashing any list of values on top permutes the states |
| `ApiHash.SameSuffix` | Telegram/SourceFiles/api/api_hash.h:64-70 | a common suffix neither creates nor removes a collision |
| `ApiHash.OneValueFits` | Telegram/SourceFiles/api/api_hash.h:64-70 | at any position of any list exactly one value gives a wanted hash |
| `ApiHash.OneDifference` | Telegram/SourceFiles/api/api_hash.cpp:18-25 | two lists of equal length that differ at one position never collide |
| `ApiHash.CountStickersOrderHash` | Telegram/SourceFiles/api/api_hash.cpp:38-61 | the loop hashes the counted sets of the order, or gives 0 when outdated information is found and checked for |
| `ApiHash.CountedAre` | Telegram/SourceFiles/api/api_hash.cpp:46-56 | the hashed values are the hashes of the ordered sets that exist and are neither the default set, special nor archived, in order |
| `ApiHash.OutdatedIsZero` | Telegram/SourceFiles/api/api_hash.cpp:49-60 | with the default set, of id 0, among the ordered sets the hash is 0 if outdated information is checked for, and that of the counted sets if not |
| `ApiHash.OneSetChanged` | Telegram/SourceFiles/api/api_hash.cpp:38-61 | a changed hash of one set changes the order hash, except exactly when outdated information was found and checked for |
| `ApiHash.CountFeaturedHash` | Telegram/SourceFiles/api/api_hash.cpp:63-78 | the loop hashes each id, and 1 after each unread one |
| `ApiHash.FeaturedReadable` | Telegram/SourceFiles/api/api_hash.cpp:63-78 | the hashed values tell the order and which sets are unread, as long as 1 is not a set id |
| `ApiHash.FeaturedAmbiguous` | Telegram/SourceFiles/api/api_hash.cpp:69-75 | with a set of id 1 they do not: two different featured lists hash alike |
| `ShellBridge.Page.PostToFrame` | Telegram/Resources/bot_webview_shell_html/page.js:152-166 | a post waits in the bounded queue or goes out, by the state of the frame |
| `ShellBridge.Page.SendToFrame` | Telegram/Resources/bot_webview_shell_html/page.js:136-150 | an event goes out iff the frame can take it and is the one it was posted for |
| `ShellBridge.Page.FlushPendingEvents` | Telegram/Resources/bot_webview_shell_html/page.js:214-221 | empties the queue in order, dropping what was for another frame |
| `ShellBridge.Page.CreateIframe` | Telegram/Resources/bot_webview_shell_html/page.js:944-972 | a new generation, an empty queue, no reload armed, nothing loaded |
| `ShellBridge.Page.OnLoad` | Telegram/Resources/bot_webview_shell_html/page.js:956-963 | only the load of the current frame counts, and it flushes the queue |
| `ShellBridge.Page.BootstrapPage` | Telegram/Resources/bot_webview_shell_html/page.js:1011-1014 | sets the origin rule and replaces the frame |
| `ShellBridge.Page.ReloadFrame` | Telegram/Resources/bot_webview_shell_html/page.js:978-994 | tells a frame that can reload itself to do so and arms the fallback timer, replaces any other |
| `ShellBridge.Page.OnReloadTimeout` | Telegram/Resources/bot_webview_shell_html/page.js:987-990 | the timer, if still armed, replaces the frame |
| `ShellBridge.Page.OnMessage` | Telegram/Resources/bot_webview_shell_html/page.js:858-883 | messages of other windows and origins change nothing; the two reload messages change their flags |
| `ShellBridge.ReceivesIff` | Telegram/Resources/bot_webview_shell_html/page.js:858-880 | the messages that count are those of the current frame's window and, for a same-origin frame, of its own origin if it has one |
| `ShellBridge.NewFrameWaits` | Telegram/Resources/bot_webview_shell_html/page.js:944-972 | what is posted to a new frame waits in an empty queue, for that frame, until it is loaded |
| `ShellBridge.BootstrapBegins` | Telegram/Resources/bot_webview_shell_html/page.js:1011-1014 | under the new origin rule the new frame can take events iff it need not have the origin or has one |
| `ShellBridge.ReloadReplaces` | Telegram/Resources/bot_webview_shell_html/page.js:978-994 | a loaded frame that can reload itself is told to and replaced when the timer fires; any other is replaced at once |
| `ShellBridge.Reachable` | Telegram/Resources/bot_webview_shell_html/page.js:136-221 | in every reachable state each post has exactly one fate, delivered and waiting events are in posting order, and the queue is empty, bounded and of the current generation as it should be |
| `ShellBridge.NothingMisdelivered` | Telegram/Resources/bot_webview_shell_html/page.js:136-221 | after any sequence of actions no event has reached a frame it was not posted for, in any order but that of posting, and a loaded frame has nothing waiting |
| `ShellBridge.OnlyTheOldestIsPushedOut` | Telegram/Resources/bot_webview_shell_html/page.js:155-163 | a full queue loses exactly its oldest event to a new one; one that is not full loses nothing |
| `ShellBridge.LoadDeliversAll` | Telegram/Resources/bot_webview_shell_html/page.js:956-963 | loading delivers everything that waited, in order |
| `ShellBridge.BlockedIff` | Telegram/Resources/bot_webview_shell_html/page.js:136-150 | a step loses events to a frame that cannot take them exactly when there is a frame without a window, or of the same origin without having one, and the step posts to it while it counts as loaded or flushes a queue that is not empty |
| `ShellBridge.RefusesExactly` | Telegram/Resources/bot_webview_shell_html/page.js:136-221 | which events such a step loses: the posted one, or all that waited |
| `ShellBridge.NothingBlockedIff` | Telegram/Resources/bot_webview_shell_html/page.js:136-221 | after any sequence of actions, queue overflow and replaced frames are the only losses iff no step of it was of that kind |
| `ShellBridge.NothingBlocked` | Telegram/Resources/bot_webview_shell_html/page.js:136-150 | a condition on the actions alone: while windows stay and same-origin frames have an origin, no post is refused |
| `ShellBridge.OriginlessFrameLosesEvents` | Telegram/Resources/bot_webview_shell_html/page.js:142-144 | a run in which that happens: a same-origin frame without an origin is loaded and loses its event |
| `ShellColors.RippleIsClosed` | Telegram/Resources/bot_webview_shell_html/page.js:356-406 | over exact reals the six-sextant detour scales each channel by nextValue / maximum, ties and sextant borders included; black becomes 32 throughout |
| `ShellColors.HueShares` | Telegram/Resources/bot_webview_shell_html/page.js:363-401 | every sextant gives each channel its share of the chroma |
| `ShellColors.NextValueIs` | Telegram/Resources/bot_webview_shell_html/page.js:375-377 | the value moves by 32 and its clamps never act |
| `ShellColors.ScaledRounds` | Telegram/Resources/bot_webview_shell_html/page.js:346-351 | the rounded channel in whole-number arithmetic, between 0 and the new value |
| `ShellColors.RippleText` | Telegram/Resources/bot_webview_shell_html/page.js:353-407 | a colour gives a colour with those bytes, anything else gives none |
| `ShellColors.HexIs` | Telegram/Resources/bot_webview_shell_html/page.js:354 | the digits of a colour are the sixteen of either case |
| `MessageData.Client.RequestMessageData` | Telegram/SourceFiles/apiwrap.cpp:638-651 | registers the callback at the message and queues the resolving unless a request lists it |
| `MessageData.Client.ResolveMessageDatas` | Telegram/SourceFiles/apiwrap.cpp:683-737 | every table with unlisted messages sends one request that lists them all; empty channel tables go |
| `MessageData.Client.FinalizeMessageDataRequest` | Telegram/SourceFiles/apiwrap.cpp:739-769 | the answered messages leave; their callbacks are returned once each, by ascending message and in the order of registration |
| `MessageData.Reachable` | Telegram/SourceFiles/apiwrap.cpp:638-769 | for any interleaving, requests in flight and marked messages describe each other, and each callback waits once or has run once |
| `MessageData.ResolveSendsAll` | Telegram/SourceFiles/apiwrap.cpp:683-737 | after the resolving nothing is queued, and every message being loaded is listed by a request in flight, with its callbacks as they were |
| `MessageData.OneRequestPerMessage` | Telegram/SourceFiles/apiwrap.cpp:653-664 | no message is in two requests in flight |
| `MessageData.RanOnce` | Telegram/SourceFiles/apiwrap.cpp:739-769 | a callback has run at most once, and only after a reply to a request that listed its message |
| `MessageData.AllRun` | Telegram/SourceFiles/apiwrap.cpp:638-769 | when nothing is queued and every request is answered, each registered callback has run exactly once and nothing is left in the tables |
| `StickerSets.Store.RemoveSet` | Telegram/SourceFiles/apiwrap.cpp:1703-1782 | one removed id: a cloud id clears the recents and three sets, any other uninstalls its set unless archived and forgets its recent stickers |
| `StickerSets.Store.ClearInstalledFlags` | Telegram/SourceFiles/apiwrap.cpp:1785-1796 | clears Installed on the sets of the type that are not archived |
| `StickerSets.Store.InstallSets` | Telegram/SourceFiles/apiwrap.cpp:1798-1832 | rebuilds the order from the sets that exist, restoring archived ones |
| `StickerSets.Store.SweepSets` | Telegram/SourceFiles/apiwrap.cpp:1834-1846 | erases exactly the sets no flag or lock keeps |
| `StickerSets.Store.SaveStickerSets` | Telegram/SourceFiles/apiwrap.cpp:1703-1846 | the passes one after the other are the whole local edit |
| `StickerSets.SaveAt` | Telegram/SourceFiles/apiwrap.cpp:1703-1846 | what becomes of each set, in closed form from its old state and membership in the two lists, whatever their order and repetitions |
| `StickerSets.TypeIs` | Telegram/SourceFiles/apiwrap.cpp:1788-1792 | an emoji set is one whatever else it is, then masks, then stickers |
| `StickerSets.RemovesCloud` | Telegram/SourceFiles/apiwrap.cpp:1704-1736 | a cloud id takes away both cloud sets and the custom one, empties the recents and clears its own cloud |
| `StickerSets.RemovesOrdinary` | Telegram/SourceFiles/apiwrap.cpp:1738-1783 | any other set leaves the order at its first place and, unless archived, the store as well or stays there without being installed |
| `StickerSets.InstallsOrdered` | Telegram/SourceFiles/apiwrap.cpp:1799-1831 | an ordered set is installed and dated, unless it has a date, and restored iff it is archived and not removed |
| `StickerSets.OrderIsRestricted` | Telegram/SourceFiles/apiwrap.cpp:1798-1832 | the stored order is the user's order less the sets that no longer exist |
| `StickerSets.InstalledIffOrdered` | Telegram/SourceFiles/apiwrap.cpp:1785-1832 | of the sets of the type that are not archived exactly the ordered ones are installed, with no assumption on the lists |
| `StickerSets.OrderedIsInstalled` | Telegram/SourceFiles/apiwrap.cpp:1799-1832 | an ordered set is installed, and stays archived exactly if the same edit removes it |
| `StickerSets.SurvivorsAreKept` | Telegram/SourceFiles/apiwrap.cpp:1834-1846 | every survivor has a keeping flag or a lock; a set that the edit does not concern is unchanged if it has one, and gone if not |
| `StickerSets.RecentForgets` | Telegram/SourceFiles/apiwrap.cpp:1704-1749 | no sticker of a removed set that was there is recent afterwards |
| `StickerSets.RequestsOfSave` | Telegram/SourceFiles/apiwrap.cpp:1751-1822 | an uninstall for each time a removed list names a set that is there and not archived, one install per restored set |
| `StickerReorder.Client.SaveStickerSets` | Telegram/SourceFiles/apiwrap.cpp:1611-1885 | cancels the last save's requests, makes the local edit, waits for one request per set that the edit installs or uninstalls on the server, and sends the order at once if there is none |
| `StickerReorder.Client.StickerSetDisenabled` | Telegram/SourceFiles/apiwrap.cpp:1670-1680 | the reply that empties the set of waiting requests sends the captured order |
| `StickerReorder.Client.ReorderAnswered` | Telegram/SourceFiles/apiwrap.cpp:1653-1656 | an answered reorder request is forgotten |
| `StickerReorder.Client.StickersSaveOrder` | Telegram/SourceFiles/apiwrap.cpp:1634-1668 | an order of at least two sets goes out under the next request id and is recorded with it; a shorter one is not sent |
| `StickerReorder.OrderTakesId` | Telegram/SourceFiles/apiwrap.cpp:1634-1668 | the order of a save is recorded as its own, under the next id and no other |
| `StickerReorder.Reachable` | Telegram/SourceFiles/apiwrap.cpp:1611-1885 | for any interleaving over the three types the fields describe the newest save of each type and what it has in flight |
| `StickerReorder.OrderSentOnceAfterAnswers` | Telegram/SourceFiles/apiwrap.cpp:1634-1680 | a save sends its order at most once, its own, and never before all its changes are answered |
| `StickerReorder.OrderSentWhenAnswered` | Telegram/SourceFiles/apiwrap.cpp:1670-1680 | the newest save has sent its order exactly when all its changes are answered and the order is long enough |
| `StickerReorder.OlderSavesAreOver` | Telegram/SourceFiles/apiwrap.cpp:1627-1632 | once a newer save of the type began nothing more is sent or answered for an older one |
| `WebPages.Client.CollectPages` | Telegram/SourceFiles/apiwrap.cpp:2684-2721 | the first pass collects the messages by scope and marks the wanted pages with temporary ids |
| `WebPages.Client.SendRequests` | Telegram/SourceFiles/apiwrap.cpp:2723-2742 | one request under a fresh id for the common messages, one per channel with that channel's messages, kept at the index of the channel |
| `WebPages.Client.ReplaceMarks` | Telegram/SourceFiles/apiwrap.cpp:2743-2754 | every temporary id makes place for the real one and no index is out of range |
| `WebPages.MarksDecode` | Telegram/SourceFiles/apiwrap.cpp:2684-2754 | -1 and -(index+2) are told apart: a wanted page ends with the id of the request of its scope, any other keeps its own |
| `WebPages.Client.ResolveWebPages` | Telegram/SourceFiles/apiwrap.cpp:2683-2759 | the three passes: one request per scope with wanted pages, the wanted pages mapped to them, the others untouched, and the timer at the first page still to fall due |
| `WebPages.WantedIsListed` | Telegram/SourceFiles/apiwrap.cpp:2683-2759 | each page that is unsent, due by now and shown by a message holds the id of the one new request to its scope, and that lists its message |
| `WebPages.OtherPagesStay` | Telegram/SourceFiles/apiwrap.cpp:2683-2759 | a page asked for already, still to fall due, or shown by no message keeps its id |
| `WebPages.StepsChange` | Telegram/SourceFiles/apiwrap.cpp:2660-2681 | a delayed page becomes pending with id 0 unless it is pending, a cleared one is not any more, and no other page changes |
| `WebPages.Reachable` | Telegram/SourceFiles/apiwrap.cpp:2660-2759 | in every reachable state a page holds no id but 0 or that of an unanswered request that was sent for it |
| `WebPages.Client.GotWebPages` | Telegram/SourceFiles/apiwrap.cpp:3037-3055 | a reply takes out the pages mapped to it and gives up those it did not settle |
| `WebPages.GivesUp` | Telegram/SourceFiles/apiwrap.cpp:3042-3050 | exactly the pages still mapped to the reply that have a time lose it and fail |
| `WebPages.ReplyTakesItsPages` | Telegram/SourceFiles/apiwrap.cpp:3037-3055 | a reply removes exactly the pages mapped to its request, each of which the request was sent for |
| `WebPages.Client.RequestWebPageDelayed` | Telegram/SourceFiles/apiwrap.cpp:2660-2669 | a page already in a request keeps it; the timer is set anew, one millisecond late, unless it is to fire sooner |
| `WebPages.Client.ClearWebPageRequest` | Telegram/SourceFiles/apiwrap.cpp:2671-2676 | the timer is cancelled with the last page |
| `WebPages.Client.ClearWebPageRequests` | Telegram/SourceFiles/apiwrap.cpp:2678-2681 | no page is pending and the timer is cancelled |
| `WebPages.Client.OnTimer` | Telegram/SourceFiles/apiwrap.cpp:200 | the pass that the timer starts, with the timer no longer set |
| `WebPages.TimerMoves` | Telegram/SourceFiles/apiwrap.cpp:2660-2669 | a page asked for later moves the timer to a millisecond behind its time, unless it fires before that time |
| `WebPages.TimerForFirst` | Telegram/SourceFiles/apiwrap.cpp:2683-2759 | a pass sets the timer for the first unsent page still to fall due, but to a day at most, and leaves it without such a page |
| `WebPages.PageChanges` | Telegram/SourceFiles/data/data_session.cpp:4670-4702 | a page that loses its time is dropped, one that gets its first is asked for later, any other change leaves what is pending |
| `WebPages.LateIff` | Telegram/SourceFiles/apiwrap.cpp:2660-2759 | each event keeps the timer set for every unsent page still to fall due, a millisecond after its time at the latest, except exactly a pending page moved before the time the timer is set for without being asked for anew |
| `WebPages.TimePasses` | Telegram/SourceFiles/apiwrap.cpp:2660-2669 | the clock of the model: the timer comes nearer as time passes, and stays at its end until it fires |
| `WebPages.TimerIsOnTime` | Telegram/SourceFiles/apiwrap.cpp:2660-2759 | in a run without such a move the timer is on time in every state |
| `WebPages.MovedIsLate` | Telegram/SourceFiles/data/data_session.cpp:4670-4702 | a page asked for later and then moved to the next second: the timer is late for it |
| `Albums.Client.SendFiles` | Telegram/SourceFiles/apiwrap.cpp:4334-4340 | a new album in the map, one part per task, nothing uploaded |
| `Albums.Client.SendAlbumIfReady` | Telegram/SourceFiles/apiwrap.cpp:5494-5607 | the check with all its branches: what becomes of the album, and what is sent |
| `Albums.Client.SendAlbumWithUploaded` | Telegram/SourceFiles/apiwrap.cpp:5461-5474 | the uploaded media goes to its part and the album is checked; the assertions on the way hold |
| `Albums.Client.SendAlbumWithCancelled` | Telegram/SourceFiles/apiwrap.cpp:5476-5492 | the cancelled part leaves and the album is checked; an album already gone is left alone |
| `Albums.Reachable` | Telegram/SourceFiles/apiwrap.cpp:5461-5607 | for any run of events every part in preparation or upload is in an album in the map, parts are unique, and a sent album is complete |
| `Albums.NeverAsserts` | Telegram/SourceFiles/apiwrap.cpp:5469-5470 | whatever happens next, the album, the part and the empty media that the program asserts are there, and an album is sent at most once |
| `Albums.SendsAllParts` | Telegram/SourceFiles/apiwrap.cpp:5503-5558 | what is sent is the media of all remaining parts in item order, or to an ephemeral message of those still shown; otherwise as paid media iff the album has a price, and without one as a group iff there are two parts or more |
| `Albums.SentAwaitsAnswer` | Telegram/SourceFiles/apiwrap.cpp:5539-5606 | an answer is awaited exactly for paid media and for a group |
| `Albums.AnswerSettles` | Telegram/SourceFiles/apiwrap.cpp:5443-5605 | an answer ends the album, but for refused paid media; accepted paid media leaves none of its messages behind |
| `Albums.GoneLeavesAlbum` | Telegram/SourceFiles/apiwrap.cpp:5503-5517 | a message that goes away otherwise changes neither the album nor what was sent |
| `Albums.OverIsNeverSent` | Telegram/SourceFiles/apiwrap.cpp:5499-5502 | an album emptied or dropped unsent is never sent |
| `Albums.LeftBehindIff` | Telegram/SourceFiles/storage/localimageloader.cpp:468-472 | a complete album stays unsent in exactly one case: its last missing file fails to be prepared, since nothing checks the album then |
| `Albums.NeverLeftBehind` | Telegram/SourceFiles/apiwrap.cpp:5461-5607 | in a run without that step no state has a complete unsent album in the map |
| `Albums.LeftBehind` | Telegram/SourceFiles/storage/localimageloader.cpp:1297-1309 | a run of two files in which that happens |
| `Forwarding.CollectForwardRanges` | Telegram/SourceFiles/history/history_item_helpers.cpp:666-685 | the known items in order, split into the longest runs with one ephemeral flag |
| `Forwarding.Forwarder.SendAccumulated` | Telegram/SourceFiles/apiwrap.cpp:3939-4039 | sends what was gathered, paying what is approved at most |
| `Forwarding.Forwarder.ForwardMessages` | Telegram/SourceFiles/apiwrap.cpp:3851-4085 | the batches are those of the ranges, each counted once, and each notes its own local messages or none; without any the callback runs at once |
| `Forwarding.BatchesAreTheItems` | Telegram/SourceFiles/apiwrap.cpp:4041-4084 | the batches joined are the items in order, each with one source and one flag, no two neighbours mergeable, and the stars paid are min(approved, price times count) |
| `Forwarding.FailureMarksItsOwn` | Telegram/SourceFiles/apiwrap.cpp:3869-3874 | for all items, ranges and options a failed request marks the local messages of its own items and no other, since local messages are shown only for a single one |
| `Forwarding.CallbackRunsOnceIff` | Telegram/SourceFiles/apiwrap.cpp:3943-4034 | for any order of replies the callback has run once if all requests succeeded, and not at all otherwise |
| `DialogsLoad.Client.RequestDialogs` | Telegram/SourceFiles/apiwrap.cpp:913-918 | a folder without a load begins one; the main list does not begin again |
| `DialogsLoad.Client.RequestMoreDialogs` | Telegram/SourceFiles/apiwrap.cpp:920-990 | a list request unless one is out or loading is held back, and the pinned chats beside it |
| `DialogsLoad.Client.ListReplied` | Telegram/SourceFiles/apiwrap.cpp:945-984 | what each kind of reply does to the load, and whether the end is announced; the state it writes to exists |
| `DialogsLoad.SliceGoesOn` | Telegram/SourceFiles/apiwrap.cpp:957-961 | after a slice the next request goes out at the offset of that slice |
| `DialogsLoad.OffsetStays` | Telegram/SourceFiles/apiwrap.cpp:1062-1069 | the offset of a load changes with such a slice only; a failed request is made again at the same one |
| `DialogsLoad.IdsAreNew` | Telegram/SourceFiles/apiwrap.cpp:934-1124 | a step sends its requests under the next ids, and takes no more of them |
| `DialogsLoad.Client.PinnedReplied` | Telegram/SourceFiles/apiwrap.cpp:1108-1114 | the pinned part arrives, by result or error alike |
| `DialogsLoad.Client.RequestPinnedDialogs` | Telegram/SourceFiles/apiwrap.cpp:1102-1115 | no second pinned request while one is out or its part is there |
| `DialogsLoad.Client.ReloadPinnedDialogs` | Telegram/SourceFiles/apiwrap.cpp:1117-1124 | no second reload of the pinned chats of a folder while one is out |
| `DialogsLoad.Client.PinnedReloaded` | Telegram/SourceFiles/apiwrap.cpp:1121-1123 | its answer makes room for the next reload |
| `DialogsLoad.ReloadGoesOut` | Telegram/SourceFiles/apiwrap.cpp:1117-1124 | a reload goes out unless one is out |
| `DialogsLoad.Client.DialogsLoadFinish` | Telegram/SourceFiles/apiwrap.cpp:1083-1100 | drops the state and announces the end iff both parts are there |
| `DialogsLoad.FoldersAreSound` | Telegram/SourceFiles/apiwrap.cpp:913-1115 | in every reachable state a folder has at most one list request, one pinned request of its load and one reload of its pinned chats out, a list request out means the state exists, and each finished load was announced exactly once |
| `DialogsLoad.EndsWithBothParts` | Telegram/SourceFiles/apiwrap.cpp:1083-1100 | a load ends exactly with the reply that brings its second part |
| `DialogsLoad.MainLoadsOnce` | Telegram/SourceFiles/apiwrap.cpp:913-916 | the main list begins once and is announced at most once |
| `DialogsLoad.StartsWithMain` | Telegram/SourceFiles/apiwrap.cpp:203 | at the start the main list is to be loaded and no folder is |
| `DialogsLoad.StuckIff` | Telegram/SourceFiles/apiwrap.cpp:947-950 | a load gets stuck, for good, exactly by a not-modified reply |
| `DialogsLoad.StuckMain` | Telegram/SourceFiles/apiwrap.cpp:945-984 | a run in which the main list gets stuck |
| `DialogsLoad.FindOffset` | Telegram/SourceFiles/apiwrap.cpp:1026-1061 | the next slice starts at the date of the last chat that has one and the message of the last valid chat, or there is none |
| `DialogsLoad.OffsetByLast` | Telegram/SourceFiles/apiwrap.cpp:1033-1061 | what the last chat of a slice does to its offset: a dated one gives it all, one without a date its chat and message, any other nothing |
| `InviteLinks.Client.PrependMyToFirstSlice` | Telegram/SourceFiles/api/api_invite_links.cpp:162-205 | a new link goes first, or behind the permanent one it does not replace; the count follows |
| `InviteLinks.PrependPuts` | Telegram/SourceFiles/api/api_invite_links.cpp:173-205 | the list gains the link at that place and loses a permanent one it replaces, with no other change |
| `InviteLinks.Client.EditReplied` | Telegram/SourceFiles/api/api_invite_links.cpp:279-319 | a link that became revoked leaves, any other takes its new form |
| `InviteLinks.EditReplaces` | Telegram/SourceFiles/api/api_invite_links.cpp:279-319 | the first link of that string leaves the list or is replaced in its place, with no other change |
| `InviteLinks.EditOfUnknown` | Telegram/SourceFiles/api/api_invite_links.cpp:288-293 | the edit of a link that is not in the list changes nothing |
| `InviteLinks.Client.MyLinksReplied` | Telegram/SourceFiles/api/api_invite_links.cpp:415-456 | the reply is merged behind the cached permanent link, or its own is brought to the front |
| `InviteLinks.LoadMerges` | Telegram/SourceFiles/api/api_invite_links.cpp:442-449 | with a permanent link cached the list becomes that link followed by exactly those links of the reply that are not active permanent and not of its string, each as often and in the order as there; the count covers them |
| `InviteLinks.LoadTakesOver` | Telegram/SourceFiles/api/api_invite_links.cpp:429-441 | without one the reply is taken over as it is, but its first active permanent link goes to the front and is the one the peer is known by |
| `InviteLinks.BringPermanentToFront` | Telegram/SourceFiles/api/api_invite_links.cpp:28-36 | the first active permanent link is rotated to the front |
| `InviteLinks.RemovePermanent` | Telegram/SourceFiles/api/api_invite_links.cpp:38-43 | all active permanent links leave, the others keep their order |
| `InviteLinks.ParseSlice` | Telegram/SourceFiles/api/api_invite_links.cpp:721-741 | the cached permanent link is left out of a reply |
| `InviteLinks.Client.SetMyPermanent` | Telegram/SourceFiles/api/api_invite_links.cpp:620-676 | the reported link replaces the permanent one, or updates its usage |
| `InviteLinks.SetPuts` | Telegram/SourceFiles/api/api_invite_links.cpp:620-676 | in each case which links the list then has, in order, and what the count is |
| `InviteLinks.Client.ClearMyPermanent` | Telegram/SourceFiles/api/api_invite_links.cpp:678-707 | the permanent link goes and the peer has none |
| `InviteLinks.ClearTakes` | Telegram/SourceFiles/api/api_invite_links.cpp:678-707 | the list loses its active permanent link and nothing else, and without one nothing changes |
| `InviteLinks.Client.ApplyExternalUpdate` | Telegram/SourceFiles/api/api_invite_links.cpp:522-531 | every cached link of that string takes its new form |
| `InviteLinks.UpdateReplaces` | Telegram/SourceFiles/api/api_invite_links.cpp:522-531 | exactly the links of that string change, in their places |
| `InviteLinks.StepKeepsIff` | Telegram/SourceFiles/api/api_invite_links.cpp:162-707 | each operation keeps the permanent link first, alone and known to the peer exactly when its data fits; create, set, clear and forget always do |
| `InviteLinks.Reachable` | Telegram/SourceFiles/api/api_invite_links.cpp:162-707 | with updates that follow what they update and replies with at most one active permanent link, the cache is in order in every reachable state |
| `InviteLinks.TwoActiveBreakIt` | Telegram/SourceFiles/api/api_invite_links.cpp:429-440 | a reply with two active permanent links breaks it |
| `InviteLinks.FrontIsGoodIff` | Telegram/SourceFiles/api/api_invite_links.cpp:28-36 | rotating leaves no active link behind the front iff there was at most one |
| `InviteLinks.StepCoversIff` | Telegram/SourceFiles/api/api_invite_links.cpp:162-707 | each operation keeps the count at least the length of the list, except exactly a newly reported link without room in the count, and a reply that counts too few while no permanent link is cached |
| `InviteLinks.ReportedIsNotCounted` | Telegram/SourceFiles/api/api_invite_links.cpp:655-663 | the first reported permanent link: one link in the list, none in the count |
| `MessagesSearch.RequestToToken` | Telegram/SourceFiles/api/api_messages_search.cpp:47-66 | the appends give the lines of the request joined by line breaks |
| `MessagesSearch.TokenInjective` | Telegram/SourceFiles/api/api_messages_search.cpp:47-66 | without line breaks in the texts, two requests share a key iff they differ in the topic at most |
| `MessagesSearch.TokenAmbiguous` | Telegram/SourceFiles/api/api_messages_search.cpp:47-66 | a line break in the query makes the key ambiguous |
| `MessagesSearch.Client.RunSearch` | Telegram/SourceFiles/api/api_messages_search.cpp:102-161 | a cached first page is told at once, otherwise the search goes to the queue with its key |
| `MessagesSearch.Client.SearchReceived` | Telegram/SourceFiles/api/api_messages_search.cpp:163-220 | only the current request's page is told; a first page is cached unless its key is; the next page begins after the last message |
| `MessagesSearch.Client.SearchMore` | Telegram/SourceFiles/api/api_messages_search.cpp:95-100 | nothing while a search is out |
| `MessagesSearch.Client.SearchMessages` | Telegram/SourceFiles/api/api_messages_search.cpp:89-93 | a new search begins at its first page |
| `MessagesSearch.Client.Replied` | Telegram/SourceFiles/api/api_messages_search.cpp:139-142 | a reply ends the search that is out and is received under its request id |
| `MessagesSearch.Client.Failed` | Telegram/SourceFiles/api/api_messages_search.cpp:143-154 | a failed request is not awaited any more; an empty query is told |
| `MessagesSearch.StaleReplyChangesNothing` | Telegram/SourceFiles/api/api_messages_search.cpp:167-169 | in any run, a request that was once not the awaited one never is again: whenever its reply comes, nothing is told or cached and the search goes on as it was |
| `MessagesSearch.CurrentKeeps` | Telegram/SourceFiles/api/api_messages_search.cpp:89-220 | the request whose reply will be accepted always asks what the fields say, held back or not |
| `MessagesSearch.AwaitedGoesOn` | Telegram/SourceFiles/api/api_messages_search.cpp:100-220 | over whole runs, the awaited request asks for the start of the search, or from the last message of the last page told |
| `MessagesSearch.MoreGoesOn` | Telegram/SourceFiles/api/api_messages_search.cpp:95-220 | after an awaited page of messages the request that asks for more has the last of them as its offset |
| `MessagesSearch.EmptyStartsAgain` | Telegram/SourceFiles/api/api_messages_search.cpp:216-218 | after an empty or not-modified page the search is at its start again |
| `MessagesSearch.MoreWaits` | Telegram/SourceFiles/api/api_messages_search.cpp:95-98 | while a reply is awaited nothing more is asked for |
| `MessagesSearch.SearchIsQueued` | Telegram/SourceFiles/api/api_messages_search.cpp:100-161 | a search not in the cache asks for its first page under ids of its own, at once or when it is not held back any more |
| `MessagesSearch.SearchIsTold` | Telegram/SourceFiles/api/api_messages_search.cpp:103-110 | a search in the cache is told its page and asks nothing |
| `MessagesSearch.FirstPageIsKept` | Telegram/SourceFiles/api/api_messages_search.cpp:163-220 | an awaited first page is told, and cached for its key if nothing is |
| `MessagesSearch.LaterPageIsTold` | Telegram/SourceFiles/api/api_messages_search.cpp:163-220 | an awaited later page is told and not cached |
| `MessagesSearch.FailedIsGone` | Telegram/SourceFiles/api/api_messages_search.cpp:143-154 | after a failure nothing is cached, and the same page can be asked for again |
| `MessagesSearch.HeldBackIsSentAgain` | Telegram/SourceFiles/data/data_histories.cpp:1034-1076 | searches held back are neither lost nor doubled: what was on its way or waiting is on its way afterwards |
| `MessagesSearch.CacheKeptIff` | Telegram/SourceFiles/api/api_messages_search.cpp:212-214 | the cache goes wrong in exactly one case, a first page that arrives for another key than that of its request |
| `MessagesSearch.CacheIsExact` | Telegram/SourceFiles/api/api_messages_search.cpp:102-220 | when searches are sent at once, what is cached for a request is the first page of that very request, up to the topic |
| `MessagesSearch.PagesKeptIff` | Telegram/SourceFiles/api/api_messages_search.cpp:210-214 | what stands in the cache are pages of messages after a step iff it was so before and the step is not a not-modified reply to the awaited first page of a key not cached yet |
| `MessagesSearch.CachedAreMessages` | Telegram/SourceFiles/api/api_messages_search.cpp:102-220 | in a run without such a reply, held back or not, everything cached in any state is a page of messages |
| `MessagesSearch.HeldBackPoisons` | Telegram/SourceFiles/data/data_histories.cpp:1034-1076 | a run in which a held-back search stores the page of one request under the key of another |
| `MessagesSearch.NotModifiedIsKept` | Telegram/SourceFiles/api/api_messages_search.cpp:209-214 | a run in which a not-modified reply is cached as a first page, and the same search finds nothing from then on |
| `MessagesSearch.TopicsShareAPage` | Telegram/SourceFiles/api/api_messages_search.cpp:47-66 | a search in one topic is answered with the cached page of another |
| `Updater.LookAt` | Telegram/SourceFiles/_other/updater_linux.cpp:258-287 | one entry: skipped, waiting, to be copied with its target, or the reason to refuse |
| `Updater.EntriesAreListed` | Telegram/SourceFiles/_other/updater_linux.cpp:254-256 | all listed names are looked at but the directory itself and the one above it |
| `Updater.EqualIff` | Telegram/SourceFiles/_other/updater_linux.cpp:197-201 | names are equal when they have the same letters in either case |
| `Updater.ScanDir` | Telegram/SourceFiles/_other/updater_linux.cpp:254-289 | the loop over one directory adds exactly its entries to what was looked at |
| `Updater.ScanUpdate` | Telegram/SourceFiles/_other/updater_linux.cpp:232-290 | the worklist terminates with every regular file outside tdata but the marker once, with its target, and every directory once after its parent; or with the directory that cannot be opened, or the updater |
| `Updater.UnacceptableIsRefused` | Telegram/SourceFiles/_other/updater_linux.cpp:248-271 | there is a plan iff all directories can be opened and none holds an updater |
| `Updater.SkippedIsTdata` | Telegram/SourceFiles/_other/updater_linux.cpp:260-261 | the prefix test skips the entry tdata at the root and nothing else |
| `Updater.TargetsAreReachable` | Telegram/SourceFiles/_other/updater_linux.cpp:241-283 | every target is a name in the install root or in a forced directory |
| `Updater.ForcedAfterParents` | Telegram/SourceFiles/_other/updater_linux.cpp:241-246 | a forced directory comes after the one it is in |
| `Updater.TargetsDistinctIff` | Telegram/SourceFiles/_other/updater_linux.cpp:267-283 | no two files have the same target iff at most one of them becomes the program |
| `Updater.SameTargetTwice` | Telegram/SourceFiles/_other/updater_linux.cpp:267-283 | for every installation whose program was renamed: an update with the program under both names has a plan that copies two files to one target |
| `Updater.SameTargetExample` | Telegram/SourceFiles/_other/updater_linux.cpp:216-231 | such an installation: e/Tg with its work directory w/ |
| `Updater.MkPath` | Telegram/SourceFiles/_other/updater_linux.cpp:175-195 | cutting the buffer at each slash makes every directory above the path, outermost first, and stops at the first that cannot be made |
| `Updater.StepsAreAll` | Telegram/SourceFiles/_other/updater_linux.cpp:175-195 | what is made for a path is every directory above it and the path itself, each before those below it |
| `Updater.Update` | Telegram/SourceFiles/_other/updater_linux.cpp:216-346 | an update is read from tupdates/temp if its marker opens and from tupdates/ready otherwise, never its marker; nothing is copied unless the scan accepts the tree and the directories are made; then the files in order, up to the first that cannot be written; the update is cleared unless it could not be read |

## Left out

- Float formatting and parsing in the mesh scripts: `FloatText` keeps them abstract, and `NineDigits` is the assumption
  that nine digits bring every binary32 but NaN back (section 5.12.2 of IEEE 754-2008).
- Text details of the mesh scripts: digits of `int()` other than ASCII ones, and the line ending of the platform.
- PackerSha1.HashSha1: lengths from 2^32 - 64 on, for which the loop of the source never ends (`PackerSha1.StallsIff`).
- Key manifests, RSA, Ed25519 and ECDSA verification, compression, and the file handling of the packer: foreign calls.
- Rounding of floating point in the ripple colour: `ShellColors` computes over exact reals; the colours of
  `colorForBackground` are formulas without a second form to compare with.
- MessageData.Client.FinalizeMessageDataRequest: a callback that asks for further messages counts as a step of its own
  after the reply.
- Which messages a reply brings, and the processing of their contents.
- The writing of sticker sets to disk, the cancelling of requests to clear recent stickers, and the order update that a
  failed reorder asks for.
- WebPages.Reachable: a request that fails is never answered in the model, as in the program, which has no handler for
  it; its pages then keep its id until they are cleared.
- Pages settled by the contents of a reply before its own loop runs.
- 32-bit overflow of the products that set the link-preview timer and the stars of a batch: both are unbounded here.
- Captions of album parts, which a cancelled first part hands on; albums of music prepared together; stars paid by
  albums; the deletion of leftovers of a paid album whose request failed, which the program keeps as well.
- WebPages.TimerIsOnTime: time passes in whole seconds, so that the rounding of the clock, by which the timer may fire
  later than that, does not show.
- Items of saved music, which are sent as documents one by one and leave the list before anything is forwarded: the
  model starts from the others.
- Sorting by position before forwarding: a library call; the model starts from the sorted items, and from the forward
  options after they were normalised for them.
- The date until which the main chats list is loaded: whether it holds a request back is a parameter of the step.
- Callbacks waiting for created and edited invite links, join requests, and the admin notices of changes.
- Filtering of found messages by loaded peers.
- Real file operations of the updater, permissions, symbolic links and retries: the tree is a finite file system, and
  where directories and files can be written is a parameter.
- User interface, network transport, and (de)serialisation of server messages.
