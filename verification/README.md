# A verified model of UB-Torrent

UB-Torrent is a single-threaded BitTorrent client (BEP 3) written in C. This project models its hard parts in Dafny and
proves what they do, on every input, every run and every behaviour of peers:

| files | what they model |
|---|---|
| `BitField.dfy`, `Geometry.dfy` | bit-field accessors as written, and how a file is cut into pieces |
| `Word.dfy`, `Sha1Spec.dfy`, `Sha1Vector.dfy`, `Sha1.dfy`, `InfoHash.dfy` | SHA-1: words, the one-shot definition of RFC 3174 and its first test vector, the incremental context of `sha1.c`, and its use |
| `Swarm.dfy`, `Client.dfy` | the leecher: ten connection slots, the rarest-first scheduler, the message handlers; as functions, and as a program over arrays proved equal to them |
| `SwarmInvariants.dfy`, `SwarmResults.dfy`, `SwarmSteps.dfy`, `SwarmHistory.dfy` | what every step keeps and does, whatever the peers send |
| `SwarmHonest.dfy`, `SwarmCompletion.dfy`, `SwarmLoss.dfy` | what holds when pieces come only as asked, which pieces can be completed, and how a download stalls |
| `Network.dfy`, `Framing.dfy`, `Dispatcher.dfy` | `readn` and `readline` under short reads and signals, and how the stream of a peer is cut into messages |
| `Bencode.dfy`, `Metainfo.dfy`, `InfoPrint.dfy`, `WalkOutcome.dfy`, `TorrentFile.dfy` | the bencode decoder, the walk that prints "info" back to bytes, when it succeeds, and the info hash |
| `UrlEncode.dfy` | the percent-encoding of hashes for the tracker |
| `Bytes.dfy` | bytes, options, and a little arithmetic |

`dafny verify dfyconfig.toml` checks the whole project.

## How to read it

A part of the source that updates state is a class or a method with loops, proved equal to a function on values; what
matters about that function is then proved as lemmas. The leecher's state (`Swarm.State`) holds a log of what the
program does to the outside world: connections opened and closed, requests, interest, pieces stored, announcements.
Requests in flight are read off that log.

A run is any sequence of events (`Swarm.IsRun`): incoming and outgoing connections with their ways to fail, and messages
on slots in use, in any order. `Swarm.Permitted` rules out only what makes the C program undefined: a HAVE before any
bit field or out of range, an outgoing connection with every slot taken, and an accepted piece on a slot without a bit
field. The value of `rand()` is a parameter of each event. `SwarmHonest.IsHonestRun` adds that a PIECE for p comes only
on a connection with an unanswered REQUEST for p, with the requested length; the bytes themselves may be wrong.

## What the model shows about the code

Where the code falls short of BEP 3 or of its own comments, the model follows the code, and says exactly when it is
right:

- Position 8 of a bit field has an empty mask, and every later position lands one place early. The accessors follow
  BEP 3 exactly for positions below 8.
- So, with honest peers, a piece can be downloaded if and only if it is not piece 8, and a torrent can be completed if
  and only if it has at most 8 pieces. With more, every piece but 8 can still be had in one run, but nothing at all is
  requested until some peer sends a HAVE for piece 8.
- A seeder with a BEP 3 bit field is disconnected exactly when there are more than 8 pieces and their number is not a
  multiple of 8.
- A requested piece can still be completed if and only if its request is unanswered on a connection whose slot still
  notes it as the one to take. Two things lose it for good: the end of the connection, and a second bit field that
  shows a wanted piece, which overwrites the note, so that the right answer is refused.
- A slot whose connection ends with a request unanswered stays marked as busy and is never asked again. Once all ten
  slots are, nothing is requested or stored any more.
- The scheduler stops when the least ranking is 120, by its comment because all pieces have been downloaded. With
  honest peers the test is never true then; when it is true, some piece has not even been requested.
- The info hash is taken over the right bytes exactly when every list inside "info" has one element and no key there
  holds a NUL: laid out as BEP 3 asks, for every torrent of a single file and for no torrent of two or more.
- `sha1.c` marks a message that is too long with the value of `shaNull`, not `shaInputTooLong`; the call that overflows
  still reports success.
- `readline` is documented to return the number of bytes read; it returns one more, unless the bytes end in a newline or
  there are none.
- A CANCEL, and a REQUEST from a peer that has not said it is interested, leave the reader in the middle of the message.

## Model

| member | source | states |
|---|---|---|
| BitField.Locate | Project_2/download.c:250-262 | the shift-and-count loop ends, for every position, at the byte and one-bit mask of the closed form |
| BitField.GetBitField | Project_2/download.c:250-264 | the result is nonzero exactly when the position reads as set, and is then the whole mask |
| BitField.SetBitField | Project_2/download.c:323-338 | in place, the field becomes the old one with that one mask or-ed in and every other byte kept |
| BitField.GetAfterSet | Project_2/download.c:250-264 | after setting any position but 8, a position reads as set if and only if it is that one or was set before |
| BitField.PositionEightIsInert | Project_2/download.c:256-263 | position 8 never reads as set and setting it changes nothing |
| BitField.InBounds | Project_2/download.c:236-245 | piece indices and probed spare positions stay inside the field |
| BitField.Bep3FromTheTop | Project_2/download.c:250-264 | in the layout of BEP 3 bits are counted from the most significant one of each byte |
| BitField.AgreesWithBep3Iff | Project_2/download.c:250-264 | on all fields the accessor reads the bit BEP 3 gives to a piece, if and only if the piece is below 8 |
| BitField.ReadsPreviousPiece | Project_2/download.c:256-263 | position p > 8 reads the bit BEP 3 gives to piece p - 1 |
| BitField.SpareBitsClear | Project_2/download.c:235-241 | the validator's loop accepts exactly the fields none of whose spare positions reads as set |
| BitField.ConformingFieldAcceptedIff | Project_2/download.c:231-241 | a field laid out by BEP 3 passes if and only if there are at most 8 pieces, or a multiple of 8, or the sender lacks the last piece |
| Geometry.PieceEnd | Project_2/download.c:297-307 | every requested range is nonempty, inside the file, and ends at the next piece or at the end of the file |
| Geometry.PiecesDisjoint | Project_2/download.c:297-307 | the ranges of different pieces do not overlap |
| Geometry.PiecesCover | Project_2/metainfo.c:163 | every byte of the file is in exactly one piece |
| Geometry.LengthsAddUp | Project_2/download.c:297-307 | the requested lengths sum to the file size, whether or not it is a multiple of the piece size |
| Word.BitsMoveUp | Project_2/sha1.c:37-38 | from place n on, bit k of S^n(w) is bit k - n of w, for every shift and word |
| Word.BitsComeRound | Project_2/sha1.c:37-38 | below place n it is bit k + 32 - n: the top n bits come back at the bottom |
| Word.PlusModulo | Project_2/sha1.c:265-271 | the sum is the 64-bit sum less its carry |
| Sha1Spec.BigEndianBytes | Project_2/sha1.c:248-254 | the four bytes stand in the word from the top down |
| Sha1Vector.DigestOfAbc | Project_2/sha1.c:232-317 | the digest of "abc" is the 20 bytes of the test vector of section 7.3 of RFC 3174 |
| Sha1Spec.FoldAppend | Project_2/sha1.c:200-203 | compressing block by block gives the same chaining words wherever the sequence is cut into whole blocks |
| Sha1Spec.FewestZeros | Project_2/sha1.c:343-374 | no shorter run of zeros makes the padded message a whole number of blocks |
| Sha1Spec.PadInjective | Project_2/sha1.c:343-386 | below the length limit different messages are padded differently |
| Sha1.AnySplit | Project_2/sha1.c:159-209 | any way of cutting a message into inputs absorbs the concatenation, or overflows exactly when it reaches 2^61 bytes |
| Sha1.AfterResult | Project_2/sha1.c:101-178 | after a digest, the same digest is returned again; after any nonempty input, every input and every request for a digest returns 3 |
| Sha1.SplitCodes | Project_2/sha1.c:159-209 | the codes after any inputs are 0 below 2^61 bytes and 1 from there on; the input that reaches the limit still reports success |
| Sha1.AfterOverflow | Project_2/sha1.c:180-198 | once the message has been too long, every nonempty input and every request for a digest returns 1 |
| Sha1.Context.Reset | Project_2/sha1.c:59-80 | from any state, the context has absorbed the empty message |
| Sha1.Context.Input | Project_2/sha1.c:159-209 | the phase and code follow the state machine; the buffer, chaining words and bit counter account for exactly the bytes absorbed |
| Sha1.Context.AbsorbByte | Project_2/sha1.c:186-203 | one more byte is accounted for; the context is marked exactly when the 64-bit bit counter wraps |
| Sha1.Context.Result | Project_2/sha1.c:101-137 | the 20 bytes are the RFC 3174 digest of the message absorbed; on an error the output is untouched |
| Sha1.Context.ProcessMessageBlock | Project_2/sha1.c:232-317 | the four in-place loops compute the 80-step compression of sections 5 and 6.1, and leave the index at 0 |
| Sha1.Context.MessageSchedule | Project_2/sha1.c:248-259 | the array holds the 80 words W(t) of the block |
| Sha1.Context.PadMessage | Project_2/sha1.c:343-389 | the chaining words end as the fold of the whole padded message, through one final block or two |
| InfoHash.CalculateInfoHash | Project_2/metainfo.c:186-207 | the three calls succeed and the result is the digest of the first len bytes |
| SwarmInvariants.StepKeeps | Project_2/download.c:690-805 | every event keeps the invariant on fields, piece 8, rankings, requests, counters, choking and uploads |
| SwarmInvariants.RequestKeeps | Project_2/download.c:96-108 | sending a request keeps the invariant |
| SwarmInvariants.StoreKeeps | Project_2/download.c:439-459 | storing a piece keeps the invariant |
| SwarmInvariants.BitFieldKeeps | Project_2/download.c:759-780 | a bit field keeps the invariant, in particular rankings bound holders |
| SwarmInvariants.HaveKeeps | Project_2/download.c:487-507 | a HAVE keeps the invariant |
| SwarmResults.ScanEffect | Project_2/download.c:88-119 | a pass requests its piece if and only if it is not downloaded and some peer from there on is willing, from the first such one; just the choking peers before it that show the piece are told of interest |
| SwarmResults.SchedulerEffect | Project_2/download.c:55-121 | the piece has the least ranking of all; unless that is 120, it is requested if and only if it is not downloaded and some slot in use shows it, does not choke and has no request pending, and then from the first such slot; nothing else changes but flags of interest |
| SwarmResults.RunForward | Project_2/download.c:104 | in a run no status ever goes back |
| SwarmResults.OwnFieldShowsCompleted | Project_2/download.c:457-463 | in every reachable state the client's field reads as set exactly at the completed pieces, 8 included |
| SwarmResults.EachPieceRequestedOnce | Project_2/download.c:92-108 | in a run each piece is requested at most once, and never while it is marked as not downloaded |
| SwarmResults.CountersAddUp | Project_2/download.c:448-449 | downloaded is the number of bytes stored, and downloaded plus left the file size, modulo 2^32 |
| SwarmResults.RankingBoundsHolders | Project_2/download.c:242-245 | in every reachable state a ranking is at least the number of stored bit fields showing the piece |
| SwarmResults.InterestedIsUnchoked | Project_2/download.c:746-758 | in every reachable state an interested peer is not choked |
| SwarmResults.NothingUploaded | Project_2/download.c:600-670 | only completed pieces are ever sent, and no bytes of them, because reading back from a stream opened for writing delivers none |
| SwarmResults.NeverCompleteBeyondEight | Project_2/download.c:409-457 | with more than 8 pieces, piece 8 is never requested nor stored, and completion never announced, whatever peers do |
| SwarmResults.StarvedScheduler | Project_2/download.c:67-82 | while some ranking is 0 the scheduler changes nothing |
| SwarmResults.NothingRequestedWithoutHaveEight | Project_2/download.c:66-120 | with more than 8 pieces, a run without a HAVE for piece 8 requests nothing |
| SwarmSteps.Start | Project_2/ubtorrent.c:475-501 | ten free slots, nothing downloaded or ranked, an empty field, everything left |
| SwarmSteps.AcceptStep | Project_2/download.c:509-598 | the whole state after an incoming connection: the least slot not in use with every flag fresh, none if all are in use; the old bit field is forgotten only if it is accepted |
| SwarmSteps.ConnectStep | Project_2/download.c:123-192 | the whole state after an outgoing connection: the least slot not in use, its old bit field and request flag kept |
| SwarmSteps.PlainMessage | Project_2/download.c:731-803 | the whole state after a message that only sets a flag, does nothing, or ends the connection |
| SwarmSteps.UnchokeStep | Project_2/download.c:737-745 | the flag is cleared, and the scheduler runs on that state if and only if the client is interested |
| SwarmSteps.HaveStep | Project_2/download.c:487-507 | the piece is added to the field and one to its ranking; the peer is told and the scheduler runs if and only if the piece is lacked and not asked for |
| SwarmSteps.BitFieldStep | Project_2/download.c:759-780 | refused, the connection ends; else each piece shown counts one more, the first wanted piece is noted, the peer told, and the scheduler runs if there is one |
| SwarmSteps.RequestStep | Project_2/download.c:600-670 | a REQUEST is answered if and only if the peer is interested and not choked, the piece is there, the range inside it, and no bytes are asked for |
| SwarmSteps.PieceStep | Project_2/download.c:382-485 | refused unless index and hash are right; else bytes, field, status, counters and log after storing, and then the announcement, the scheduler, or the loss of interest |
| SwarmSteps.StepRanks | Project_2/download.c:96-108 | over a step a ranking grows by exactly what the event tells of the piece, or becomes 9999 by a request |
| SwarmSteps.RankingCounts | Project_2/download.c:242-245 | in every reachable state the ranking of a piece not requested is the number of acceptable bit fields that showed it plus the number of HAVE messages for it |
| SwarmSteps.RarestIsNth | Project_2/download.c:76-82 | of the pieces of least ranking in order, the one of number rand() modulo their count is picked |
| SwarmHistory.StepFlags | Project_2/download.c:731-803 | who is connected, chokes or is interested after an event follows from the event alone |
| SwarmHistory.StepFields | Project_2/download.c:761-784 | a slot shows the pieces of the last acceptable bit field and of the HAVEs since, all but 8; only an accepted incoming connection forgets them |
| SwarmHistory.SeederDisconnectedIff | Project_2/download.c:761-766 | a seeder with a BEP 3 field is disconnected if and only if there are more than 8 pieces and not a multiple of 8 |
| SwarmHistory.StepGrown | Project_2/download.c:690-805 | every request of a step goes to a connected peer that does not choke, has no request pending and shows the piece, with the right length; statuses, rankings, notes and busy flags change only by a request or by storing an accepted piece |
| SwarmHonest.StepHonest | Project_2/download.c:382-485 | every honest event keeps the invariant on requests in flight, verified pieces, byte totals and announcements |
| SwarmHonest.HonestPieceIsPermitted | Project_2/download.c:473 | a piece from an honest peer never finds the slot without a bit field |
| SwarmHonest.WriteElsewhere | Project_2/download.c:440-442 | writing a piece leaves every other verified piece verified |
| SwarmHonest.DownloadsMatchRequests | Project_2/download.c:96-108 | the pieces being downloaded are as many as the slots with a request pending, so at most ten, across disconnects and reuse |
| SwarmHonest.OutstandingPiecesDiffer | Project_2/download.c:96-108 | no two connections wait for the same piece |
| SwarmHonest.CompletedPiecesVerified | Project_2/download.c:431-450 | a completed piece is in the file at its place with the hash of the torrent, at every later time |
| SwarmHonest.CompletedFile | Project_2/download.c:452-470 | when all pieces are completed the file has its full length and every piece its hash |
| SwarmHonest.LeftIsMissing | Project_2/download.c:448-449 | left is the length of the pieces not completed; below 2^31 bytes it is never negative and 0 exactly at completion |
| SwarmHonest.AnnouncedOnce | Project_2/download.c:461-470 | completion is announced once if everything is completed, and not before |
| SwarmCompletion.Pickable | Project_2/download.c:76-82 | every piece of least ranking is picked for some value of rand() |
| SwarmCompletion.NextRequest | Project_2/download.c:66-108 | any piece of least ranking is requested, for some value of rand(), from a first slot that shows it and can be asked |
| SwarmCompletion.AllButEightAtOnce | Project_2/download.c:690-805 | for a torrent of any number of pieces made from some file, one run with honest peers completes every piece but 8 |
| SwarmCompletion.PieceCompletableIff | Project_2/download.c:250-264 | a piece of a torrent made from some file is completed by some honest run if and only if it is not piece 8; piece 8 by no run at all |
| SwarmCompletion.CompletableIff | Project_2/download.c:452-470 | a torrent made from some file can be completed if and only if it has at most 8 pieces |
| SwarmCompletion.OrdinaryStartIff | Project_2/download.c:737-745 | after a first peer that shows everything connects, sends its bit field and unchokes, a request has been sent if and only if there are at most 8 pieces |
| SwarmCompletion.CompletedPieceIsThePiece | Project_2/download.c:431-450 | at any time a completed piece holds the bytes of the file the torrent was made from, or a collision of SHA-1 with them |
| SwarmCompletion.DownloadedFileIsTheFile | Project_2/download.c:431-470 | a completed download is the file the torrent was made from, or one of its pieces and that of the file are a collision of SHA-1 |
| SwarmLoss.RecoverableIff | Project_2/download.c:409-414 | a requested piece can still be completed by honest peers if and only if its request is unanswered on a connection whose slot notes that piece |
| SwarmLoss.DroppedRequestIsFatal | Project_2/download.c:701-726 | with honest peers, once a connection ends with a request unanswered, its piece is never downloaded, the download never completes, and the slot is never asked again |
| SwarmLoss.SecondBitFieldIff | Project_2/download.c:759-780 | a bit field on a connection with a request unanswered loses the piece if and only if it is refused or shows a wanted piece |
| SwarmLoss.SecondBitFieldRun | Project_2/download.c:772 | for every torrent of two or more pieces, an honest run in which a second bit field makes the program refuse the right answer, whatever it holds |
| SwarmLoss.RunRetired | Project_2/download.c:140-148 | with honest peers, a slot left marked as busy without a request in flight stays so through all later connections |
| SwarmLoss.TenLossesStopTheDownload | Project_2/download.c:96-108 | once all ten slots are, no piece is requested and no status changes ever again |
| SwarmLoss.GivesUpOnlyUnfinished | Project_2/download.c:70-75 | with honest peers the least ranking is never 120 when everything is downloaded; when it is 120, some piece of that ranking has not been requested |
| SwarmLoss.GiveUpRun | Project_2/download.c:70-75 | an honest run in which a willing peer shows a piece not downloaded and the scheduler does nothing |
| Client.Leecher.constructor | Project_2/ubtorrent.c:475-501 | a client that finds no file starts with nothing downloaded, nothing ranked, an empty field and everything left |
| Client.Leecher.FindRarestPieceAndSendRequest | Project_2/download.c:55-121 | minimum, ties and pass over the slots, in place, are the scheduler function |
| Client.Leecher.CheckInterested | Project_2/download.c:266-282 | the result is the first piece lacked, not asked for and shown by the peer, or -1 |
| Client.Leecher.GetBitFieldMessage | Project_2/download.c:215-248 | an acceptable field is returned and counted in every ranking; any other is refused with nothing changed |
| Client.Leecher.ReadHave | Project_2/download.c:487-507 | the handler changes the tables as the HAVE step does |
| Client.Leecher.ReadPiece | Project_2/download.c:382-485 | the handler changes the tables, file and counters as the PIECE step does |
| Client.Leecher.ReadRequest | Project_2/download.c:600-670 | the handler answers as the REQUEST step does |
| Client.Leecher.EstablishTcpConnection | Project_2/download.c:509-598 | accepting takes the first free slot and resets its flags, on each way the handshake can go |
| Client.Leecher.EstablishConnWithClient | Project_2/download.c:123-192 | connecting takes the first free slot and keeps its old bit field and request flag |
| Client.Leecher.HandleEvent | Project_2/ubtorrent.c:567-584 | one turn of the event loop is one step |
| Network.Readn | Project_2/network_util.c:111-134 | whatever reads are short or interrupted, exactly the next n bytes are stored and consumed, or all there are |
| Network.LineReader.MyRead | Project_2/network_util.c:38-64 | the next byte of buffer then stream is delivered, nothing is lost or repeated, and 0 means the end |
| Network.LineReader.Readline | Project_2/network_util.c:72-97 | the bytes up to a newline, the limit or the end are stored and consumed; the return value exceeds their number by one unless they end in a newline or there are none |
| Network.ReadLines | Project_2/ubtorrent.c:172-229 | calling readline until it returns 0 yields the lines of the stream |
| Network.LinesJoin | Project_2/network_util.c:72-97 | the lines are the whole stream in order |
| Network.LinesShape | Project_2/network_util.c:72-97 | a line has no newline but at its end, and lacks one only if it is full or last |
| Framing.WireFormat | Project_2/download.c:700-731 | the bytes of each message are those of BEP 3: length, id and fields in network order |
| Framing.CutMessages | Project_2/download.c:218-230 | a HAVE or a bit field whose stream ends inside it is read with zeros for the missing bytes |
| Framing.ReadInStep | Project_2/download.c:700-803 | a message read in step is taken whole and understood, whatever follows |
| Framing.OnBoundaryIff | Project_2/download.c:611-617 | the reader ends on the boundary of a message if and only if it reads it in step |
| Framing.StreamsAreMessages | Project_2/download.c:690-805 | if the messages that the peers send are each read in step, the streams of all ten slots are handled as exactly those messages in order, and stay on message boundaries, however messages, connections and reuse of slots are interleaved |
| Framing.RequestInStepIff | Project_2/download.c:611 | in every reachable state a REQUEST is read in step exactly from an interested peer |
| Dispatcher.ReadMessage | Project_2/download.c:700-731 | the reads off the descriptor take exactly the bytes of the cut and yield its message; where a REQUEST or the data of a PIECE ends early, with arbitrary bytes for the missing ones |
| Dispatcher.OddBytesAre | Project_2/download.c:701-727 | the end of a stream, a length without an id, an unknown id and a PIECE cut in its header close the connection; one to three bytes, a CANCEL and an untimely REQUEST change nothing |
| Dispatcher.ReadFromClientConnection | Project_2/download.c:690-805 | one ready slot is served by one message off its stream, handled as a step, or closed or left as it is where the bytes are no whole message |
| Bencode.Cursor.DecodeInt | Project_2/bencode.c:37-44 | value, cursor and remaining length follow strtoll |
| Bencode.Cursor.DecodeStr | Project_2/bencode.c:54-89 | a string is returned and skipped exactly when its length fits the data left and a colon follows; else NULL, with the cursor after the number |
| Bencode.Cursor.Decode | Project_2/bencode.c:91-172 | on every input that can be decoded, the recursion ends with its tree, the cursor after it and the remaining length lowered alike; on no data, an unknown byte or a number without its end marker, NULL |
| Bencode.BeDecoden | Project_2/bencode.c:174-177 | the tree at the start of the data, or NULL |
| Bencode.StrtollReads | Project_2/bencode.c:37-44 | blanks, a sign and digits are read as the number they spell, saturated to 64 bits, up to the last digit |
| Bencode.StrtollFindsNothing | Project_2/bencode.c:37-44 | anywhere else the value is 0 and the cursor stays |
| Bencode.DecodedIsSpelled | Project_2/bencode.c:91-172 | whatever is decoded is spelled by the bytes read for it, in the grammar of BEP 3 with the numbers of strtoll |
| Bencode.DecodeEncode | Project_2/bencode.c:91-172 | decoding the canonical encoding of a tree, anywhere and followed by anything, gives the tree and ends exactly after it |
| Bencode.UniquelyDecodable | Project_2/bencode.c:91-172 | encodings of different trees are never prefixes of a common text |
| Metainfo.Reader.PopulateStruct | Project_2/metainfo.c:95-184 | the walk over the tree updates the globals as the walk function says, or exits where it says |
| Metainfo.Reader.PopulatePieces | Project_2/metainfo.c:14-25 | hash i is bytes 20 i to 20 i + 19 |
| Metainfo.HashesAre | Project_2/metainfo.c:14-25 | the hashes together are the start of the string, 20 bytes each, in order |
| Metainfo.CStringIs | Project_2/metainfo.c:131 | a key is printed up to its first NUL, so in full if and only if it holds none |
| Metainfo.KeysAre | Project_2/metainfo.c:132-162 | the keys compared are "announce", "name", "info", "length", "piece length" and "pieces" |
| InfoPrint.WalkPrints | Project_2/metainfo.c:95-184 | away from "info" keys the walk appends the print of the tree when inside "info" and nothing otherwise, and keeps the flag |
| InfoPrint.InfoValuePrinted | Project_2/metainfo.c:152-177 | with one "info" key, at the top, the buffer ends as the print of its value |
| InfoPrint.ListsFallApart | Project_2/metainfo.c:115-124 | cut anywhere, the parts of a list are printed one after the other, each framed as a list of its own |
| InfoPrint.PrintIsCanonicalIff | Project_2/metainfo.c:115-181 | what is printed is the canonical encoding if and only if every list has one element and no key holds a NUL |
| InfoPrint.PrintLength | Project_2/metainfo.c:115-124 | the print is longer than the encoding by twice the number of elements beyond the first, over all lists |
| WalkOutcome.WalkSucceedsIff | Project_2/metainfo.c:95-184 | the walk succeeds if and only if, in document order, each entry has a value of the type its key asks for, each name follows an announce URL, and each hash string follows a nonzero piece size and is long enough; the program exits if and only if the first entry that is not so is a name without an announce URL |
| WalkOutcome.LastValueCounts | Project_2/metainfo.c:132-161 | after the walk the URL, the name, the file size and the piece size are those of the last entry under each key |
| TorrentFile.HashedBytesAreInfoValueIff | Project_2/metainfo.c:209-241 | for a canonical torrent file, the bytes hashed are those of the file that encode "info" if and only if its lists have one element and its keys no NUL; they then fit the buffer |
| TorrentFile.InfoHashIsOfInfoValue | Project_2/metainfo.c:235-239 | the info hash of such a file is then the digest of those bytes of the file, and otherwise that of other bytes |
| TorrentFile.TooLongForBuffer | Project_2/metainfo.c:218-224 | a file of more than 8192 bytes is not read |
| TorrentFile.NoInfoHashIff | Project_2/metainfo.c:209-241 | there is no info hash if and only if the file is longer than 8192 bytes or names itself before any announce URL |
| TorrentFile.SingleFileNoted | Project_2/metainfo.c:142-172 | from a single-file "info" the walk notes size, piece size, piece count and hashes that make a valid torrent |
| TorrentFile.SingleFileRead | Project_2/metainfo.c:209-241 | every single-file torrent laid out as BEP 3 asks is canonical and read without an error; its info hash is that of its own "info" bytes |
| TorrentFile.MultiFileHashedWrong | Project_2/metainfo.c:115-124 | every torrent of two or more files laid out as BEP 3 asks is canonical and read without an error, and other bytes than its "info" bytes are hashed |
| TorrentFile.ReadTorrentFile | Project_2/metainfo.c:209-241 | the info hash is the digest of what the walk printed; none if the file is too long or a name precedes any announce |
| UrlEncode.UrlEncode | Project_2/ubtorrent.c:48-69 | the output is the encoding, its length is returned and at most three times the input, a NUL follows, and the rest is untouched |
| UrlEncode.DecodeEncode | Project_2/ubtorrent.c:48-69 | percent-decoding gives back the bytes, for any number of them |
| UrlEncode.EncodedByte | Project_2/ubtorrent.c:55-66 | a byte stands for itself if and only if it is an unreserved character of RFC 3986; else it is a percent sign and its two lower-case hexadecimal digits |
| UrlEncode.EncodeAppend | Project_2/ubtorrent.c:54-67 | bytes are encoded one by one, in order |
| UrlEncode.EncodedLength | Project_2/ubtorrent.c:48-69 | the length is between n and 3 n and only letters, digits, '.', '-', '_', '~' and '%' occur |
| UrlEncode.EncodeInjective | Project_2/ubtorrent.c:48-69 | different inputs have different encodings |

## Left out

- Sockets, select, DNS, tracker HTTP, the console commands and the display. Handshakes appear as the ways they can end.
- Seeder mode: its status and ranking tables are never allocated.
- Speeds, times and the bytes_uploaded field: they are only displayed.
- Failing memory allocation and the freeing of memory.
- Client.Leecher.FindRarestPieceAndSendRequest: the pass ends with the request; in the source the rest of it runs with
  the sentinel -1 as an index (Project_2/download.c:107), outside the tables.
- What the program does on undefined behaviour: out-of-range or too early HAVE messages, connecting with all slots
  taken.
- Rankings are unbounded integers; the C int overflows after 2^31 increments of one piece.
- Piece sizes are taken to fit the 32-bit length of a request.
- The stored bit fields of peers are values in the slots, not separately allocated arrays; no two slots share one in the
  source.
- A file at an unwritten offset reads as zeros; a failing write, on which the program exits, is not modelled.
- Bencode.Cursor.Decode: covers the input that decodes to a tree without holes, and the NULL of a single value; on other
  input the loops of the source may never advance, or store through a null pointer for an empty container.
- Bencode.BeDecoden: as for Bencode.Cursor.Decode.
- Bencode.Parse: memory after the data reads as a terminator, as in the zeroed buffer of read_torrent_file.
- Network.LineReader.Readline: one descriptor only; the static buffer is shared by all of them in the source. Signals
  interrupt finitely often.
- Network.ReadLines: models the loop of reading lines, not what read_from_tracker makes of the headers and the body.
- Dispatcher.ReadMessage: descriptors fail only by signals, lengths fit an int, and a PIECE for the piece noted has at
  least nine bytes; with fewer the source asks for a buffer of 4 GB.
- Dispatcher.ReadFromClientConnection: as for Dispatcher.ReadMessage, and what is read must be permitted.
- Metainfo.Reader.PopulateStruct: does not model values of the wrong type under the keys it reads, a zero piece size, or
  a hash string too short for the piece count, all undefined in C.
- send_have_message computes its one-byte id with htonl; only the receiving side of HAVE is modelled.
- Liveness. Nothing is scheduled again after a loss; `SwarmLoss` states that as properties.
