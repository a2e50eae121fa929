# stackbench: verified models of its storage, parsing and control cores

stackbench measures network stacks with an HTTP server that stores POST bodies, a load
generator that parses the answers, and modified copies of several user-level stacks.
This project models the parts of it that carry an invariant and proves those invariants
in Dafny. `dafny verify dfyconfig.toml` checks the whole project.

**The index file** (`Flat`, `BTreeShape`, `BTreeRebalance`, `BTreeSplit`, `BTreeRecords`,
`BTreePath`, `BTreeBounds`, `BTreeIndex`, `BTreeTraverse`). A B+ tree over numbered 4 KB
blocks. `BTreeIndex.BTree` is the program: blocks rewritten in place, a saved path of six
entries, a pool of 64 buffers handed out in turn. `BTreeShape.Tree` says what it means for
the blocks to be a tree: level by level, the list of blocks with their key bounds is what
the level above spells out, sibling links follow it, and every block is within its
capacity and, off the root, at least half full. Each restructuring is proved once, on
values, to keep `Tree` and the stored records; the methods are proved to perform exactly
those restructurings. Together: any sequence of inserts is the last-write-wins map.

**The HTTP response parser** (`HttpMachine`, `HttpRuns`, `HttpDigits`, `HttpFastPath`,
`HttpEnds`, `HttpExecute`, `HttpFraming`, `HttpWords`, `HttpHeads`, `HttpChunks`,
`HttpResponses`, `HttpLedger`). `HttpMachine.Step` is the parser as a byte machine.
`HttpExecute.HttpParser` is the program with its inner loops, its `memchr` skipping and the
shortcut this repository added for one fixed 81-byte header. The program is proved to
simulate the byte machine however the stream is cut, and the byte machine is proved to
frame bodies exactly: `HttpLedger` keeps the books of declared and delivered bytes over
every stream, `HttpEnds` says at which byte a message ends. `HttpHeads` gives the header
lines their meaning from their bytes, and `HttpResponses` whole responses: status, framing,
body, the one completion, and whether the connection is kept.

**The storage path** (`PackedEntry`, `PostLog`, `PostStore`): packed log entries, the
zero-copy log that swaps receive buffers with private ones, and the copying log indexed by
the B+ tree. **The slot writer** (`SlotWrite`): a message cut into netmap slots.

**Smaller cores**: the poll-then-block wake-up protocol (`Wakeup`), per-thread latency
histograms (`LatencyStats`), the Toeplitz hash (`RssHash`), REP framing (`RepFraming`), the
core-scaling controller (`CoreScaling`) and HTTP dates (`HttpDate`).

## Where the code does not do what it appears to promise

Each of these is modelled as the code has it, with a concrete input and the exact condition.

- A log entry loses its index once the offset reaches 2^15: `off << 16` is an `int`
  (`PackedEntry.PackUnpack`, `PackedEntry.PackLosesIndex`).
- A consumer that reads the clock when it decides (the slow path) loses no wake-up exactly
  when the producers' threshold is at most its poll cycle (`Wakeup.NoLostWakeup`). The fast
  path reads the clock before it polls: it is safe only with threshold 0 or with blocking
  off (`Wakeup.NoLostWakeupEarly`, `Wakeup.EarlyLoses`). Both hold while enqueueing and
  notifying are one step; as two steps, wake-ups are lost at every threshold
  and every poll cycle that can pass twice (`Wakeup.SplitStepsLose`), and none with blocking
  off (`Wakeup.NeverBlocks`).
- The comparison with the fixed header does not look at the length of the piece: when the
  header at the start of a response ends behind the piece, the parser steps over the end
  (`HttpExecute.HttpParser.Execute`, `HttpExecute.HeaderCutAfterForty`).
- A content length may have spaces among its digits: `1 2` is 12
  (`HttpFraming.LengthExact`, `HttpFraming.OneSpaceTwo`).
- In a Connection list a comma ends the word before it unless that word is the mere
  beginning of keep-alive, close or upgrade: in `k,close` the close is not seen
  (`HttpHeads.CommaEnds`, `HttpHeads.CloseNotSeen`).
- A word of a Connection or Transfer-Encoding line counts only if the line is not folded: a
  close in front of a continuation line is forgotten, and a length there is refused
  (`HttpHeads.FoldForgets`, `HttpHeads.FoldedValue`).
- `stats_correct` does not lower `min`, so samples it adds can fall outside the range the
  queries look at (`LatencyStats.CorrectedCovers`, `LatencyStats.CorrectionUncovers`).
- `stats_popcount` counts a value once per thread (`LatencyStats.PopcountExact`,
  `LatencyStats.PopcountCountsTwice`).
- The space test of `nm_write` wraps around when the header does not fit in what it counts;
  the call then reports bytes it did not write (`SlotWrite.SpaceTestExact`,
  `SlotWrite.SpaceTestWraps`). A header longer than a slot gives the first slot a negative
  share (`SlotWrite.ChunkProper`, `SlotWrite.ChunkNegative`).
- `is_leap` is given years since 1900, so dates from March on are a day off in 2000, 2300
  and every 400 years from there (`HttpDate.TmToTime`, `HttpDate.LeapDisagrees`,
  `HttpDate.MarchOf2000`).

Where a comment and the code differ, the code is modelled: `tas.c` speaks of 1.25 idle cores
and prints 1.2, and compares with `ewma_cycles * 5 / 4`.

## Model

| member | source | states |
|---|---|---|
| `BTreeIndex.BTree.constructor` | src/httpd/fstack/phttpd/bplus_impl.c:874-907 | A new index is a valid tree, holds no record, and leaves no buffer in use |
| `BTreeIndex.BTree.AllocBlock` | src/httpd/fstack/phttpd/bplus_support.c:114-153 | The new block gets the next number, the file has grown past it, all other blocks are as before |
| `BTreeIndex.BTree.Bread` | src/httpd/fstack/phttpd/bplus_support.c:155-176 | Buffers are handed out in turn; the one handed out was not in use (a precondition every caller proves) and now is |
| `BTreeIndex.BTree.Brelse` | src/httpd/fstack/phttpd/bplus_support.c:178-198 | The buffer is free again and no other changes |
| `BTreeIndex.BTree.IntraLookup` | src/httpd/fstack/phttpd/bplus_impl.c:825-872 | Binary search: in a leaf the key's place, or the only gap it fits; in an interior block the child whose keys surround it |
| `BTreeIndex.BTree.SplitNode` | src/httpd/fstack/phttpd/bplus_impl.c:441-514 | The full block keeps the smaller half, a new block gets the greater one, the separator moves up, the level is relinked, nothing else changes |
| `BTreeIndex.BTree.IncreaseHeight` | src/httpd/fstack/phttpd/bplus_impl.c:521-586 | The root's half moves to a new block and block 0 becomes the parent of both halves |
| `BTreeIndex.BTree.ShiftLeft` | src/httpd/fstack/phttpd/bplus_impl.c:588-704 | If the left neighbour shares the parent, the tree is valid again with the same records; otherwise nothing changed |
| `BTreeIndex.BTree.ShiftRight` | src/httpd/fstack/phttpd/bplus_impl.c:706-813 | The same for the right neighbour |
| `BTreeIndex.BTree.Relieve` | src/httpd/fstack/phttpd/bplus_impl.c:399-437 | A full block is relieved by a shift to the left, else to the right, else by a split: valid tree, same records, same buffers free |
| `BTreeIndex.BTree.TryLeft` | src/httpd/fstack/phttpd/bplus_impl.c:401-412 | Keys move exactly if there is a left neighbour with room that shares the parent, and the tree is valid again; otherwise nothing changed but the turn of the buffers |
| `BTreeIndex.BTree.TryRight` | src/httpd/fstack/phttpd/bplus_impl.c:414-425 | The same for the right neighbour |
| `BTreeIndex.BTree.SplitUp` | src/httpd/fstack/phttpd/bplus_impl.c:427-439 | A split hands the new block to the parent, recursively, or raises the root: valid tree, same records |
| `BTreeIndex.BTree.InsertModify` | src/httpd/fstack/phttpd/bplus_impl.c:329-439 | Whatever shifts, splits and raises follow, the tree is valid and holds exactly the records with the new entry in place |
| `BTreeIndex.BTree.PutEntry` | src/httpd/fstack/phttpd/bplus_impl.c:368-394 | Shifting the arrays and storing gives the block with the entry at its place |
| `BTreeIndex.BTree.LookupWork` | src/httpd/fstack/phttpd/bplus_impl.c:182-320 | The descent saves a correct path to the leaf that covers the key and serves the request against the map |
| `BTreeIndex.BTree.ServeAtLeaf` | src/httpd/fstack/phttpd/bplus_impl.c:222-315 | At the leaf: found with its value, not found, overwritten, or inserted |
| `BTreeIndex.BTree.Insert` | src/httpd/fstack/phttpd/bplus_impl.c:1294-1315 | Contents become the old map with the key updated; the tree stays valid and every buffer is free, as long as the blocks of one more insert can be numbered |
| `BTreeIndex.BTree.FewRecords` | src/httpd/fstack/phttpd/bplus_support.c:114-123 | They can for any tree of up to 63 * (2^19 - 5) records |
| `BTreeIndex.BTree.Lookup` | src/httpd/fstack/phttpd/bplus_impl.c:1276-1292 | Found exactly when the key is in the map, with the map's value; blocks are unchanged |
| `BTreeIndex.SplitMakesReady` | src/httpd/fstack/phttpd/bplus_impl.c:427-434 | After a split the saved path still leads to the parent, at the place where the new block belongs |
| `BTreeIndex.MovedLeft` | src/httpd/fstack/phttpd/bplus_impl.c:636-692 | Moving half of the difference to the left neighbour, through the parent's key on interior levels, only redivides the same sequence and moves at least one key |
| `BTreeIndex.MovedRight` | src/httpd/fstack/phttpd/bplus_impl.c:752-800 | The same to the right |
| `BTreeIndex.RoomForInsert` | src/httpd/fstack/phttpd/bplus_support.c:114-123 | Below MAX_RECORDS records no block number reaches the range where its byte offset would overflow an int |
| `BTreeRebalance.RebalanceKeepsTree` | src/httpd/fstack/phttpd/bplus_impl.c:588-813 | Redividing two neighbours under one parent, with the moved separator, keeps the whole tree and its records |
| `BTreeSplit.SplitKeepsTree` | src/httpd/fstack/phttpd/bplus_impl.c:441-514 | Once the parent takes the new block the tree is valid, with at most the parent full, and the same records |
| `BTreeSplit.RaiseKeepsTree` | src/httpd/fstack/phttpd/bplus_impl.c:521-586 | A raised tree has one more level, its root is still block 0, and the records are the same |
| `BTreeRecords.InsertKeepsTree` | src/httpd/fstack/phttpd/bplus_impl.c:348-394 | A record put in its leaf's gap: valid tree in which that leaf may be full, and the map gains exactly that record |
| `BTreeRecords.UpdateKeepsTree` | src/httpd/fstack/phttpd/bplus_impl.c:240-245 | Overwriting a datum updates the map at that key only |
| `BTreeRecords.KeyIsInItsLeaf` | src/httpd/fstack/phttpd/bplus_impl.c:212-226 | A key in the range of a leaf is stored if and only if that leaf has it |
| `BTreeRecords.PairsAscending` | src/httpd/fstack/phttpd/bplus_impl.c:1205-1272 | The records along the leaves are in strictly increasing key order |
| `BTreePath.DescentStep` | src/httpd/fstack/phttpd/bplus_impl.c:196-221 | On the way down the followed child covers the key |
| `BTreeBounds.HeightNeedsRecords` | src/httpd/fstack/phttpd/bplus_impl.c:77-96 | A root at level L >= 1 means at least 252 * 168^(L-1) records |
| `BTreeBounds.PathSuffices` | src/httpd/fstack/phttpd/bplus_impl.c:204-214 | Below 252 * 168^4 records the six path entries suffice |
| `BTreeBounds.BlocksBoundHeight` | src/httpd/fstack/phttpd/bplus_impl.c:204-214 | With block numbers that fit, the tree has at most four levels, so the path always suffices |
| `BTreeBounds.BlocksPerRecord` | src/httpd/fstack/phttpd/bplus_impl.c:486-509 | No block is lost and every leaf is at least half full: 63 records per block |
| `BTreeTraverse.Replay` | src/httpd/fstack/phttpd/bplus_impl.c:874-907 | After creation and any sequence of inserts the contents are the last-write-wins map of those inserts; block numbers run out only beyond 63 * (2^19 - 5) keys |
| `BTreeTraverse.Cursor.Reset` | src/httpd/fstack/phttpd/bplus_impl.c:1205-1230 | The cursor stands before the first record of the leftmost leaf |
| `BTreeTraverse.Cursor.Next` | src/httpd/fstack/phttpd/bplus_impl.c:1232-1270 | The next record in key order, or nothing once all were seen |
| `BTreeTraverse.Walk` | src/httpd/fstack/phttpd/bplus_impl.c:1205-1272 | Walking the leaf chain yields the value of every key exactly once, in key order, and stops |
| `HttpMachine.RunConcat` | src/wrk/host_wrk/src/http_parser.c:707-712 | The byte machine on a concatenation is the machine on the parts |
| `HttpRuns.NameRecognised` | src/wrk/host_wrk/src/http_parser.c:1260-1387 | A known header name is recognised in any letter case, exactly at its last letter |
| `HttpRuns.ValueRecognised` | src/wrk/host_wrk/src/http_parser.c:1553-1613 | The same for the values keep-alive, close, upgrade and chunked |
| `HttpFastPath.HeaderText` | src/wrk/host_wrk/src/http_parser.c:632-634 | The bytes the shortcut compares are the text of the fixed header, up to the Connection line |
| `HttpFastPath.HeaderTextTail` | src/wrk/host_wrk/src/http_parser.c:634-636 | The Server line and the start of the Content-Length line |
| `HttpFastPath.FastPathIsExact` | src/wrk/host_wrk/src/http_parser.c:725-737 | From the start of a response, walking the 81 bytes reaches the state, header state, flags, version, status and content length that the shortcut writes; only the two counters differ |
| `HttpExecute.OneByteOk` | src/wrk/host_wrk/src/http_parser.c:707-2022 | Every single-byte step keeps what the source asserts: positive body lengths in body states, the chunked flag in chunk states, a fresh byte count at a chunk size, and header states that fit the place |
| `HttpExecute.NameOk` | src/wrk/host_wrk/src/http_parser.c:1260-1387 | So does every byte of a header name |
| `HttpExecute.BodyRun` | src/wrk/host_wrk/src/http_parser.c:1852-1887 | A declared body is delivered byte for byte and its end is noticed exactly at its last byte |
| `HttpExecute.HttpParser.CountHeader` | src/wrk/host_wrk/src/http_parser.c:151-158 | The count grows by the bytes and the error is set exactly above HTTP_MAX_HEADER_SIZE |
| `HttpExecute.HttpParser.TakeByte` | src/wrk/host_wrk/src/http_parser.c:713-948 | A single-byte state does one step of the byte machine; a chunk size starts with a byte count of one |
| `HttpExecute.HttpParser.TakeName` | src/wrk/host_wrk/src/http_parser.c:1260-1387 | The loop over a header name is a run of the byte machine up to where it stops |
| `HttpExecute.HttpParser.SkipGeneral` | src/wrk/host_wrk/src/http_parser.c:1497-1521 | The `memchr` skip lands on the first line end, or on the end of the piece |
| `HttpExecute.HttpParser.TakeValue` | src/wrk/host_wrk/src/http_parser.c:1468-1657 | The loop over a header value, with its skips, is a run of the byte machine |
| `HttpExecute.HttpParser.TakeBody` | src/wrk/host_wrk/src/http_parser.c:1852-1887 | As much of the body as the piece has is delivered at once, as the byte machine would one by one |
| `HttpExecute.HttpParser.TakeRest` | src/wrk/host_wrk/src/http_parser.c:1889-1893 | A body that runs to the end of the connection takes the rest of the piece |
| `HttpExecute.HttpParser.TakeHeader` | src/wrk/host_wrk/src/http_parser.c:782-808 | The shortcut inside a piece is a run of the byte machine over 81 bytes |
| `HttpExecute.HttpParser.Turn` | src/wrk/host_wrk/src/http_parser.c:707-2029 | One turn of the main loop is a run of the byte machine, or stops with an error the machine reaches too, or steps over the end of the piece exactly when a response starts there with an overhanging header |
| `HttpExecute.HttpParser.Execute` | src/wrk/host_wrk/src/http_parser.c:638-2060 | On a non-empty piece the parser ends where the byte machine ends and returns the length of the piece, or on an error the position of the first byte at which the byte machine fails; a parser already in error returns 0 and is unchanged; it steps over the end of the piece if and only if a response starts in it with a fixed header that ends behind it; on an empty piece it completes a message that runs to the end of the stream, and no other, and returns 1 exactly when an error is set; without an error it stops short of the end only at an upgrade |
| `HttpExecute.HeaderCutAfterForty` | src/wrk/host_wrk/src/http_parser.c:782-808 | Forty header bytes in the piece and the others behind it: an input on which the shortcut steps over the end |
| `HttpExecute.HeaderCutInBody` | src/wrk/host_wrk/src/http_parser.c:782-808 | Header text cut inside a body does no harm |
| `HttpExecute.Feed` | src/wrk/host_wrk/src/http_parser.c:681-706 | Any partition of a stream into non-empty pieces gives the completions, the body bytes and the state of the byte machine on the whole stream, whichever pieces took the shortcut (after an error the state too, except body bytes not yet handed over); it steps over the end of a piece if and only if some piece cuts the fixed header at the start of a response |
| `HttpFraming.LengthExact` | src/wrk/host_wrk/src/http_parser.c:1527-1552 | content_length is the decimal value of the digits, spaces among and after them skipped, below ULLONG_MAX; numbers beyond the limit are refused |
| `HttpFraming.OneSpaceTwo` | src/wrk/host_wrk/src/http_parser.c:1531 | A value with a space among its digits that is accepted |
| `HttpFraming.DigitsDenote` | src/httpd/fstack/phttpd/phttpd.c:148-156 | The digits the server prints denote the body length |
| `HttpFraming.ResponseParsed` | src/wrk/host_wrk/src/http_parser.c:1737-1902 | Every response of the server is parsed, its body delivered byte for byte, and exactly one message completes |
| `HttpFraming.CompletesAtLastByte` | src/wrk/host_wrk/src/http_parser.c:1852-1902 | For the server's own responses: on_message_complete fires at the last byte and not before |
| `HttpFraming.StreamParsed` | src/wrk/host_wrk/src/http_parser.c:1895-1902 | Any number of the server's responses back to back: one completion each, all bodies in order |
| `HttpFraming.ClientReads` | src/wrk/host_wrk/src/http_parser.c:638-2053 | The client counts each response once and receives each body, however the network cuts the stream, unless a piece cuts a header at the start of a response |
| `HttpWords.NameExact` | src/wrk/host_wrk/src/http_parser.c:1260-1387 | A header name of any length is recognised exactly if it is Connection, Proxy-Connection, Content-Length, Transfer-Encoding or Upgrade, in any letter case |
| `HttpHeads.CodingRun` | src/wrk/host_wrk/src/http_parser.c:1555-1563 | Any Transfer-Encoding value: recognised as chunked exactly if it is that word, in any letter case, with nothing but spaces behind it |
| `HttpHeads.WordRun` | src/wrk/host_wrk/src/http_parser.c:1565-1657 | A word of a Connection list is recognised exactly if it is keep-alive, close or upgrade, in any letter case |
| `HttpHeads.ListRun` | src/wrk/host_wrk/src/http_parser.c:1565-1657 | A whole Connection list, with spaces around its words, read word by word |
| `HttpHeads.WordsFlags` | src/wrk/host_wrk/src/http_parser.c:1670-1735 | The flags of a list say exactly which of the three words are in it |
| `HttpHeads.CommaEnds` | src/wrk/host_wrk/src/http_parser.c:1584-1620 | A comma ends the word before it if and only if that word is not the mere beginning of one of the three |
| `HttpHeads.CloseNotSeen` | src/wrk/host_wrk/src/http_parser.c:1584-1620 | A Connection value with a close that is not seen |
| `HttpHeads.ListAbandoned` | src/wrk/host_wrk/src/http_parser.c:1565-1582 | Where a word may begin, a byte that cannot begin one ends the reading of the list |
| `HttpHeads.FoldedBlank` | src/wrk/host_wrk/src/http_parser.c:1706-1711 | An empty value goes on with a next line that begins with a blank |
| `HttpHeads.FoldedValue` | src/wrk/host_wrk/src/http_parser.c:1404-1466 | A continuation line after a value resets what was recognised; after a length it is refused |
| `HttpHeads.FoldForgets` | src/wrk/host_wrk/src/http_parser.c:1670-1697 | Whatever a continuation line holds, the flags stay as they were before the word in front of it, which would have set one |
| `HttpHeads.HeadRun` | src/wrk/host_wrk/src/http_parser.c:1210-1735 | A header line of any name and value on one line says what its bytes mean and changes nothing else |
| `HttpHeads.BlockRun` | src/wrk/host_wrk/src/http_parser.c:1210-1735 | A header block says what its lines say, one after the other |
| `HttpHeads.BlockSays` | src/wrk/host_wrk/src/http_parser.c:1670-1735 | Each flag is set exactly if a line of the block says so: chunked, a length, Upgrade, and each Connection word |
| `HttpHeads.BlockLength` | src/wrk/host_wrk/src/http_parser.c:1527-1552 | The length is the value of the one length line, and below ULLONG_MAX |
| `HttpEnds.StepCompletes` | src/wrk/host_wrk/src/http_parser.c:1737-1902 | on_message_complete fires at a byte if and only if it is the last byte of a declared body or a blank line that ends a trailer or a header block without a body; only then does the next message start |
| `HttpEnds.RunCompletes` | src/wrk/host_wrk/src/http_parser.c:1737-1902 | On every stream, completions are counted exactly once per message end |
| `HttpLedger.BooksBalance` | src/wrk/host_wrk/src/http_parser.c:1428-2022 | Every byte in every state keeps that balance, and header lines other than Content-Length leave the length alone |
| `HttpLedger.Conserved` | src/wrk/host_wrk/src/http_parser.c:1428-2022 | On every stream, bytes delivered plus bytes still owed equal the lengths the stream declared, as numbers its digits denote, plus the bytes of bodies without a length; no length wraps or is the ULLONG_MAX sentinel |
| `HttpLedger.DeliversPayload` | src/wrk/host_wrk/src/http_parser.c:1852-2014 | On every stream, what is delivered is exactly the bytes read as body, in order |
| `HttpLedger.MessageFramed` | src/wrk/host_wrk/src/http_parser.c:1737-2022 | Of every response, whatever its header lines: the bytes delivered total the declared length or the sum of the chunk sizes, and the one completion comes at its last byte |
| `HttpChunks.SizeExact` | src/wrk/host_wrk/src/http_parser.c:1904-1955 | A chunk size is the hexadecimal value of its digits, below ULLONG_MAX; larger numbers are refused |
| `HttpChunks.ExtSkipped` | src/wrk/host_wrk/src/http_parser.c:1933-1966 | A chunk extension is skipped up to its line end |
| `HttpChunks.ChunkParsed` | src/wrk/host_wrk/src/http_parser.c:1920-2022 | A chunk, with any extension, delivers its data and leaves the parser before the next chunk |
| `HttpChunks.LineRun` | src/wrk/host_wrk/src/http_parser.c:1210-1735 | A trailer line of any name and value delivers nothing and completes nothing, or is refused |
| `HttpChunks.ChunkedBody` | src/wrk/host_wrk/src/http_parser.c:1904-2022 | With chunk extensions and any trailer lines, the data of all chunks is delivered in order, and the message completes at the last byte and not before, unless a trailer line is refused |
| `HttpResponses.StatusExact` | src/wrk/host_wrk/src/http_parser.c:872-915 | The status is the decimal value of its digits, however many; a value above 999 is refused |
| `HttpResponses.StartRun` | src/wrk/host_wrk/src/http_parser.c:782-948 | A status line gives its version numbers and status and clears flags and length |
| `HttpResponses.StatusEnds` | src/wrk/host_wrk/src/http_parser.c:887-915 | The status ends with a space or a line end; any other byte is refused |
| `HttpResponses.Between` | src/wrk/host_wrk/src/http_parser.c:782-808 | Line ends before a status line are skipped; any other byte but an H is refused |
| `HttpResponses.ClosedForGood` | src/wrk/host_wrk/src/http_parser.c:715-723 | After a message that does not keep the connection nothing is delivered or completed, and a stream with anything but line ends in it is refused |
| `HttpResponses.ChunkedHead` | src/wrk/host_wrk/src/http_parser.c:1737-1849 | A header block with a chunked line and no length leads to the first chunk |
| `HttpResponses.BothRefused` | src/wrk/host_wrk/src/http_parser.c:1737-1757 | A chunked line and a length line in one block are refused at its end |
| `HttpResponses.ChunkedResponse` | src/wrk/host_wrk/src/http_parser.c:782-2022 | From status line to trailer: the data of all chunks is delivered, one message completes, at the last byte and not before, and the parser is at the start of a response exactly if the version and the Connection lines of block and trailer keep the connection |
| `HttpResponses.DeclaredResponse` | src/wrk/host_wrk/src/http_parser.c:782-1902 | The same for a block with a length and no chunked line: the body is that many bytes |
| `HttpResponses.BodilessResponse` | src/wrk/host_wrk/src/http_parser.c:782-1902 | The same for length 0 and for 1xx, 204 and 304 without a length: the blank line ends the message |
| `HttpResponses.EofResponse` | src/wrk/host_wrk/src/http_parser.c:1836-1893 | Otherwise all that follows is the body; only the end of the stream completes the message |
| `PackedEntry.PackUnpack` | src/httpd/fstack/phttpd/phttpd.c:275-279 | With `<<`, widening, `|` and the reader's masks on binary digits: offset and length always come back; the index comes back if and only if the offset is below 2^15 or the index is all ones |
| `PackedEntry.PackLosesIndex` | src/httpd/fstack/phttpd/phttpd.c:275-279 | A concrete entry whose index is lost |
| `PasteLog.Log.constructor` | src/httpd/fstack/phttpd/phttpd.c:297-315 | An empty log over a ring and its extra buffers is valid |
| `PasteLog.Log.ExtraNext` | src/httpd/fstack/phttpd/nmlib.h:656-672 | The next extra slot in turn, starting over with the log when all were used |
| `PasteLog.Log.AppendEntry` | src/httpd/fstack/phttpd/phttpd.c:297-315 | Exactly one word of the log is written, at the position, which wraps when no room is left |
| `PasteLog.Log.Post` | src/httpd/fstack/phttpd/phttpd.c:432-459 | The slot and the extra slot whose turn it is exchange buffers and the slot is marked changed, all other slots, extras and log words stay; the log position stays 8 times the extra index, entry i names the buffer in extra i, and ring and extras together keep the same buffers with multiplicity |
| `PasteLog.Log.StaysOffRing` | src/httpd/fstack/phttpd/phttpd.c:432-459 | A logged buffer is off the ring, and its log entry names it, until as many further POSTs came as there are extra buffers |
| `PostStore.PostKeepsLayout` | src/httpd/fstack/phttpd/phttpd.c:317-374 | A POST keeps records aligned, in bounds and disjoint within a pass, and every byte of the log is that of the last record written over it |
| `PostStore.IntactBytes` | src/httpd/fstack/phttpd/phttpd.c:317-374 | A record that no later one was written over reads back as its body |
| `PostStore.SurvivesOnePass` | src/httpd/fstack/phttpd/phttpd.c:337-340 | Records of the current pass, and those of the previous one that it has not reached, are intact |
| `PostStore.FittingIsApart` | src/httpd/fstack/phttpd/phttpd.c:337-340 | A body that fits behind the last one meets no record of the current pass there |
| `PostStore.Retained` | src/httpd/fstack/phttpd/phttpd.c:317-374 | Over any run, a record is intact until the records from it on, with one largest record to spare, fill the log |
| `PostStore.OldRecordSurvives` | src/httpd/fstack/phttpd/phttpd.c:317-374 | An input on which a record two passes old is still intact |
| `PostStore.PostKeepsIndex` | src/httpd/fstack/phttpd/phttpd.c:352-374 | The index keeps naming the last record of every key posted, and no other key |
| `PostStore.Latest` | src/httpd/fstack/phttpd/phttpd.c:484-510 | The number of the last POST with a key, or -1 when there was none |
| `PostStore.Store.Post` | src/httpd/fstack/phttpd/phttpd.c:317-374 | The body goes behind the last one if it fits there and to the start of the log exactly if it does not; it meets no record of its pass, earlier POSTs keep their records, layout and index stay valid |
| `PostStore.Store.Get` | src/httpd/fstack/phttpd/phttpd.c:484-510 | Found exactly when the key was posted; every byte is that of the last POST written there, so the content is the body of the latest POST with the key unless a later one was written over it |
| `PostStore.PostAll` | src/httpd/fstack/phttpd/phttpd.c:317-374 | POSTs that together fit the log are all stored and stay intact |
| `PostStore.PostThenGet` | src/httpd/fstack/phttpd/phttpd.c:317-510 | After them a GET finds a key exactly if it was posted, and yields the body of its last POST |
| `SlotWrite.Ring.Write` | src/httpd/fstack/phttpd/nmlib.h:1279-1322 | When the space test passes, the slots' payloads concatenate to the data in order, none exceeds the MTU behind its offset, header bytes and other slots are untouched, cur never passes tail; every byte is copied if the test did not wrap; a slot gets an improper share if and only if the header is longer than a slot |
| `SlotWrite.Ring.FillSlot` | src/httpd/fstack/phttpd/nmlib.h:1303-1319 | One more slot carries the next bytes and all earlier slots keep theirs |
| `SlotWrite.SpaceTestExact` | src/httpd/fstack/phttpd/nmlib.h:1297-1301 | The test admits only messages that fit if and only if the header fits in the space it counts |
| `SlotWrite.SpaceTestAdmits` | src/httpd/fstack/phttpd/nmlib.h:1297-1301 | Where it does not wrap around, the test admits exactly the messages that fit, with the header, in MTU - OFF bytes for each free slot |
| `SlotWrite.SpaceTestWraps` | src/httpd/fstack/phttpd/nmlib.h:1297-1301 | A ring and header for which 1000 bytes are admitted and 65 fit |
| `SlotWrite.ChunkProper` | src/httpd/fstack/phttpd/nmlib.h:1306-1309 | A slot's share is a proper length within the MTU if and only if the header fits in a slot |
| `SlotWrite.ChunkNegative` | src/httpd/fstack/phttpd/nmlib.h:1297-1309 | A header of 1521 bytes is admitted and the first slot's share is -1 |
| `Wakeup.Producer.NotifyCore` | src/stack/tas/tas/blocking.c:34-53 | Over successive calls: the events written are the notifications that came more than the threshold after the one before |
| `Wakeup.Consumer.constructor` | src/stack/tas/tas/blocking.c:106-109 | Cleared flags; the time of the last activity is whatever it was |
| `Wakeup.Consumer.CanBlock` | src/stack/tas/tas/blocking.c:78-104 | Over successive calls: the consumer may block exactly at a call without data that follows an overdue one, itself without data, not the first such call since the last activity, and more than a poll cycle after it |
| `Wakeup.NoLostWakeup` | src/stack/tas/tas/slow/kernel.c:119-138 | Consumer that reads the clock when it decides: a blocked consumer with work has a pending event in every interleaving of any number of producers, if and only if the threshold is at most the poll cycle |
| `Wakeup.LateStep` | src/stack/tas/tas/blocking.c:34-109 | Every step of producers, consumer and clock keeps the invariant that relates notification times to the consumer's last activity |
| `Wakeup.EarlyStep` | src/stack/tas/tas/fast/fastemu.c:150-189 | The invariant behind it, kept by every step |
| `Wakeup.NoLostWakeupEarly` | src/stack/tas/tas/fast/fastemu.c:150-189 | Consumer that reads the clock before it polls: the same holds if and only if the threshold is 0 or blocking is off |
| `Wakeup.EarlyLoses` | src/stack/tas/tas/fast/fastemu.c:150-189 | For every positive threshold, a run of a consumer with an early clock that loses a wake-up |
| `Wakeup.LateLoses` | src/stack/tas/tas/blocking.c:34-53 | For every larger threshold, a run that loses a wake-up |
| `Wakeup.NeverBlocks` | src/stack/tas/tas/blocking.c:80-82 | With blocking switched off the consumer never blocks, one step or two |
| `Wakeup.SplitStepsLose` | src/stack/tas/tas/blocking.c:34-53 | With enqueueing and notifying as two steps: for every threshold, and every poll cycle that can pass twice, a run that loses a wake-up |
| `LatencyStats.Local.constructor` | src/wrk/host_wrk/src/stats.c:10-21 | An empty histogram; its empty range covers its samples |
| `LatencyStats.Local.Record` | src/wrk/host_wrk/src/stats.c:29-37 | One bucket grows by one and the range is widened to the value and no further, or nothing changes out of range; the count stays the sum and the bounds are attained |
| `LatencyStats.Local.Correct` | src/wrk/host_wrk/src/stats.c:39-52 | Each original sample adds one sample at itself minus every multiple of the interval above the interval, computed in place; the count stays the sum |
| `LatencyStats.Local.CorrectFrom` | src/wrk/host_wrk/src/stats.c:42-50 | The pass reads only buckets it has not changed yet |
| `LatencyStats.CorrectedCovers` | src/wrk/host_wrk/src/stats.c:39-52 | After the correction the range still covers all samples if and only if none was handed down below the minimum |
| `LatencyStats.CorrectionUncovers` | src/wrk/host_wrk/src/stats.c:39-52 | A histogram for which it does not |
| `LatencyStats.ExtremesExact` | src/wrk/host_wrk/src/stats.c:62-76 | Merged minimum and maximum are the least and the greatest value recorded by any thread |
| `LatencyStats.CumTotal` | src/wrk/host_wrk/src/stats.c:54-60 | Counting by thread and counting by value agree |
| `LatencyStats.Percentile` | src/wrk/host_wrk/src/stats.c:125-139 | For a rank in 1..count the least value whose merged cumulative count reaches it; 0 for a larger rank |
| `LatencyStats.ValueAt` | src/wrk/host_wrk/src/stats.c:152-168 | The index-th distinct merged value with its merged count; past the end 0 and the number of distinct values |
| `LatencyStats.DistinctExact` | src/wrk/host_wrk/src/stats.c:152-168 | The enumerated values are exactly those some thread recorded, strictly ascending |
| `LatencyStats.Popcount` | src/wrk/host_wrk/src/stats.c:141-150 | The nonzero buckets of every thread, added up, although each thread scans only its own range |
| `LatencyStats.PopcountExact` | src/wrk/host_wrk/src/stats.c:141-150 | That sum is the number of distinct merged values if and only if no value is shared between threads; otherwise it is larger |
| `LatencyStats.PopcountCountsTwice` | src/wrk/host_wrk/src/stats.c:141-150 | Two threads with one common value: the sum is 2, the number of values 1 |
| `RssHash.BuildKeyCache` | src/stack/mtcp/util/rss.c:84-105 | cache[i] is the 32-bit window of the key at bit i |
| `RssHash.Absorb` | src/stack/mtcp/util/rss.c:124-143 | Each of the four loops adds the windows at the set bits of its word |
| `RssHash.Rss.GetHash` | src/stack/mtcp/util/rss.c:107-145 | The hash is the XOR of the key windows at the set bits of the tuple, whether or not the cache was filled before |
| `RssHash.ToeplitzLinear` | src/stack/mtcp/util/rss.c:107-145 | The hash is linear over XOR, for every key |
| `RssHash.Collapse` | src/stack/mtcp/util/rss.c:83-91 | With the repeated 0x05 key it depends only on the XOR of the input's bytes |
| `RssHash.HashesAgree` | src/stack/mtcp/util/rss.c:83-91 | Two tuples hash alike if and only if the XOR of all their bytes is 0x00, 0x55, 0xaa or 0xff |
| `RssHash.BothDirections` | src/stack/mtcp/util/rss.c:107-145 | Both directions of a connection hash alike |
| `RssHash.TableIsXor` | src/stack/mtcp/util/rss.c:159-162 | Adding the table's offset in 32-bit arithmetic is XOR with 3 |
| `RssHash.Rss.GetCore` | src/stack/mtcp/util/rss.c:153-165 | The core is the low seven hash bits, XOR 3, modulo the queues, and the same for the opposite direction |
| `RepFraming.RingBuffer.constructor` | src/stack/mtcp/util/ring_buffer.c:38-46 | An empty buffer of the given size |
| `RepFraming.RingBuffer.GetRemain` | src/stack/mtcp/util/ring_buffer.c:64-79 | The space behind the data, never less than before; the data moves to the front exactly if it starts in the second half, with the same contents |
| `RepFraming.RingBuffer.RemoveData` | src/stack/mtcp/util/ring_buffer.c:101-117 | The prefix is removed, or -1 and no change when there is not that much |
| `RepFraming.RingBuffer.Append` | src/stack/mtcp/util/ring_buffer.c:119-125 | The bytes follow the earlier contents; sizes and cumulative size grow by their number |
| `RepFraming.RingBuffer.CopyData` | src/stack/mtcp/util/ring_buffer.c:127-147 | A prefix of the source is appended, as long as asked for and as fits; the source is unchanged |
| `RepFraming.RingBuffer.MoveFrame` | src/stack/mtcp/util/ring_buffer.c:169-189 | One header with its payload is appended and exactly that payload leaves the source |
| `RepFraming.RingBuffer.MoveToRep` | src/stack/mtcp/util/ring_buffer.c:149-193 | Frames of 1..MAX_REP_LEN bytes are appended to unchanged contents, their payloads concatenate to the removed prefix, and it stops only when the request is met or no header plus one byte fits |
| `RepFraming.FramesReadBack` | src/stack/mtcp/util/ring_buffer.c:149-193 | A reader that takes lengths from the headers gets exactly the bytes that were moved |
| `CoreScaling.Controller.constructor` | src/stack/tas/tas/tas.c:250-252 | The initial state: one core, no request, waiting |
| `CoreScaling.Controller.ScaleTo` | src/stack/tas/tas/tas.c:234-245 | A request is taken exactly when none is pending |
| `CoreScaling.Controller.SumUp` | src/stack/tas/tas/tas.c:256-268 | Busy cycles since the last reading, in 64-bit arithmetic; a missing core ends the loop with the earlier ones already read |
| `CoreScaling.Controller.LoadMon` | src/stack/tas/tas/tas.c:247-323 | One call is one step of the monitor that the run theorems are about: averages moved an eighth towards the measured load, and a decision on them |
| `CoreScaling.Controller.TakeUp` | src/stack/tas/tas/fast/fastemu.c:568-592 | The fast path takes up a pending request |
| `CoreScaling.RequestsInRange` | src/stack/tas/tas/tas.c:300-322 | Over any run, every count asked for lies in 1..fp_cores_max |
| `CoreScaling.RequestsApart` | src/stack/tas/tas/tas.c:289-322 | Over any run, two requests are at least ten calls apart |
| `CoreScaling.Hysteresis` | src/stack/tas/tas/tas.c:293-322 | With the same averages, asking up and asking back down exclude each other, integer division and 64-bit wrap-around included |
| `CoreScaling.NoFlipFlop` | src/stack/tas/tas/tas.c:247-323 | In every reachable state, what a call asks for would not be taken back on the averages it was asked on |
| `CoreScaling.Averages` | src/stack/tas/tas/tas.c:256-281 | While nothing wraps, each average moves an eighth of the way, rounded down, to what was measured: the advance of the cores' counters, and of the clock |
| `CoreScaling.BusyAsksUp` | src/stack/tas/tas/tas.c:247-323 | Cores that are busy all the time, below the maximum: one more is asked for at the very call at which the waiting period runs out, and nothing before |
| `CoreScaling.BusyFromStart` | src/stack/tas/tas/tas.c:247-323 | From the start: the first call only reads the clock, the tenth after it asks for a second core, none before |
| `CoreScaling.IdleAsksDown` | src/stack/tas/tas/tas.c:247-323 | Two or more cores that are idle all the time: one less is asked for once the waiting period has run out and eight idle intervals were averaged, and never one more |
| `CoreScaling.IdleLeadsDown` | src/stack/tas/tas/tas.c:247-323 | In particular within ten calls, from averages that count no more than all cores as busy |
| `HttpDate.DayNumberCounts` | src/stack/mtcp/util/tdate_parse.c:163-194 | The reference day number is 0 on 1 January 1970 and grows by one from each day of the calendar to the next |
| `HttpDate.MonthTable` | src/stack/mtcp/util/tdate_parse.c:167-168 | The month table plus the leap day from March on is the sum of the month lengths |
| `HttpDate.YearStartExact` | src/stack/mtcp/util/tdate_parse.c:170-179 | The year-start count is the exact Gregorian one for every year from 1970 |
| `HttpDate.TmToTime` | src/stack/mtcp/util/tdate_parse.c:163-194 | The result is exact if and only if the month is January or February or year and year + 1900 agree on being leap; otherwise it is one day off, in the stated direction |
| `HttpDate.LeapDisagrees` | src/stack/mtcp/util/tdate_parse.c:155-159 | They disagree exactly in years that are 0 or 100 modulo 400, counted from 1900 |
| `HttpDate.MarchOf2000` | src/stack/mtcp/util/tdate_parse.c:184-186 | A concrete date that comes out a day early |

## Left out

- BTreeIndex.BTree.Insert: requires that the blocks of one more insert can be numbered, because a block number of 2^19 or more times 4096 overflows the `int` that holds the offset.
- BTreeIndex.BTree.AllocBlock: the file is a sequence of blocks that keeps its contents; `mmap`, `ftruncate`, their failures and the moving of buffer pointers after remapping are not modelled.
- Block headers: serial numbers and the last-operation field, which nothing reads; keys, data and children are sequences, so the byte layout inside a block is not modelled.
- Deletion, the RANGE and BUFFER lookup modes and the disabled collapse code: no public function reaches them.
- HttpExecute.HttpParser.Execute: `rest` stands for the memory behind the piece; what the parser does after it stepped over the end of the piece is not modelled.
- HttpExecute.Feed: for streams whose header values pass the header-character test, whose header blocks are at most half of the limit and which do not upgrade; outside these the inner loops and the byte machine differ.
- HttpChunks.ChunkedBody: trailer lines on one line each; that folded lines deliver nothing either follows from `HttpLedger.Conserved`.
- HttpHeads.HeadRun: lines that are not folded (continuation lines are in `FoldForgets`); a Connection value is a list of words separated by commas and spaces, without tabs and empty items.
- HTTP requests, URLs, pausing, upgrades and all callbacks except body bytes and completions, and the re-initialisation of the parser in the load generator's own callback.
- PASTE mode with a B+ tree, the copying modes without persistent memory, and cache-line flushes.
- PasteLog.Log.Post: one POST per receive slot at a time; the message spanning several slots is not modelled.
- PostStore.Store.Post: bodies of 8 to 65535 bytes; shorter ones have no key and longer ones do not fit the 16-bit length.
- SlotWrite.Ring.Write: what happens after a slot was given an improper share is not modelled; a copy writes exactly the bytes of its share, while the library copy may round up inside the buffer; each slot owns its buffer.
- LatencyStats.Local.Correct: one thread; the outer loop only repeats it. Counts are unbounded, so 64-bit overflow of a count is not modelled.
- LatencyStats.Percentile: the rank is an integer input; its floating-point computation, the mean and the deviations are left out.
- RepFraming.RingBuffer.MoveToRep: the header's layout is in a file that is not part of this model, so the header is any encoding of a fixed size; `FramesReadBack` assumes lengths can be read back.
- RepFraming.RingBuffer.Append: requires room behind the data, which is stronger than the assertion in AddDataLen and is what its callers establish.
- CoreScaling.Controller.LoadMon: the statistics output with its two counters is left out; the waiting counter is unbounded.
- HttpDate.TmToTime: the `sscanf` formats and the two-digit-year rule before it are left out; years are unbounded, so overflow of the day count is not modelled.
- Wakeup.NoLostWakeup: clock values are 64-bit, start at 0 and never wrap within a run; the time of the last activity, which the source leaves uninitialised, starts at 0 (`Wakeup.Consumer` allows any); reading the event descriptor clears all pending events.
- Wakeup.SplitStepsLose: for the slow path, and for poll cycles that can pass twice before the 64-bit clock ends.
- The application's side of the notifications, whose consumer is a library outside these files.
- Sockets, netmap, mTCP, F-Stack, IX, TAS and DPDK plumbing, start-up, option parsing, scripting and TLS.
