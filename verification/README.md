# XMLTP/L gateway: model and proofs

The gateway relays remote procedure calls, written in XMLTP/L, from clients to destination servers, and
their responses back. This project models in Dafny the parts of it that have state or a protocol, and
proves what they promise. `dafny verify dfyconfig.toml` checks all of it.

| file | what it models |
|---|---|
| `strings.dfy` | `find`, `replace`, `strip`, `int` and `str` of the source language |
| `xml_escape.dfy` | escaping with the five predefined entities (section 4.6 of XML 1.0) |
| `markup.dfy`, `xmltp_tokens.dfy`, `xmltp_writer.dfy` | the tags, the socket buffer and the printers of a response |
| `resp_text.dfy`, `resp_reader.dfy` | the text of a response, and reading it in chunks through a 70-byte tail |
| `resp_items.dfy`, `resp_parse.dfy`, `resp_parts.dfy`, `resp_view.dfy` | a reader of responses by the grammar of the protocol, and what it reads of a printed one |
| `value_lexer.dfy` | how the parser in C takes the text of a value |
| `rpc_relay.dfy`, `rpc_settle.dfy` | relaying the chunks, the outcomes of a call, the retry, the end of a call's thread |
| `call_sender.dfy` | sending a call to a destination, with its retry |
| `res_pool.dfy`, `res_pool_run.dfy` | the pool of resources as an object, and all interleavings of its threads |
| `var_queue.dfy`, `var_queue_run.dfy` | the persistent queue of two tables; all its runs, with every fault |
| `intercept_queue.dfy`, `intercept_run.dfy` | the queue of intercepted rows, with its held row; all its runs, with requests served one at a time |
| `intercept_steps.dfy`, `intercept_alone.dfy` | the same with any number of threads and no lock; a thread alone |
| `active_queue.dfy` | the retry loop of an active queue |
| `service_rpc.dfy`, `active_sync.dfy` | the thread that runs a call of an active queue, and the handshake between the two |
| `active_run.dfy` | the calls and pings for one item, with one frame |
| `client_conn.dfy`, `fd_index.dfy` | the states of a client connection; the index from descriptors to connections |
| `call_parser.dfy`, `custody.dfy`, `custody_drops.dfy` | what becomes of a connection with its call, who holds it, and why it is disconnected, over whole runs |
| `gates.dfy` | the gates of groups of RPC names, and the index of blocked names |
| `param_tree.dfy` | the binary search tree of the configuration parameters |

## How the source is rendered

* An object whose methods change it is a class; its methods are tied to a function on values, and the
  laws are lemmas about that function, over every run of calls.
* Threads are step systems: each get or put of a queue, and each section that the source protects by a
  lock, is one step. Theorems hold for every interleaving of the steps.
* Exceptions are results. What the network, the clock, the database and the operator do is a parameter,
  and every value of it is covered.
* The debug level is 0.

## What was found false, and the exact condition

* The status of a response is not always found by the reader: it is for every chunking exactly when it has
  at most 14 characters (`RespReader.EndToEnd`). Otherwise the reader says that there is none, never
  another one (`RespReader.StatusCutOff`).
* The parser in C does not read every string back that was printed: it does exactly when what is printed of it is
  shorter than its buffer, and the string has no zero in it and does not end in a backslash
  (`ValueLexer.StringIsReadIff`). One that does takes its end tag with it (`ValueLexer.BackslashTakesTheTag`).
* A pool operation does not always end: it does exactly when no resource was lost to its count
  (`ResPoolRun.OperationOncePerResource`); one that is replaced before its turn is
  (`ResPoolRun.ReplacedResourceBlocksOperation`).
* An ordinary request may be given a resource that the pending operation is still to be done on: exactly when
  an operation was accepted after the last test of the loop and the resource is older than it
  (`ResPoolRun.HandedOverStaleIff`; a run from the start is in `ResPoolRun.StaleHandedOver`).
* The tables of `VarQueue` lose an item that was put exactly when a later put makes its key again
  (`VarQueueRun.FirstInFirstOut`). Within one process none does (`VarQueueRun.OneProcessIsSound`). When the
  clock of a new process shows an old text at the same number, the older item is lost
  (`VarQueueRun.RepeatedStamp`), and the record that is left over stops the queue
  (`VarQueueRun.StuckForEver`).
* `VarQueue.get()` does not return the items of a queue whose name begins with white space
  (`VarQueues.KeySurvivesRecord`, `VarQueues.GetsHead`). It may return an item that stays in the tables,
  because its transaction was aborted, or not return one that it has removed from them, because the checkpoint
  that follows the commit raises an exception.
* An intercept queue loses rows, or gives them out twice, exactly when a batch meets an item without column
  names, or a thread reads a held row that another has read, or clears or overwrites one that nobody has read
  (`InterceptSteps.NothingLostNorTwiceIff`). Nothing locks the held row, so two requests at once can do this
  (`InterceptSteps.HeldRowLost`, `InterceptSteps.GivenOutTwice`); one at a time cannot
  (`InterceptSteps.OneAtATimeIsLossless`), and then only items without column names lose rows
  (`InterceptRun.LosslessFifo`, `InterceptRun.NamelessRowsAreLost`).
* An active queue that sends an RPC while the gates block it waits for ever, because that branch fails
  before the callback (`ActiveSync.ReturnsIff`).
* The return status that an active queue reads is that of its call exactly when a response was given to the
  call, or the call has the first final diagnosis of all those that share its frame (`ActiveSync.ReadsOwnIff`).
  A closed destination assigns no status, nor does a call that is aborted for lack of time or of a connection,
  nor the second call of a frame that cannot be connected. A first call to a closed destination is dropped with
  the status of a new frame (`ActiveSync.ClosedFirstIsDropped`); a later one reads the status of an earlier one
  (`ActiveSync.ClosedReadsAnother`).
* So a call that is not done is not always logged: the loop is left with 0, though its last call did not succeed,
  exactly when the call made before that one was a ping that was answered 0 and that one assigns no status
  (`ActiveRun.LeftWithOldZeroIff`). A call
  that cannot connect, a ping that is answered, and the call again, which again cannot connect, are such a run
  (`ActiveRun.NotDoneNorLogged`).
* A client whose call is refused is not always replied to or disconnected, as `gx/gxserver.py:63-67` demands:
  it is exactly when the reply can be sent or the branch disconnects (`CallParser.AnsweredIff`,
  `Custody.AlwaysAnsweredIff`; a run is in `Custody.LeftUnanswered`). The same holds at the end of a forwarded
  call: it is exactly when the status reply does not fail with another diagnosis than a broken connection
  (`RpcSettle.RunThread`).
* Not every live connection has somebody who can go on with it: those of a login or of a registered procedure
  whose reply could not be sent have nobody, and no others (`Custody.AllHeldIff`,
  `Custody.ConnectionForgotten`).
* A client may stay connected with a part of its response missing: exactly when a send passes less than its
  chunk (`RpcSettle.GappedIff`).
* An intercept queue without limit is never ready, though it accepts every row
  (`InterceptQueues.InterceptQueue.IsReady`).
* The index of blocked names is right after all commands exactly when groups share no name
  (`Gates.IndexExactIff`).
* A disconnection does not always remove only its own entry of the descriptor index. From a state that can be
  reached it does, whatever follows without a second thread for a connection, exactly when no thread that is
  about to remove an entry shares its connection with another thread that disconnects it, or finds it closed
  (`FdIndex.OwnRemovalsIff`). A run from the start, in which the entry of another connection is lost, is in
  `FdIndex.EntryOfAnotherLost`.
* A connection at rest is not always in the state of waiting for an event: a worker whose call has failed
  assigns the state of a failed call once more after it has returned the connection, at any later time. It
  does no harm (`Custody.LateStateSafe`).
* `free_param_tree()` leaves the value of the root's own name, if it was ever defined
  (`ParamTrees.ParamTree.FreeParamTree`).

In `gx/gxcallparser.py:328-334` the two refusals of a login have each other's status and message. The model
has the statuses that the code sends.

## Model

| member | source | states |
|---|---|---|
| `XmlEscape.EscapeIsOnePass` | gx/gxxmltpwriter.py:519-530 | the five replace passes, in their order, are the same as one pass that replaces each character by its entity, on every string |
| `XmlEscape.EscapeRoundTrip` | gx/gxrpcmonitors.py:312-327 | undoing the five passes in their order gives every string back |
| `XmlEscape.PrepValueRoundTrip` | gx/gxxmltpwriter.py:533-542 | a string value prepared for XML is given back by unEscapeXML(), whether it was escaped or not |
| `XmlEscape.EscapeSetClean` | gx/gxxmltpwriter.py:519-530 | what is escaped has none of the characters that were escaped, so no mark-up |
| `XmlEscape.AmpersandMustBeUndoneLast` | gx/gxrpcmonitors.py:312-327 | undoing the ampersand first gives another string back for some input |
| `XmlEscape.EntitiesPrefixFree` | gx/xmltp_tags.py:48-52 | no entity begins with another, which the passes rely on |
| `XmltpWriter.SocketBuffer.Send` | gx/gxxmltpwriter.py:192-194 | appends to what is buffered |
| `XmltpWriter.SocketBuffer.Flush` | gx/gxxmltpwriter.py:196-225 | sends the concatenation of all that was buffered: all of it, the beginning that the send takes, or nothing; succeeds exactly when all is taken; and empties the buffer in every case |
| `XmltpWriter.JoinIsPrint` | gx/gxxmltpwriter.py:196-199 | the concatenation of the texts of the chunks is the text of the concatenated chunks |
| `XmltpWriter.SendColNames` | gx/gxxmltpwriter.py:479-516 | adds the column list of the result set |
| `XmltpWriter.SendOneRow` | gx/gxxmltpwriter.py:546-595 | adds the row, each value with its null indicator in the tag of its column's type, and fails exactly when it has more values than there are columns; `RespView.ReadsBack` says what can be read in it |
| `XmltpWriter.SendOneResultSet` | gx/gxxmltpwriter.py:464-477 | adds a whole result set, with the number of its rows, exactly when all rows fit its columns |
| `XmltpWriter.SendParams` | gx/gxxmltpwriter.py:874-921 | adds every parameter in order |
| `XmltpWriter.SendMsgList` | gx/gxxmltpwriter.py:639-670 | adds every message in order, and nothing when there is none |
| `XmltpWriter.SendResultSets` | gx/gxxmltpwriter.py:404-415 | adds every result set in order, and nothing when there is none |
| `XmltpWriter.SendResponseOnSocket` | gx/gxxmltpwriter.py:354-452 | the peer gets the response text, or the beginning of it that the send takes, or nothing when a row does not fit; and success is exactly that it got all; `RespView.ReadsBack` says what can be read in it |
| `RespText.BodyTokensAreBody` | gx/gxxmltpwriter.py:394-427 | nothing printed before the return status contains the end mark or the status tag, for every value, message and escaped text |
| `RespText.FindInResponse` | gx/gxxmltpwriter.py:672-688 | the first status tag and the only end mark of a response are those of its tail |
| `RespText.PrintedReadsAs` | gx/gxxmltpwriter.py:354-452 | so every printed response is a text that the reader can read |
| `RespItems.CutPrint` | gx/gxxmltpwriter.py:196-199 | what is printed, cut at its marks by someone who does not know it, gives the marks and texts that were printed |
| `RespView.ReadsBack` | src/xmltp/xmltp_gram.y:146-390 | every printed response is read back, by a reader of the grammar that knows nothing of the printers, with its columns and types, every value after its entities are undone, the null indicators, the numbers of rows, the parameters with their attributes, the messages and the status |
| `RespView.PrintedAlike` | gx/gxxmltpwriter.py:354-452 | two responses that print alike have the same messages, parameters, status, columns, row counts, values and null indicators, but that a string may print like a value that is not one |
| `ValueLexer.GetValue` | src/xmltp/xmltp_lex.c:313-376 | a value goes as far as the first `<` that does not follow a backslash; what the buffer holds of it, up to a zero, is its text |
| `ValueLexer.StringIsReadIff` | src/xmltp/xmltp_lex.c:313-376 | the text printed for a string is taken for it if and only if it is shorter than the buffer, and the string has no zero and does not end in a backslash; then undoing the entities gives the string |
| `ValueLexer.BackslashTakesTheTag` | src/xmltp/xmltp_lex.c:331-336 | a text that ends in a backslash is read with the next mark, as far as the one after it |
| `RespReader.PrevBuffIsSuffix` | gx/gxrpcmonitors.py:1233-1245 | the kept buffer is always a suffix of the bytes received, of at least 70 bytes or of all of them |
| `RespReader.EotDetected` | gx/gxrpcmonitors.py:1206-1208 | searching the kept tail with the new chunk finds the end mark exactly when the bytes received contain it |
| `RespReader.StatusOfSuffix` | gx/gxrpcmonitors.py:1354-1393 | a window that begins before the status tag gives the status of the whole text |
| `RespReader.StreamRefinesWhole` | gx/gxrpcmonitors.py:1141-1245 | for any chunks, end detection and status are those of the whole bytes, when the window reaches back to the status tag |
| `RespReader.StopsExactlyAtEnd` | gx/gxrpcmonitors.py:1141-1208 | for every chunking of a text that ends with its first end mark the loop stops on the last chunk and on no earlier one |
| `RespReader.TailLength` | gx/xmltp_tags.py:56-79 | the fixed text around the status is 57 characters |
| `RespReader.EndToEnd` | gx/gxrpcmonitors.py:1115-1393 | for every response the reader stops on the last chunk of what is printed, however it is cut, and always has the status that was printed if and only if that has at most 14 characters |
| `RespReader.StatusExact` | gx/gxrpcmonitors.py:1233-1245 | every chunking of a text that ends with a status tail gives the status if and only if it has at most 14 characters |
| `RespReader.ReadBack` | gx/gxrpcmonitors.py:1323-1393 | a text whose tail is at most 71 bytes, read in any chunks, gives the status of the tail on the last chunk and on no earlier one |
| `RespReader.StatusOfTail` | gx/gxrpcmonitors.py:1354-1393 | a window that holds the whole tail gives its status |
| `RespReader.StatusCutOff` | gx/gxrpcmonitors.py:1354-1393 | a shorter window than the tail shows no status at all, never a wrong one |
| `RespReader.LastByteAlone` | gx/gxrpcmonitors.py:1233-1245 | some chunking leaves a window of 71 bytes for the last search |
| `RpcRelay.RecvTurn` | gx/gxrpcmonitors.py:1142-1201 | what one turn of the loop does with a chunk, a timeout, a failure, the end of the stream and the time limit: in each case the result, what is left to be received, and whether the connection is ready and dirty; at the end of the stream the connection is made again exactly when it may and can be |
| `RpcRelay.RelayChunk` | gx/gxrpcmonitors.py:1213-1231 | of the first chunks what the sends passed is on the wire, in order, a short send leaving the rest of its chunk out; and nothing more is sent after the first failed send |
| `RpcRelay.RecvResp` | gx/gxrpcmonitors.py:1115-1255 | the loop takes the data of the events it used up, in order, as far as the end mark unless it ended badly; relays what the sends pass of the first chunks; finds the end mark if and only if no error of the destination was noted; and asks for a retry if and only if this is the first attempt, the first answer but for receive timeouts is the end of the stream, and the connection can be made again |
| `RpcRelay.ReadsExactly` | gx/gxrpcmonitors.py:1141-1245 | an attempt that meets the chunks of one response, with any receive timeouts between them, takes these and no more |
| `RpcSettle.SendMessageAndReturnStatusToClient` | gx/gxrpcmonitors.py:839-877 | a frame that was replied to is never replied to again; a reply of which a part or nothing is passed disconnects the client exactly when it is diagnosed as a broken connection |
| `RpcSettle.SettleResponse` | gx/gxrpcmonitors.py:1653-1733 | the five cases: all of the response, with what is missing of it, or one status reply after no relayed byte, or a disconnection; when the reply is lost; and which status the frame keeps |
| `RpcSettle.ReceiveResponse` | gx/gxrpcmonitors.py:1588-1733 | which of the outcomes the client is left with, with which status, for every answer of the destination and every end of the sends; a retry is asked for exactly when the destination closed first and was connected to again, and then nothing was sent; and what becomes of the connection |
| `RpcSettle.SendRpcCallAndReceiveResponse` | gx/gxrpcmonitors.py:1034-1112 | at most two attempts, which of them are made in each course of the call, as many sendings as it has, and what is left in each: all bytes relayed are of the answers to the last sending, from the socket that it left in use; and the status of the frame |
| `RpcSettle.TwiceIff` | gx/gxrpcmonitors.py:1034-1112 | a call is never sent if and only if it waited too long or its sending fails, and is sent twice if and only if the destination closed before any answer, was connected to again, there is time, and both sendings pass |
| `RpcSettle.RecoverRpcExecError` | gx/gxrpcmonitors.py:744-836 | a call that raised an exception gets one reply, if that can be sent, and its connection goes back to the poll list unless it is disconnected |
| `RpcSettle.RunThread` | gx/gxrpcmonitors.py:1519-1585 | in every case one of the outcomes, the one with nothing at all exactly when the reply is lost; what each course of the call leaves, and how often it was sent; one return to the poll list unless disconnected; one release of the destination, which is in order exactly when a whole response was read from it and passed on, and its status is none of a failure that spoils it |
| `RpcSettle.ToldWhy` | gx/gxrpcmonitors.py:1653-1733 | the status that a client is told in each course of its call, from the clock, the sends and the answers; nothing was relayed to it then; and the status that the frame keeps |
| `RpcSettle.ForwardResponse` | gx/gxrpcmonitors.py:1519-1585 | end to end: a response printed by the writer, received in any chunks with any timeouts between them, after the first sending or after the one that follows a reset, is relayed byte for byte, with its status, and nothing else |
| `RpcSettle.NothingLeftOn` | gx/gxrpcmonitors.py:1519-1585 | after a call whose response was whole, what was read from the connection is that response as far as its end mark, and no more |
| `RpcSettle.ClientReads` | gx/gxrpcmonitors.py:1213-1231 | the client reads in the relayed bytes what the destination printed |
| `RpcSettle.GappedIff` | gx/gxrpcmonitors.py:1667-1669 | a client that stays connected after a whole response lacks something of it if and only if a send passed less than its chunk |
| `CallSender.SendProcCallWithRetry` | gx/gxxmltpwriter.py:737-805 | the socket in use at the end gets the whole call once and alone, or less than the whole; a socket that was given up got less than the whole; and exactly when the call is sent, when the connection is reset, and when it fails because it cannot be |
| `ResPool.GxResPool.PutResInQueueExt` | gx/gxrespool.py:741-763 | does the operation on a resource older than it, stamps it, counts it, ends the operation at maxRes, and queues the resource if there is room; the other stamps stay |
| `ResPool.GxResPool.ReleaseResource` | gx/gxrespool.py:800-828 | puts a sane resource back, replaces another |
| `ResPool.GxResPool.AssignOperation` | gx/gxrespool.py:691-710 | refused, with nothing changed, exactly when one is not completed and it is not forced; otherwise it is pending from now on, with none done |
| `ResPool.GxResPool.AddPrivRequest` | gx/gxrespool.py:846-866 | refused exactly when 100 are pending; afterwards the monitor has something to wake it |
| `ResPool.GxResPool.OperateUntilGood` | gx/gxrespool.py:248-265 | terminates, on the number of stale resources; keeps every resource; leaves with one that needs no operation |
| `ResPool.GxResPool.ProcessOneRequest` | gx/gxrespool.py:212-275 | a privileged request goes first with the first resource; any other gets a resource that needs no operation |
| `ResPoolRun.StepConserves` | gx/gxrespool.py:212-340 | every step of the monitor, a worker or a caller keeps each resource in exactly one place |
| `ResPoolRun.NothingLostOrDuplicated` | gx/gxrespool.py:741-828 | in every run of any interleaving resources are in one place, are as many as created, and the put of a held one finds room |
| `ResPoolRun.ServedInOrder` | gx/gxrespool.py:212-340 | in every run each request of a kind that was accepted is handed over with a resource once, in the order of its kind, or is still waiting |
| `ResPoolRun.NoLostWakeUp` | gx/gxrespool.py:229-240 | a monitor that waits for a request while a privileged one is pending can step, or is about to be kicked |
| `ResPoolRun.BypassedOnce` | gx/gxrespool.py:229-240 | while a privileged request is pending at most one other request is taken |
| `ResPoolRun.OperationOncePerResource` | gx/gxrespool.py:741-763 | the operation is done at most once on a resource, ctrResDone counts them, and it is over exactly when none is stale and none was lost to the count |
| `ResPoolRun.LoopLeavesWithGoodResource` | gx/gxrespool.py:248-265 | the loop ends with a resource that no operation is still to be done on; a try after an operation always finds a resource, so the five tries never run out |
| `ResPoolRun.HandedOverStaleIff` | gx/gxrespool.py:248-275 | what is handed over to a normal request is still to be operated on if and only if an operation was accepted since the loop's last test and the resource is older than the last one accepted |
| `ResPoolRun.StaleHandedOver` | gx/gxrespool.py:691-710 | a run from the start after which a worker has such a resource |
| `ResPoolRun.UndisturbedOperation` | gx/gxrespool.py:691-763 | when all maxRes resources are older and none is replaced, the operation is over exactly when it was done on each |
| `ResPoolRun.LostMeansNeverOver` | gx/gxrespool.py:691-763 | a resource lost to the count keeps the operation pending for ever, unless another is forced |
| `ResPoolRun.ReplacedResourceBlocksOperation` | gx/gxrespool.py:787-828 | replacing one stale resource is enough for that |
| `VarQueues.RefKeyInjective` | gx/bdbVarQueue.py:306 | two keys of one queue are equal only when time text and sequence number are |
| `VarQueues.KeySurvivesRecord` | gx/bdbVarQueue.py:370-376 | strip() of the padded record gives the key back exactly when the queue name begins with no white space |
| `VarQueues.VarQueue.Put` | gx/bdbVarQueue.py:282-338 | committed puts append a record and store or overwrite the item, others only use up a number; 0 is returned in both cases; which faults commit |
| `VarQueues.PutDoes` | gx/bdbVarQueue.py:282-338 | with no fault, or only that of the checkpoint, the record is the last one and the item is under its key; with any other fault, or a key that is too long, both tables stay as they were; and when a number is used up |
| `VarQueues.VarQueue.Get` | gx/bdbVarQueue.py:340-402 | committed gets remove the head and its item; what is returned in each fault, and when the item of the head is missing |
| `VarQueues.GetsHead` | gx/bdbVarQueue.py:366-402 | from tables that agree, exactly which gets return the first stored item and which remove it |
| `VarQueues.VarQueue.Reopen` | gx/bdbVarQueue.py:171-185 | a new process finds the same tables, and numbers its items from 1 again |
| `VarQueues.KeysDistinct` | gx/bdbVarQueue.py:305-338 | the FIFO records are distinct |
| `VarQueueRun.FirstInFirstOut` | gx/bdbVarQueue.py:282-402 | over every run of puts, gets, faults and new processes: the tables agree, and the items of committed puts are those that committed gets removed followed by those stored, in order, if and only if no committed put met its key; and each that did lost one item |
| `VarQueueRun.RepeatIsInherited` | gx/bdbVarQueue.py:305-306 | in every run a key is met only when an earlier process left it, with the same clock text and number |
| `VarQueueRun.OneProcessIsSound` | gx/bdbVarQueue.py:277-306 | so one process keeps every item, in order, whatever its clock shows |
| `VarQueueRun.RepeatedStamp` | gx/bdbVarQueue.py:305-338 | a run over two processes in which the first item is lost and a record without item is left |
| `VarQueueRun.StuckForEver` | gx/bdbVarQueue.py:366-402 | after a record without item has come to the head nothing is ever removed or returned, until its clock text comes again |
| `InterceptQueues.InterceptQueue.GetQueueQsize` | gx/gxintercept.py:1984-1989 | counts the held row too |
| `InterceptQueues.InterceptQueue.QueueGetNowait` | gx/gxintercept.py:1991-1997 | gives the held row first, then the head of the queue |
| `InterceptQueues.InterceptQueue.IsReady` | gx/gxintercept.py:2400-2436 | says yes if and only if the queue is open for put(), its inner queue is open, and there is room for two rows, the held one being counted; then two rows put now are accepted |
| `InterceptQueues.InterceptQueue.QueueOneRow` | gx/gxintercept.py:2528-2557 | accepted rows go last; refused exactly when the inner queue is closed or full, whatever the flag for put() says |
| `InterceptQueues.InterceptQueue.GetRowsAndColNamesList` | gx/gxintercept.py:2326-2397 | the batch is the longest run of rows of the first one's width that there is room for, in every case with what is held and left |
| `InterceptQueues.Answers` | gx/gxintercept.py:2326-2557 | which rows are accepted, and which answer a batch request gets |
| `InterceptQueues.SizeIs` | gx/gxintercept.py:2351-2375 | a batch that has one width, fits, and could not be longer, has that size |
| `InterceptRun.GetKeepsRows` | gx/gxintercept.py:2326-2397 | a batch request gives out the rows at the head and leaves the others in order, or, when it meets an item without column names, loses some |
| `InterceptRun.GetGoodBatch` | gx/gxintercept.py:2351-2375 | every batch has one width, and one row or at most maxRowsInGet |
| `InterceptRun.BatchIsMaximal` | gx/gxintercept.py:2351-2375 | a batch has the column names of its first row and could not be longer: a held row is alone; or the limit is reached; or nothing more can be reached but a row of another width or without column names |
| `InterceptRun.NeverOverfull` | gx/gxintercept.py:2528-2557 | over every run the inner queue never has more items than its limit |
| `InterceptRun.NamedRowsAreSafe` | gx/gxintercept.py:2528-2557 | in every run, one request at a time, in which rows are put with their column names, none is lost |
| `InterceptQueues.InterceptQueue.DumpItems` | gx/gxintercept.py:2136-2149 | writes everything that can be reached, in order |
| `InterceptRun.LosslessFifo` | gx/gxintercept.py:2326-2397 | over every run of puts, batches, dumps and commands, one request at a time, the rows delivered followed by those pending are the accepted rows, in order, if and only if no batch request met an item without column names; and every batch is a good one |
| `InterceptSteps.NothingLostNorTwiceIff` | gx/gxintercept.py:1991-1997 | with any number of threads, in every interleaving of the looks, reads, clearings and assignments of the held row, each accepted row is at all times in one place if and only if every step is clean |
| `InterceptSteps.HeldRowLost` | gx/gxintercept.py:2363-2369 | a run of two threads from the start that loses a row with column names |
| `InterceptSteps.GivenOutTwice` | gx/gxintercept.py:1991-1995 | a run of two threads from the start that gives a row out twice |
| `InterceptSteps.OneAtATimeIsLossless` | gx/gxintercept.py:2326-2397 | with requests served one at a time, and rows put between any of their steps, every step is clean and nothing is lost or out of order, but by items without column names |
| `InterceptSteps.NamedOneAtATime` | gx/gxintercept.py:2528-2557 | then rows that have column names are never lost |
| `InterceptAlone.AloneIsGetRows` | gx/gxintercept.py:2326-2397 | a thread that serves its request alone does, step by step, what the request does as a whole |
| `InterceptRun.NamelessRowsAreLost` | gx/gxintercept.py:2351-2383 | a run in which a row without column names is lost, and with it the whole batch when that has no columns |
| `ActiveQueues.Verdicts` | gx/gxintercept.py:799-867 | for every status, which of the five things is done about it |
| `ActiveQueues.ActiveQueueMonitor.PingUntilAvailable` | gx/gxintercept.py:832-851 | pings go on exactly while the destination is not available and no stop is seen |
| `ActiveQueues.ActiveQueueMonitor.DoProcCallWithRetry` | gx/gxintercept.py:766-876 | for every sequence of replies: the loop goes on only on retryable, suspending or unavailable statuses, leaves only on success, a logged drop or the final stop; and how many calls, pings and suspensions there were |
| `ActiveQueues.ActiveQueueMonitor.GetOneRpcAndSendIt` | gx/gxintercept.py:677-763 | where the replies lead; a call that is left with another status than 0 is always logged, one left with 0 only when the queue is stopped |
| `ServiceRpc.ProcessResponse` | gx/gxrpcmonitors.py:1870-1990 | assigns the status of every response, valid or not, but of one that allows a retry; which status is in `ServiceRpc.EndedByParsed` and `ServiceRpc.EndedOtherwise` |
| `ServiceRpc.EndedByParsed` | gx/gxrpcmonitors.py:2035-2102 | a complete response has its own status assigned; one that was cut off, after some of its data one that drops the call, or else that of a lost connection or of a timeout; a disconnection alone none |
| `ServiceRpc.EndedOtherwise` | gx/gxrpcmonitors.py:1757-1990 | what every run without a parsed response does to the frame |
| `ServiceRpc.DoneIff` | gx/gxrpcmonitors.py:1870-1990 | a call is taken for done if and only if its destination sent a complete response with the status 0 |
| `ServiceRpc.RpcFrame.AssignReturnStatusAndFinalDiagnosis` | gx/gxrpcframe.py:735-744 | only the first final diagnosis of a frame assigns its status |
| `ServiceRpc.SendRpcCallAndReceiveResponse` | gx/gxrpcmonitors.py:1757-1867 | at most two turns; the status and the diagnosis that the frame has afterwards, with the endings that assign none |
| `ServiceRpc.RunThread` | gx/gxrpcmonitors.py:2442-2517 | the status and the diagnosis in the frame when the callback is made: that of a complete response, and 0 only from one or from before |
| `ActiveSync.Handshake` | gx/gxintercept.py:916-943 | in every interleaving the queue thread goes on only after the callback of its own call, the lock is free between calls, and the status read is that of the call if and only if its ending assigned one |
| `ActiveSync.ReadsLastAssigned` | gx/gxintercept.py:766-797 | over any calls with one frame, what is read last is what the last call that assigned a status assigned, or the status of a new frame |
| `ActiveSync.ReadsOwnIff` | gx/gxrpcframe.py:720-744 | the last of any calls with a new frame reads its own status if and only if it got a response or has the first final diagnosis of them |
| `ActiveSync.MadeIff` | gx/gxrpcmonitors.py:373-482 | only a call that the connection, the gates, the destination and its pool let through is made and touches the frame; when the callback comes at once |
| `ActiveSync.CompleteIsRead` | gx/gxintercept.py:766-797 | the status of a complete response reaches the queue thread, after any calls with the frame |
| `ActiveSync.ClosedFirstIsDropped` | gx/gxrpcmonitors.py:447-463 | a first call that finds its destination closed is dropped |
| `ActiveSync.ClosedReadsAnother` | gx/gxrpcmonitors.py:447-463 | one that follows a call that timed out reads that call's status |
| `ActiveSync.NoCallbackNoReturn` | gx/gxintercept.py:2224-2236 | without a callback it never goes on |
| `ActiveSync.ReturnsIff` | gx/gxrpcmonitors.py:373-482 | exactly which branches of queueing a call let the queue thread come back |
| `ActiveRun.SameFrame` | gx/gxintercept.py:766-852 | the frame of the loop is that of the handshake after the calls that were made |
| `ActiveRun.LeftWithOldZeroIff` | gx/gxintercept.py:790-852 | the loop is left with 0 though the call does not succeed if and only if the last call made before it was a ping that was answered 0, and this one assigns no status |
| `ActiveRun.CompleteDecides` | gx/gxintercept.py:766-876 | after any calls and pings a complete response decides what becomes of the item: done with 0, made again after a deadlock, dropped with a positive status |
| `ActiveRun.PartialIsNeverMadeAgain` | gx/gxintercept.py:766-876 | a call of which some of the response came ends its item at once, after any calls and pings |
| `ActiveRun.NotDoneNorLogged` | gx/gxintercept.py:832-852 | three replies, for a new item, after which the loop is left with 0 and the call was never made |
| `ActiveRun.OneItem` | gx/gxintercept.py:677-763 | the thread of the queue ends an item where its calls and pings lead, and logs it exactly so |
| `ClientConns.ClientConn.DoAssignState` | gx/gxclientconn.py:457-482 | raises, with nothing changed, exactly in the four forbidden transitions |
| `ClientConns.ClientConn.AssignRpcFrame` | gx/gxclientconn.py:501-534 | raises exactly when disconnecting, not begun or failed to log in; otherwise the frame and the state of its beginning or end |
| `ClientConns.ClientConn.DoAssignUserid` | gx/gxclientconn.py:537-550 | a login, or the lasting mark of a failed one |
| `ClientConns.ClientConn.RpcEndedReturnConnToPollList` | gx/gxclientconn.py:553-568 | ends the call and gives the connection back, unless disconnecting |
| `ClientConns.ClientConn.ProcessDisconnect` | gx/gxclientconn.py:571-622 | is done once |
| `ClientConns.Transitions` | gx/gxclientconn.py:457-568 | exactly which states and frames are refused, and where the others lead |
| `ClientConns.RunsSound` | gx/gxclientconn.py:457-550 | over every run no RPC is in progress without a userid, and the time of the last activity can be read |
| `ClientConns.LoginIsLast` | gx/gxclientconn.py:537-622 | over every run of calls only processDisconnect() disconnects, and the userid, the permission and the mark of a failed login are those of the last login before it |
| `ClientConns.OnlyLoginBeforeLogin` | gx/gxclientconn.py:473-475 | a registered procedure without a userid was entered as the login call right after the parsing of the first call |
| `ClientConns.FailedLoginGetsNoFrame` | gx/gxclientconn.py:501-512 | after a failed login no frame is ever assigned, whatever is called |
| `ClientConns.DisconnectingIsFinal` | gx/gxclientconn.py:571-587 | a disconnecting connection never changes again |
| `ClientConns.NoRpcWithoutLogin` | gx/gxclientconn.py:537-550 | until a userid is assigned no RPC starts and there is no permission |
| `FdIndex.StepSafe` | gx/gxclientconn.py:571-645 | every step of creating or disconnecting a connection keeps the index exact |
| `FdIndex.IndexIsExact` | gx/gxclientconn.py:571-645 | in every interleaving with one disconnecting thread a connection, live connections are found under their own descriptors and a disconnection removes only its own entry |
| `FdIndex.OwnRemovalsIff` | gx/gxclientconn.py:571-645 | from every state that can be reached, every continuation without a second thread for a connection removes only its own entries if and only if no thread is exposed |
| `FdIndex.TwoOwners` | gx/gxclientconn.py:582-587 | two threads can both pass the test of the state |
| `FdIndex.StrangerRemoved` | gx/gxclientconn.py:605-622 | and then the entry of another connection can be removed |
| `FdIndex.EntryOfAnotherLost` | gx/gxclientconn.py:571-645 | a run from the start in which it is |
| `CallParser.ContinueProcCallProcessing` | gx/gxcallparser.py:221-499 | each branch ends in exactly one of return, disconnection or queueing, with the reply if it can be sent, the state of the connection and the count of calls; which branch is in `CallParser.DisconnectedIff` and `CallParser.QueuedIff` |
| `CallParser.RouteCall` | gx/gxcallparser.py:324-482 | a call is queued exactly when nothing is wrong with it; the client is told of the first thing that is; and the connection is returned, disconnected or queued as `CallParser.DisconnectedIff` and `CallParser.QueuedIff` say |
| `CallParser.DisconnectedIff` | gx/gxcallparser.py:299-482 | from the fields of the call: the client is disconnected exactly when it has gone, calls before its login, or makes a login, not as administrator, that is shut out, stopped by a gate, or without an open pool of its own; no other refused call ends the connection |
| `CallParser.QueuedIff` | gx/gxcallparser.py:299-482 | from the fields of the call: it goes on exactly when it may be made, its login is not shut out, no gate and no interceptor stops it, and the pool that is its own is open |
| `CallParser.ToldFirst` | gx/gxcallparser.py:324-482 | the status that is told for each fault, in the order in which they are looked at |
| `CallParser.NotTold` | gx/gxcallparser.py:297-318 | a client that calls anything but its login before it is known is told nothing and disconnected |
| `CallParser.AnsweredIff` | gx/gxcallparser.py:240-482 | a call that does not go on is replied to, or its client is disconnected, if and only if the reply can be sent or the branch disconnects |
| `CallParser.SettledWhere` | gx/gxcallparser.py:221-499 | the state, the frame and the login of the connection in each of the three endings |
| `CallParser.AddClientRequest` | gx/gxserver.py:1826-1942 | a new client, a logged-in one and one that is not: which gets a frame, and that the frame is never denied |
| `Custody.StepSafe` | gx/gxserver.py:1826-1969 | every step keeps custody, the states that the holders expect, and the count of calls |
| `Custody.LateStateSafe` | gx/gxrpcmonitors.py:825-836 | the state that a worker assigns after it has returned a connection changes nothing that its new holder relies on |
| `Custody.OneHolder` | gx/gxcallparser.py:221-499 | in every run a connection has one holder until it is disconnected or forgotten, one frame at most, and every call that began has ended once, or was forgotten, or is on its way |
| `Custody.NeverStranded` | gx/gxserver.py:63-67 | in every run the holder of a connection can go on with it |
| `Custody.AllHeldIff` | gx/gxrpcmonitors.py:1466-1474 | in every run every live connection has a holder if and only if no reply of a login or registered procedure failed |
| `Custody.ConnectionForgotten` | gx/gxrpcmonitors.py:2315-2324 | a run from the start that leaves a connection open with nobody to go on with it |
| `Custody.OnlyLetThroughRuns` | gx/gxcallparser.py:299-482 | in every run, a call that is queued for a destination or runs was let through by every gate, and is the login when its client has no userid yet |
| `Custody.AlwaysAnsweredIff` | gx/gxserver.py:63-67 | in every run, each call that has ended is replied to or its client disconnected, if and only if every reply that no disconnection follows could be sent and every thread be started |
| `Custody.LeftUnanswered` | gx/gxcallparser.py:254-267 | a run that leaves a client connected without a reply |
| `CustodyDrops.DisconnectedForACause` | gx/gxcallparser.py:221-499 | in every run a connection is disconnected if and only if its client hung up, broke the protocol or was found gone, its login was refused, or a worker could not go on with it |
| `CustodyDrops.LoggedInAs` | gx/gxclientconn.py:537-550 | in every run a client has the userid and the permission that its last login gave it, and none before |
| `Gates.Server.AssignRPCsGroupGateState` | gx/gxserver.py:767-833 | the closed gates and the index after a command, and its result |
| `Gates.NamesAreLower` | gx/gxserver.py:803-831 | the names of a group count whatever their case |
| `Gates.CommandDoes` | gx/gxserver.py:767-833 | the result of a command, and which gates and entries it changes; all others stay |
| `Gates.Server.Unblock` | gx/gxserver.py:803-811 | all names of the group leave the index, and the "Strange" message comes exactly when one was not there |
| `Gates.Server.IsThisRPCallowed` | gx/gxserver.py:720-764 | after any commands, each of the four answers exactly when its test is the first that applies; a gate that is named is closed and contains the name; with disjoint groups a name is allowed exactly when both other tests pass and no closed group contains it or its starred prefix |
| `Gates.AlwaysJustified` | gx/gxserver.py:767-833 | after any commands every blocked name is under a closed group that contains it |
| `Gates.AlwaysComplete` | gx/gxserver.py:767-833 | with disjoint groups every name of a closed group is blocked under it, and no command is "Strange" |
| `Gates.IndexExactIff` | gx/gxserver.py:767-833 | the index is complete after all commands if and only if no two groups share a name |
| `Gates.OverlapBreaks` | gx/gxserver.py:803-831 | three commands on two groups that share a name unblock it while one of them is closed |
| `Gates.BlockedIff` | gx/gxserver.py:739-764 | after any commands on disjoint groups, a name has an entry exactly when a closed group contains it or its five-character prefix with a star |
| `ParamTrees.SearchIsRight` | src/cfg_read/ucfg.c:220-239 | in an ordered tree the search finds the node of the name, or there is none |
| `ParamTrees.LinkGrows` | src/cfg_read/ucfg.c:346-366 | linking the new node where the search ended makes the grown tree |
| `ParamTrees.GrownOrdered` | src/cfg_read/ucfg.c:322-369 | the grown tree is ordered |
| `ParamTrees.NamesAreCounted` | src/cfg_read/ucfg.c:360 | the number of nodes is the number of distinct names, without the root |
| `ParamTrees.ParamTree.Lookup` | src/cfg_read/ucfg.c:220-239 | returns what the refined map has for the first 80 characters of the name |
| `ParamTrees.ParamTree.NbParams` | src/cfg_read/ucfg.c:1183 | the counter is the number of distinct names defined |
| `ParamTrees.ParamTree.InsertParamDef` | src/cfg_read/ucfg.c:322-369 | the first definition stays when duplicates are rejected, the last one when they are allowed |
| `ParamTrees.ParamTree.AssignParamValToNode` | src/cfg_read/ucfg.c:296-317 | a value is refused exactly when there is one and duplicates are rejected |
| `ParamTrees.ParamTree.FreeParamTree` | src/cfg_read/ucfg.c:374-391 | every node but the root is given back once, and nothing is left, but a value under the name of the root |
| `ParamTrees.FreeNodes` | src/cfg_read/ucfg.c:374-385 | below the root, each node is given back after those under it |

## Left out

- RespText.BodyTokensAreBody: column and parameter names, and the `repr()` of values that are not strings, are required to have no `<`, because the source prints them unescaped.
- RpcSettle.RunThread: that a thread cannot be started is in `Custody` (`NotStarted`).
- ResPoolRun.StepConserves: the shutdown flags and the dummy resource that stops a pool are not modelled; they drop requests on purpose.
- ResPool.GxResPool.AssignOperation: its three assignments are one step; the source does not protect them by a lock.
- ActiveSync.Handshake: every queued call is taken to get its callback; `ReturnsIff` says which branches do.
- ServiceRpc.RunThread: the assignment of a status and the callback are one step of the handshake.
- Custody.OneHolder: no unexpected exception is raised between two steps (the one at `gx/gxcallparser.py:495-497` is only logged), and the containers hold connections instead of descriptors, as `FdIndex.IndexIsExact` allows.
- VarQueues.VarQueue.Put: the database is two tables that a commit changes together.
- VarQueues.VarQueue.Get: a transaction that is neither committed nor aborted keeps its locks in the database; the waiting of later calls for them is not modelled.
- FdIndex.OwnRemovalsIff: the closing of a socket is one step, with the assignment that follows it.
- Gates.Server.AssignRPCsGroupGateState: commands are taken one at a time; the source locks neither the gates nor the index.
- ClientConns.ClientConn.ProcessDisconnect: the index and the closing of the socket are in `fd_index.dfy`.
- ParamTrees.ParamTree.InsertParamDef: memory is never exhausted; a list of values is its address.
- ParamTrees.ParamTree.FreeParamTree: the memory of the names and of the lists of values is not modelled.
- RespView.ReadsBack: the reader ends a text at any `<` and has no limits; `ValueLexer.StringIsReadIff` says when the parser in C takes a text for the same. Its grammar also demands at least one column and value where there is a list of them, which the writer does not.
- Sockets, `gx_poll`, the rest of the XMLTP parser in C, UDP notification and Berkeley DB: foreign code, seen as streams of chunks, one-shot readiness and transactions.
- Logs, traces, statistics of queues, timestamps for display and status rows: they change nothing that is proved.
- The time-outs of `acquireThreadLock` and `acquireClientsListAndDictLock`: their callers go on without the lock; the protected sections are single steps here.
- `DestConn.loginToServer`: its recursion is not bounded by its counter, which inner calls reset.
- `gxbdbqueue`, `gxqueue.put` and the statistics of `gxqueue`: polling, retrying and counting around the queues that are modelled.
- The table of events and the parameter getters of `gxrpcframe`: only its return status, its final diagnosis and its reply-once flag matter to what is proved.
- Interception of responses (`processRows`), the registered procedures, the command interpreters and the Sybase client: formatting and dispatch, which would add only easy members.
