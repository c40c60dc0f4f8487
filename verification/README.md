# The shop server and its client, verified

A computer shop runs a MySQL database behind a C++ server; Qt clients talk to the server in small Lua
scripts over TCP. This project models that system in Dafny and proves what it keeps and what it loses:
the database as a state machine, the text that carries tables, the framing of that text in a byte
stream, the connection protocol and start-up barrier, and the client's cached user list.

| file | what it holds |
|---|---|
| Prelude.dfy | filters, sums, keys and nested-loop joins over tables of rows |
| Schema.dfy | rows, key and foreign-key invariants, stored procedures and handlers as functions between table states |
| Integrity.dfy | every request keeps the invariants; add_order is all-or-nothing |
| Procedures.dfy | every request column by column: success, reply, and the rows afterwards |
| PcDb.dfy | the procedures and transactions as methods of a class that reassigns its tables, proved against Schema |
| StockLedger.dfy | runs, the stock ledger, one charge per order, exactness of charges |
| Reports.dfy, Lateness.dfy | the report queries and how they agree; expired orders under a running clock |
| ReportColumns.dfy | each report as a sum over the lines and a condition on columns |
| LuaSyntax.dfy, LuaPrinter.dfy, LuaRoundTrip.dfy, LuaMeaning.dfy | lexer and parser of the literal subset, the recursive printer, and their inverse laws |
| LuaExact.dfy | the text as a C string, and exactly which values come back from it |
| LuaRaw.dfy | text pasted between quotes without escaping, and what the lexer makes of it |
| Framing.dfy | the client's incremental delimiter search |
| QueryReply.dfy | query result to client table, end to end, from the texts MySQL sends |
| Literals.dfy | printed texts and escapes in full, character by character |
| ClientRequests.dfy | the request builders and what the server reads from them |
| RequestStream.dfy | several requests on one connection, and which of them the server accepts |
| ConnectionProtocol.dfy | one connection under any interleaving of workers |
| Serving.dfy | what a connection can do: serve any requests, cut off a silent client |
| StaleTimers.dfy | which reachable states let a timer hurt a round it should not, and runs that get there |
| SingleWorker.dfy, OneWorker.dfy | the connection on a single worker, and each of its runs as a run of the protocol |
| WorkerSchedule.dfy | the protocol scheduled as one worker schedules it, and each such run as a run of the single worker |
| StartBarrier.dfy | Server::Start and its spinning workers |
| UsersCache.dfy | UsersModel, the server's user join, and a refresh |
| UserRequests.dfy | login, user and customer requests on the server, from the text received to the tables |
| AdminRuns.dfy | runs of refreshes, creations and deletions, each from its text to its reply |
| Seed.dfy | the database the installation script leaves behind |
| Witnesses.dfy | inputs at which the properties that fail do fail |
| InstalledRuns.dfy | requests and reports on the installed database, with their outcomes in figures |

## How to read the model

- A table is a sequence of rows, so unique keys are an invariant that every operation is shown to keep,
  and a join is the nested loop that defines it. `Consistent` collects primary keys, foreign keys, column
  domains, AUTO_INCREMENT counters above all used ids, and "every order has a line".
- Time is a Unix timestamp in seconds and a DATE a day number (time zone UTC). Costs are exact reals.
- MySQL runs in strict mode, where a value outside a column's range fails the statement, and without
  ONLY_FULL_GROUP_BY, under which CompleteOrder's query would be refused. The unsigned stock column makes
  the trigger's test `< 0` and the range check the same failure; it is called `NotEnoughItems`.
- `GROUP BY Item.distributor_id` with a bare `Item.id` may pick any row of a group. `pick` is that choice;
  results hold for every valid one.
- A rollback restores rows and leaves AUTO_INCREMENT counters advanced, as InnoDB does.
- `add_order` narrows the 64-bit numbers of the request to `int` and `uint32_t`; the narrowing is in the model.
- A Lua table is the list of pairs iteration visits, in iteration order, and its positions 1..#. The `#`
  operator of the reader is any function that returns a border.
- `QByteArray::indexOf` counts a negative start from the end of the array.
- A worker may be interrupted between any two accesses to the flag, the timer, the socket or a buffer.

## What turned out not to hold

- A charge is exact per distributor, not per item. `ExactForEveryPick` gives the exact condition;
  `ChargeOnOneItem` reaches a failing order from the installed database by two requests.
- The client's search start goes negative when the bytes received so far number the delimiter's length or one
  less. `WrittenStartExactly` gives the exact condition on any run, `WrittenStartLosesMessage` a run that
  loses a message; for replies it means that exactly those are lost that two bytes preceded (`ReplyOutcome`).
- With several workers a timer can hurt a round that is in time, in three ways, each with its exact condition over
  reachable states: abort the next round's read (`StaleTimerExactly`), set the flag under it so that a successful
  read is taken for a timeout (`LateFlagExactly`), and abort a write, its own round's included
  (`AbortedWriteExactly`). `StaleTimerCancelsNextRead` and `OwnTimerAbortsWrite` are reachable cases. On one worker
  none of this happens: `TimerCutsOwnRound`, carried over to the protocol by `EveryRunIsARun`, `EveryWorkedRunIsServed`
  and `WorkedTimerCutsOwnRead`.
- A printed string with a line break or a NUL makes the whole text unreadable, the NUL because the text is handed
  over as a C string: `ReadRenderExactly`, `StringsUnreadable`. A key that is no identifier does not come back.
- A printed table with a hole, or the least 64-bit integer, need not read back: `ReadsNormalExactly`,
  `HoleSplitsList`, `LeastIntegerIsFloat`. `PrintedReadsNormal` is the exact condition for text and value together,
  and `EndToEnd` for query results.
- Requested order lines are stored as requested only if they fit the narrower C++ types: `LinesAsRequested`,
  `NarrowedLine`.
- A telephone above the signed 64-bit range does not arrive as an integer: `CreateCustomerArrives`,
  `TelephoneTooLarge`.
- The request builders paste fields between quotes as they are. Without a single quote, line break or NUL, a field
  arrives as what Lua's escapes make of it, and one field whose escapes are no string of its own makes the whole
  request unreadable: `RequestReadsBack`, `Unreadable`.
- So a creation or deletion leaves the client's list different from the server's exactly when the server carries it
  out and it is not `Harmless`: a backslash in what is shown or deleted, or the reply lost (`CreateAgreesExactly`,
  `DeleteAgreesExactly`). `DeletionOfNobody` has one more user in the installed database, with two backslashes in
  the login: deleting that row from the list, the server looks for a login with one, deletes nobody and answers
  success.
- A refresh that is refused, cut off, loses its framing or holds an unreadable string leaves the client's list as it
  was: `RefreshAgrees`.
- Of requests sent one after another on a connection, those that share a block with an earlier one are lost, whole or
  in part: `AllAcceptedExactly`, `SecondRequestLost`.
- A late order can leave the list of expired orders: completed on its expire date (`LeavesOnlyOnExpireDate`,
  `LateOrderLeaves`).
- A delete reply that comes after a refresh shrank the list removes a row out of range: `UserRemoved`.

The comment at the head of Connection.cpp shows a request with a `data` table; the handlers read differently
named tables, and the model follows them. The server's built-in default end marker is `lua\r`, which no client
request contains; the request results are for the marker `\r\n`, which the client uses both ways.

## Model

| member | source | states |
|---|---|---|
| Integrity.DeleteCustomerKeeps | db.sql:203-206 | the two-level cascade leaves no dangling reference, no order without lines, and unique keys |
| Integrity.CompleteOrderKeeps | db.sql:248-272 | completing an order keeps keys, references and the unsigned stock domain, so stock never goes negative |
| Integrity.InsertLinesSucceeds | pc_course_server/Request.hpp:655-678 | the insert loop succeeds exactly when every narrowed item id exists and the key space lasts |
| Integrity.InsertLinesAppends | db.sql:228-236 | on success exactly the wanted lines were appended, in order, under consecutive ids |
| Integrity.AddOrderAllOrNothing | pc_course_server/Request.hpp:618-681 | add_order either leaves every row as it was or adds exactly one order with exactly its lines in order; success has an exact condition on request and database |
| Integrity.LinesAsRequested | pc_course_server/Request.hpp:609-616 | the stored numbers are the requested ones if and only if every id fits int and every count fits uint32_t |
| Integrity.PlaceOrderKeeps | pc_course_server/Request.hpp:596-687 | add_order, failed or not, keeps all keys, references, domains and non-empty orders |
| Integrity.HandleKeepsConsistent | db.sql:15-99 | every request of any kind keeps primary keys, foreign keys, domains, and at least one line per order |
| Procedures.CheckUserExactly | db.sql:103-108 | credentials are good exactly if some user row has the login and password and some rank row its rank's id and the name |
| Procedures.CreateUserExactly | db.sql:170-181 | success exactly for a new login and an existing rank; then the new last row holds the six values and all other rows stay, and otherwise all rows do |
| Procedures.CreatedCanLogIn | db.sql:170-181 | the created login is let in with its password and its rank's name, and with nothing else |
| Procedures.UpdateUserExactly | db.sql:183-191 | for an existing rank the row with the login gets the new names and rank and keeps its password; every other row stays |
| Procedures.DeleteUserExactly | db.sql:165-168 | a user remains if and only if it was there under another login |
| Procedures.CreateCustomerExactly | db.sql:193-201 | success exactly for a telephone that is not negative and not there yet; then one row more, otherwise none |
| Procedures.DeleteCustomerExactly | db.sql:203-206 | a customer remains if and only if it has another telephone, an order if and only if it is another customer's, a line if and only if its order remains; all other tables and the counters stay |
| Procedures.AddItemExactly | db.sql:208-221 | the exact condition of success and of the two refusals, and the new row column by column |
| Procedures.AddItemCountExactly | db.sql:223-226 | the item with the id has that many more exactly if id and number fit INT and its count stays in the column's range; every other row, and otherwise every row, stays |
| Procedures.AddOrderRefused | pc_course_server/Request.hpp:596-687 | what each refused add_order answers, where its insert loop stopped, and which order and line numbers it used up |
| Procedures.ChargeInColumns | db.sql:253-257 | the grouped sum is the sum of the order's lines for the distributor's items |
| Procedures.PickInColumns | db.sql:253-257 | the ids the group may show: for each distributor of an ordered item one of its ordered items |
| Procedures.NarrowKeepsBits | pc_course_server/Request.hpp:609-616 | both narrowings keep the number modulo 2 to the 32 |
| PcDb.GroupByDistributor | db.sql:253-257 | the grouped subquery: one group per occurring distributor, its exact SUM, and the id of some row of the group |
| PcDb.ChargeItems | db.sql:252-259 | the joined UPDATE changes every row by the group naming it, or no row when one count would fall below zero |
| PcDb.Cascade | db.sql:43-98 | deleting order by order removes exactly the lines of the customer's orders |
| PcDb.Database.DeleteCustomer | db.sql:203-206 | the method's new state is the cascaded state: rows of the three tables remain by telephone, customer and order, the other tables stay, and consistency is kept |
| PcDb.Database.AddItemCount | db.sql:223-226 | the row-by-row UPDATE fails as a whole when a count leaves the column's range, otherwise the rows with the id have that many more and the others stay |
| PcDb.Database.InsertAll | pc_course_server/Request.hpp:655-678 | the loop of AddOrderedItem calls stops at the first failure, with the tables as they are then |
| PcDb.Database.HandleAddOrder | pc_course_server/Request.hpp:596-687 | the handler's transaction ends in the state and reply of the all-or-nothing specification |
| PcDb.Database.CompleteOrder | db.sql:248-263 | the procedure ends in the specified state for a choice of representatives the server may make |
| PcDb.Database.HandleCompleteOrder | pc_course_server/Request.hpp:565-594 | commit or rollback matches the specification and the database stays consistent |
| StockLedger.StepBalances | db.sql:208-263 | each request changes a distributor's total stock by exactly what it adds minus what it charges, an addition counted whenever its numbers fit and its rows exist |
| StockLedger.CompletionCharges | db.sql:252-259 | whichever item of a group is updated, the distributor's total falls by the sum of the order's lines for it |
| StockLedger.LedgerBalances | db.sql:208-263 | over every run, stock is initial stock plus everything added minus everything charged, deleted customers included |
| StockLedger.ChargedAtMostOnce | db.sql:250-262 | over every run no order is charged twice |
| StockLedger.OrderedIsJoined | db.sql:253-257 | repeated lines for an item are summed before charging: the join yields the order's own count per item |
| StockLedger.ExactForPick | db.sql:252-259 | for a given choice, every item loses exactly what was ordered of it if and only if all positive lines are for representatives |
| StockLedger.ExactForEveryPick | db.sql:252-259 | charges are exact per item for every choice if and only if no two distinct ordered items share a distributor, zero counts aside |
| StockLedger.CompleteOrderExactly | pc_course_server/Request.hpp:565-594 | complete_order answers success exactly when the order is already completed or every representative can bear its group's charge; then the order carries the date, each representative is charged its group's sum and nothing else changes, and otherwise nothing changes at all |
| StockLedger.CompleteOrderRefused | pc_course_server/Request.hpp:578-582 | a refused complete_order answers NotEnoughItems, or that the id is out of range |
| ReportColumns.IncomeInColumns | db.sql:290-297 | the income of a window is the sum over the lines of number times price of the item with that id, for orders completed on a day of the window |
| ReportColumns.SellsInColumns | db.sql:299-308 | one statistics row for each name under which a line was sold in the window, with that name's money and number summed over the lines |
| ReportColumns.OrderItemsInColumns | db.sql:135-145 | an order's lines, all, in order and once each, beside their item, maker and type, with number times price |
| ReportColumns.OrderTotalInColumns | db.sql:135-145 | these costs add up to the order's sum over the lines |
| ReportColumns.CompletedOrdersInColumns | db.sql:282-288 | the orders completed on a day of the window, once each, beside their customers, and no others |
| Reports.GroupsAreSums | db.sql:299-308 | the statistics have one row per distributor name, holding the cost and count sums of exactly its lines |
| Reports.GroupNames | db.sql:307 | a name has a statistics row if and only if a line with that distributor occurs |
| Reports.IncomeIsSumOfSells | db.sql:290-308 | GetIncome equals the statistics' common_cost added up, for every window |
| Reports.IncomeIsSumOfOrders | db.sql:282-297 | GetIncome equals the GetOrderItems costs added up over GetCompletedOrders |
| Reports.IncomeAdditive | db.sql:290-297 | income over a window is the sum over two adjacent windows that make it up |
| Lateness.ListedInColumns | db.sql:274-280 | an order is listed if and only if it was completed on a later day than its expire date, or is open and that day has begun |
| Lateness.LeavesOnlyOnExpireDate | db.sql:274-280 | a listed order that survives a request stays listed unless that request completed it on its expire date |
| Lateness.LatenessStable | db.sql:274-280 | listed strictly after its expire date, an order is listed at every later state that has it |
| LuaPrinter.LuaConfSerialize | pc_course_server/LuaConfSerialize.hpp:8-111 | the printer's buffer ends as the rendering of the value's expression tree, empty for a function |
| LuaPrinter.WriteEntries | pc_course_server/LuaConfSerialize.hpp:39-50 | the loop over pairs writes the string-keyed non-function ones, and the separator flag says whether any was written |
| LuaPrinter.WriteList | pc_course_server/LuaConfSerialize.hpp:52-63 | the loop over positions continues the same list with the same flag |
| LuaSyntax.ParseOfToks | pc_course_server/Connection.cpp:25-34 | parsing the tokens of an expression with proper names gives the expression back, whatever follows |
| LuaRoundTrip.UnescapeOfEscape | pc_course_server/LuaConfSerialize.hpp:95-97 | reading a string undoes std::quoted |
| LuaRoundTrip.LexRender | pc_course_server/LuaConfSerialize.hpp:8-111 | the printed form has the tokens of the expression at every indentation level |
| LuaRoundTrip.UnreadableString | pc_course_server/LuaConfSerialize.hpp:95-97 | a raw line break, which std::quoted leaves in, ends the lexing of the string in failure |
| LuaRoundTrip.ForeignInRender | pc_course_server/LuaConfSerialize.hpp:8-111 | the printed text contains CR (or NUL) if and only if a key or string does |
| Literals.PrintedText | pc_course_server/LuaConfSerialize.hpp:8-111 | a table in a table with a string, a negative number and a boolean, printed, character by character |
| Literals.FixedEscapes | pc_course_server/Connection.cpp:29 | the code each letter escape stands for, and two escapes that are none |
| Literals.HexEscapes | pc_course_server/Connection.cpp:29 | a hexadecimal escape read, and one refused |
| Literals.DecimalEscapes | pc_course_server/Connection.cpp:29 | decimal escapes take up to three digits and stop at 255 |
| Literals.SpaceEscapes | pc_course_server/Connection.cpp:29 | skipped space, and escaped line breaks in their several forms |
| Literals.CodePointEscape | pc_course_server/Connection.cpp:29 | an escaped code point becomes its three bytes |
| LuaMeaning.ReadsNormalExactly | pc_course_server/LuaConfSerialize.hpp:28-69 | evaluating the printed form gives the normal form for every length operator if and only if nothing kept is a hole or an unwritable integer |
| LuaMeaning.NormalTwice | pc_course_server/LuaConfSerialize.hpp:40-63 | normalising twice changes nothing and the normal form prints the same |
| LuaMeaning.NormalKeeps | pc_course_server/LuaConfSerialize.hpp:39-63 | field by field: the normal form has what was there under every name and at every position, functions and other keys left out |
| LuaExact.CutRender | pc_course_client/Utils/LuaConf.hpp:40-45 | printed text cut at any CR or NUL cannot be lexed |
| LuaExact.ReadRenderExactly | pc_course_server/Connection.cpp:25-34 | a printed assignment, seen as a C string, reads back as itself if and only if its names are identifiers and its strings hold no line break or NUL; with proper names it otherwise reads as nothing |
| LuaExact.PrintedReadsNormal | pc_course_server/LuaConfSerialize.hpp:28-69 | print, cut at NUL, lex, parse and run: the normal form for every length operator, if and only if names and kept keys are identifiers, kept strings hold no line break or NUL, and the value is faithful |
| LuaRaw.BodyReads | pc_course_client/Utils/Requests.hpp:80-88 | a text pasted between single quotes, its escapes its own, is read up to the quote after it as what the escapes stand for |
| LuaRaw.UnescapeShrinks | pc_course_client/Utils/Requests.hpp:80-88 | such a text is read as it stands if it holds no backslash, and as something shorter if it does |
| LuaRaw.Unreadable | pc_course_client/Utils/Requests.hpp:58-75 | one pasted field that is not read as a string of its own makes the whole text unreadable, whatever the other fields hold |
| Framing.ServerConnection.ReadyRead | pc_course_client/Utils/ServerConnection.cpp:86-100 | the handler's new buffer and message are those of the specified step; a message ends where the delimiter occurs |
| Framing.ExpectedIsFirstDelimiter | pc_course_client/Utils/ServerConnection.cpp:93-99 | the reference: the text before the first delimiter of the whole stream, on the first block that completes it |
| Framing.SafeStartRefines | pc_course_client/Utils/ServerConnection.cpp:91 | any start at or before old size minus (delimiter length minus 1), clamped at 0, delivers exactly the reference |
| Framing.WrittenStartExactly | pc_course_client/Utils/ServerConnection.cpp:90-93 | the start as written delivers the reference if and only if the window reaches back far enough at the completing block |
| Framing.WindowReachesCrlf | pc_course_client/Utils/ServerConnection.h:42 | for the two-byte delimiter that condition is: not two bytes before, and after one byte only with the delimiter at the end |
| Framing.WrittenStartLosesMessage | pc_course_client/Utils/ServerConnection.cpp:90-93 | a two-block run whose message is in the buffer and is not delivered |
| Framing.SecondRead | pc_course_client/Utils/ServerConnection.cpp:82-101 | after a message a second Read delivers, from the blocks that come then, what a fresh connection would |
| QueryReply.SerializeQueryResult | pc_course_server/Request.hpp:73-137 | no text exactly if a row has NULL under a column that denies it, or under an integer or boolean column a text that is no 64-bit number; else the printed form of a table that represents the rows, other NULL cells left out |
| QueryReply.FromCharsExactly | pc_course_server/Request.hpp:98-112 | reading a number's decimal text gives the number exactly if it has 64 signed bits |
| QueryReply.ReplyCarriesTable | pc_course_client/Utils/LuaConf.hpp:40-55 | the client reads from the reply the very table that was printed, in any iteration order |
| QueryReply.ReplyOutcome | pc_course_client/Utils/LuaConf.hpp:40-55 | from any blocks of a reply, complete or cut off, the client gets the evaluated table exactly if all came, every string is readable and not two bytes preceded the completing block, and otherwise nothing |
| QueryReply.EndToEnd | pc_course_server/Request.hpp:73-137 | printed, framed and received in any non-empty blocks, a result reaches the client row by row and field by field (the integer, the boolean, the string, nothing for NULL) if and only if all of it came, its strings and integers survive, and the bytes before the completing block are not two |
| QueryReply.FieldsArrive | pc_course_server/Request.hpp:87-130 | of a result that arrives, every field is what MySQL sent under its column: the string itself, the number whose decimal text it is, whether that number is not 0, nothing for NULL |
| QueryReply.ResponseOutcome | pc_course_client/Utils/LuaConf.hpp:40-66 | from the blocks of a one-line reply, whole or cut, the client gets the response exactly if it came whole and not two bytes preceded the completing block, and otherwise none |
| ClientRequests.ArgFills | pc_course_client/Utils/Requests.hpp:72-75 | substitution is simultaneous: each marker of the template becomes exactly its argument, whatever the arguments contain |
| ClientRequests.RequestReadsBack | pc_course_server/Connection.cpp:112-116 | any such request, framed by the server and parsed, reads back as exactly its parts with each field's escapes read, if every field is a string of its own, and otherwise as nothing |
| ClientRequests.FieldArrives | pc_course_server/Request.hpp:174-176 | of any chunk of distinct records a handler finds every field, evaluated, whatever # does |
| ClientRequests.AuthArrives | pc_course_client/Utils/Requests.hpp:25-35 | what the server runs for Auth gives the handler the name auth and the caller's login, password and rank as Lua reads them; one unreadable field and it runs nothing |
| ClientRequests.GetUsersArrives | pc_course_client/Utils/Requests.hpp:37-47 | the same for GetUsers |
| ClientRequests.CreateUserArrives | pc_course_client/Utils/Requests.hpp:49-76 | create_user finds the five strings as read, and the rank as an integer if and only if 64 signed bits hold it; one unreadable field and nothing is run |
| ClientRequests.DeleteUserArrives | pc_course_client/Utils/Requests.hpp:78-89 | delete_user finds the credentials and the login as read, or nothing is run |
| ClientRequests.CreateCustomerArrives | pc_course_server/Request.hpp:467-471 | create_customer finds the names as read, and the telephone as an integer if and only if it is in the signed 64-bit range; one unreadable field and nothing is run |
| RequestStream.AllAcceptedExactly | pc_course_server/Connection.cpp:77-116 | of requests sent one after another the server accepts all, in order, if and only if each ends where a block it read ends |
| RequestStream.FirstAccepted | pc_course_server/Connection.cpp:77-116 | the first request is accepted with the block that completes it, and reading starts afresh with the block after that |
| ConnectionProtocol.StepKeeps | pc_course_server/Connection.cpp:77-147 | every step of every worker keeps one task in the read-process-write cycle until the connection ends, and accounts for every request |
| ConnectionProtocol.OneOperationAtATime | pc_course_server/Connection.cpp:77-147 | under every interleaving at most one read or write is outstanding and neither buffer has two users |
| ConnectionProtocol.ResponsesInOrder | pc_course_server/Connection.cpp:109-177 | written responses are a prefix of the responses, those of the accepted requests, each at most one behind: the last request is being processed, its response being written, or lost with the failed write that ended the connection |
| ConnectionProtocol.EndedStartsNothing | pc_course_server/Connection.cpp:84-108 | after a timeout or failure branch no read or write is ever started |
| Serving.ServesAll | pc_course_server/Connection.cpp:77-177 | whatever requests come one after another, the connection can accept, answer and deliver them all, in order |
| Serving.CutsOff | pc_course_server/Connection.cpp:120-129 | a connection that waits for a client which sends nothing can end, nothing left to do |
| Serving.ReadOutcome | pc_course_server/Connection.cpp:86-117 | a completed read's request is taken exactly if it succeeded and found the flag clear; otherwise the connection ends, and no wait outlives a read that completed by itself in time |
| Serving.RearmsAlone | pc_course_server/Connection.cpp:120 | re-arming the timer fails every outstanding wait and changes nothing else |
| StaleTimers.StaleTimerExactly | pc_course_server/Connection.cpp:120-129 | at every reachable state about to read, some continuation lets an earlier round's timer abort that read if and only if a timer task of an earlier round is still live |
| StaleTimers.AbortsRead | pc_course_server/Connection.cpp:123-126 | the next step of that handler makes the read complete as aborted |
| StaleTimers.LateFlagExactly | pc_course_server/Connection.cpp:86-128 | and lets one set the flag under it if and only if one is live or about to set the flag |
| StaleTimers.FlaggedReadEnds | pc_course_server/Connection.cpp:86-91 | then even a read that succeeds is taken for a timeout |
| StaleTimers.AbortedWriteExactly | pc_course_server/Connection.cpp:123-146 | at every reachable state about to write, some continuation lets a timer abort the write if and only if a handler is past its test of the flag |
| StaleTimers.StaleTimerCancelsNextRead | pc_course_server/Connection.cpp:120-129 | a reachable state in which round 0's timer can abort round 1's read |
| StaleTimers.OwnTimerAbortsWrite | pc_course_server/Connection.cpp:86-146 | a reachable state in which round 0's own timer can abort its write, and the one in which the response is lost |
| SingleWorker.OneEndingPerRound | pc_course_server/Connection.cpp:84-118 | on one worker every round has exactly one ending, and is timed out exactly when its own timer cut it |
| SingleWorker.TimerCutsOwnRound | pc_course_server/Connection.cpp:120-129 | on one worker a timer never cuts another round's read or any write |
| OneWorker.EveryRunIsARun | pc_course_server/Connection.cpp:77-147 | every single-worker run is a run of the protocol in which handlers run in queue order, each to its end, and ends in the same state |
| OneWorker.TimersCutOwnRead | pc_course_server/Connection.cpp:123-128 | on that schedule a timer handler that passes its test finds no write and no read but its own round's |
| WorkerSchedule.EveryWorkedRunIsServed | pc_course_server/Connection.cpp:77-147 | every run of the protocol in which handlers begin in queue order and none while one is part-way, operations completing at any step, ends where some single-worker run ends |
| WorkerSchedule.WorkedTimerCutsOwnRead | pc_course_server/Connection.cpp:123-128 | in every such run a timer handler past its test finds no write outstanding and no read but its own round's |
| StartBarrier.LoopSeesWholeMap | pc_course_server/Server.cpp:38-55 | a worker past the spin loop finds an entry for every worker asked for, and for one if none was |
| StartBarrier.NoWriteAfterStart | pc_course_server/Server.cpp:53-57 | once some worker is past the spin loop, Start never writes the map again |
| StartBarrier.ReturnsAfterLastAccess | pc_course_server/Server.cpp:57-58 | when Start has returned every worker is past its last access to the captured locals |
| StartBarrier.NeverStuck | pc_course_server/Server.cpp:26-59 | until Start has returned, some step changes the state |
| StartBarrier.BoundedSteps | pc_course_server/Server.cpp:26-59 | in any schedule at most 5 * workers + 3 steps change the state, workers being the number asked for, at least one, and that many exactly when Start has returned with every worker in its loop |
| StartBarrier.Finishes | pc_course_server/Server.cpp:26-59 | from wherever a start-up has got to, some schedule lets Start return |
| UsersCache.ReadUsers | pc_course_client/Admin/Models/UsersModel.cpp:146-170 | the reading loop collects every entry in order or fails as a whole |
| UsersCache.UsersEndToEnd | pc_course_client/Admin/Models/UsersModel.cpp:146-162 | the users queried arrive in the client's list in order if and only if all of the reply came, no field holds a line break or NUL, and not two bytes preceded the completing block; otherwise nothing of it is used |
| UsersCache.UsersModel.Refresh | pc_course_client/Admin/Models/UsersModel.cpp:171-193 | whichever branch is taken the list becomes the received one and the announced count follows |
| UsersCache.UsersModel.RankId | pc_course_client/Admin/Models/UsersModel.cpp:233-235 | the map lookup of a missing rank gives 0 and enters it |
| UsersCache.UsersModel.UserAdded | pc_course_client/Admin/Models/UsersModel.cpp:215-232 | a successful create appends the user and announces one row |
| UsersCache.UsersModel.UserRemoved | pc_course_client/Admin/Models/UsersModel.cpp:253-270 | a successful delete removes the row and announces it, unless the list has shrunk below the index meanwhile |
| UserRequests.ListingServed | pc_course_server/Request.hpp:217-236 | the text of GetUsers is answered with the rows exactly if its credentials are readable and belong to an administrator |
| UserRequests.AuthServed | pc_course_server/Request.hpp:163-215 | the text of Auth is answered with success exactly if its credentials, as Lua reads them, are those of a user and a rank of theirs |
| UserRequests.CreationServed | pc_course_server/Request.hpp:410-438 | the text of CreateUser makes the server call CreateUser with the row Lua read, or nothing when a field is unreadable or the caller is not admitted |
| UserRequests.DeletionServed | pc_course_server/Request.hpp:357-376 | the text of DeleteUser makes the server delete the login Lua read, or nothing |
| UserRequests.UserStored | pc_course_server/Request.hpp:411-458 | from the text: a creation succeeds exactly if an administrator sends it, the fields are readable, the login is new and the rank exists; then the last row holds the six fields as read, one by one, and otherwise nothing changes |
| UserRequests.UserLogsIn | pc_course_server/Request.hpp:163-207 | from then on that login is let in with that password and that rank's name, and with nothing else |
| UserRequests.CustomerStored | pc_course_server/Request.hpp:460-487 | the same for a customer, which employees may create too and whose telephone must have 63 bits |
| UserRequests.UserDeleted | pc_course_server/Request.hpp:356-375 | from the text of a deletion: exactly the user with the login as read goes |
| UsersCache.ServerDeletes | db.sql:165-168 | deleting a listed login takes exactly its row out of the join |
| AdminRuns.RefreshAgrees | pc_course_client/Admin/Models/UsersModel.cpp:144-203 | a refresh that is admitted and gets through makes the list the rows sent, in order, and so establishes the agreement; one that does not leaves the client as it was |
| AdminRuns.CreateAgreesExactly | pc_course_client/Admin/Models/UsersModel.cpp:208-240 | from its text to its reply, a creation keeps client and server equal if and only if the server refuses it, or the reply arrives and no shown field holds a backslash |
| AdminRuns.DeleteAgreesExactly | pc_course_client/Admin/Models/UsersModel.cpp:242-274 | a deletion keeps them equal if and only if the server refuses it, or the reply arrives and the login holds no backslash, or the reply is lost and nobody has the login the server read |
| AdminRuns.CacheAgrees | pc_course_client/Admin/Models/UsersModel.cpp:122-274 | over any run of refreshes, creations and deletions, from a refresh that gets through on, the client's list equals the server's join and the announced row count its length while every event is harmless |
| AdminRuns.CacheStops | pc_course_client/Admin/Models/UsersModel.cpp:122-274 | and the first event that is not ends the agreement |
| AdminRuns.PlainCacheAgrees | pc_course_client/Admin/Models/UsersModel.cpp:122-274 | in particular it lasts while created fields and deleted logins hold no backslash and the replies arrive |
| UsersCache.SameByLogin | db.sql:115-120 | under agreement the two sides list the same users, one per login |
| Seed.SeededConsistent | db.sql:312-329 | the installed database is consistent, so every run starts from the invariant |
| Seed.PanelRanksAgree | pc_course_client/Admin/Ui/AdminPanel.cpp:20 | the ranks the admin panel sets agree with the installed ones |
| Witnesses.ChargeOnOneItem | db.sql:248-263 | two requests after installation lead to an order whose whole charge one item may bear |
| Witnesses.NarrowedLine | pc_course_server/Request.hpp:609-616 | a requested id above 32 bits is stored as 1 and a count of -1 as the greatest |
| Witnesses.HoleSplitsList | pc_course_server/LuaConfSerialize.hpp:52-63 | a list with a hole comes back split at it |
| Witnesses.StringsUnreadable | pc_course_server/LuaConfSerialize.hpp:95-97 | a string with a line break, or with a NUL, cannot be read back |
| Witnesses.DeletionOfNobody | pc_course_client/Admin/Models/UsersModel.cpp:242-274 | a state one created user away from the installed one, where deleting a listed user deletes nobody and the client drops the row |
| Witnesses.LateOrderLeaves | db.sql:274-280 | in the installed database, order 1 completed on its expire date, after its first second, is late before and not after |
| InstalledRuns.Restocked | db.sql:223-226 | in the installed database ten more of item 1 make 199 |
| InstalledRuns.CustomerGone | db.sql:203-206 | deleting customer 123 leaves the other two customers and no order or line |
| InstalledRuns.CompletedInFigures | db.sql:248-263 | completing order 1 leaves 162, 46 and 381 in stock and the order dated that day |
| InstalledRuns.IncomeInFigures | db.sql:290-297 | it then brings 24308.73 in every window with that day and nothing in the others |
| InstalledRuns.OrderInFigures | db.sql:135-145 | and so much do its lines cost together |
| InstalledRuns.SellsInFigures | db.sql:299-308 | its three makers' rows: 6752.43 for 27, 7408.80 for 7, 10147.50 for 75 |
| InstalledRuns.BobCreated | db.sql:170-181 | a creation with a 64-digit hash stores it, and lets the new employee in with it and with nothing else |
| InstalledRuns.DayInFigures | db.sql:244 | the day number on both sides of a midnight |
| RequestStream.SecondRequestLost | pc_course_server/Connection.cpp:79 | of two requests that come in one block the second is lost |

## Left out

- Sockets, timers, thread scheduling, the SQL engine and the Lua VM themselves: each appears as a step that
  happens or a statement that succeeds or fails.
- SQL text and quoting: handlers call procedures with typed arguments; add_order's quoted FROM_UNIXTIME is
  taken as the date conversion and insert_id as the new order's id.
- check_user_existance and the rank list of each handler but auth, get_users, create_user, delete_user and
  create_customer.
- Missing or ill-typed fields of requests other than add_order, create_user, delete_user and create_customer, which
  answer bad_config and change nothing.
- Column lengths, and collations under which different logins compare equal.
- LuaPrinter.LuaConfSerialize: floating-point numbers and pointer-like values (userdata, threads, C functions) are
  excluded, because how they print is the platform's choice and they do not read back.
- QueryReply.SerializeQueryResult: floating-point columns have no cell. Assertions count as enabled, so a NULL under a
  column that denies it stops the server; a build without them goes on with that NULL.
- LuaSyntax.ParseOfToks: the parser accepts the literal subset only; comments, operators, bracketed keys and long
  brackets are rejected where Lua would accept them.
- LuaRaw.Unreadable: unreadable means to that parser; a field that ends in a backslash, together with another field
  that opens a comment or a long bracket, can make a text that Lua does accept.
- ClientRequests.ArgFills: markers are single digits, as in every template of the client.
- The loop of ProcessRequest that looks a request name up, and the bad_config reply for an unknown one.
- ServerConnection::Write: its partial-write loop would add an easy member.
- Framing.ServerConnection.ReadyRead: a block that comes while no Read is listening is passed over, where the socket
  would keep its bytes for the next one.
- DeleteCustomer and CreateItem of the request builders: they send another request's name.
- CustomersModel and ItemsModel: copies of the UsersModel update.
- AdminRuns.CacheAgrees: requests that overlap are out, the agreement is for replies handled one at a time; fields
  with a single quote, a line break or NUL are out, as below; and what Lua read is the row, not read a second time as
  SQL text.
- ClientRequests.RequestReadsBack: text fields with a single quote, a line break or NUL are excluded, because the
  builders paste fields between quotes as they are and such a text can be any other request.
- ClientRequests.AuthArrives: the same fields.
- ClientRequests.GetUsersArrives: the same fields.
- ClientRequests.CreateUserArrives: the same fields.
- ClientRequests.DeleteUserArrives: the same fields.
- ClientRequests.CreateCustomerArrives: the same fields.
- QueryReply.EndToEnd: results with a floating-point column, such as cost.
- WorkerSchedule.EveryWorkedRunIsServed: the requests taken are those of some client, one for each round.
- ConnectionProtocol.StepKeeps: the unsynchronised use of the timer object by two workers is modelled as if each
  timer call were atomic.
- LuaWay.hpp, Ref.hpp and VM.hpp are not part of this model.
