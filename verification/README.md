# Verified model of the load balancing project

The project is a layer-7 load balancer. Clients connect to a balancer; the balancer picks a real server
with one of six scheduling algorithms and forwards the request; a pool of child processes of that server
parses and answers it; the balancer finds the waiting client by the two target fields of the response.

This Dafny project models that behaviour and proves what the pieces and their composition keep.

| file | what it models |
|---|---|
| `Schedulers.dfy` | the six `selectServer` loops (RR, WRR, LC, WLC, DH, SH) and the hash |
| `Balancer.dfy` | the balancer: its handlers as methods over its tables, each proved against one event of a state machine |
| `BalancerRuns.dfy` | what holds in every reachable state: delivery safety, the load ledger, safety of the health check, which client descriptors are open |
| `Outcomes.dfy` | what one event of the balancer does in every reachable state, table by table: who gets a request, who is refused, where a response goes, who survives a check |
| `HonestRuns.dfy` | what honest clients can rely on: which responses reach the clients that asked for them, and who waits in vain |
| `RoundRobinRuns.dfy` | Round Robin inside the balancer: nobody with spare capacity is passed over for long |
| `CapacityRuns.dfy` | the load limits that each algorithm keeps over whole runs, with the exact conditions for LC and WLC |
| `HttpWriter.dfy`, `HttpReader.dfy` | the printer, the parser, the header dispatch and the answers to all methods |
| `Messages.dfy` | what reader and extractor make of any message, well-formed or not, and when there is an answer |
| `Answers.dfy` | the answers to the requests of each method, from the spelled request to the spelled response |
| `Routing.dfy` | the balancer's extractor, and the routing law: the source of a request comes back as the target |
| `Refusals.dfy` | the refusal that a real server sends itself when it has no child left, and how it finds the source of the request |
| `EndToEnd.dfy` | the balancer and its servers together: printed requests, printed responses and where these go, and the limits that servers tell |
| `ChildPool.dfy` | the children of a real server: fork, finish, end of file, timeout, death |
| `PoolOutcomes.dfy` | what one event of the real server does, child by child |
| `ChildRuns.dfy` | the pool together with what its children do, and when the server stays inside its vector |
| `Caches.dfy` | the LRU and FIFO caches |
| `Clients.dfy` | the client threads that share a cache, a port and a buffer under one mutex |
| `Text.dfy`, `Conversions.dfy`, `Sums.dfy`, `Options.dfy` | searching and splitting text, numbers as text, sums over maps, optional results |

Code that updates fields is modelled by classes whose methods update the same fields; a loop of the source
is a loop here. Each such method is proved against a function of the old state, and the runs are proved
about that function. What comes from outside (sockets, `accept`, `fork`, timers, files, the order in which
an `unordered_map` iterates) is an explicit input, so "every run" means every behaviour of the environment:
every failure exit of every handler is one of the possible events.

Where the source and its own comments differ, the model follows the code:

- Only the first candidate of LC and WLC is asked for spare capacity, although the comments speak of
  servers that can handle a request. `CapacityRuns.MarginKeptIff` says for which capacities this matters.
- `ChildInfo` and `handleResponseFromChild` call a child's index its position in the vector. A temporary
  child that is removed shifts the ones behind it, so this does not stay true: `ChildPool.VectorCanBeLeft`
  is a run in which the server indexes beyond its vector. `ChildRuns.StaysInVectorIff` and
  `ChildRuns.SendersAreHitIff` say for which runs the code is right: those in which no temporary child but
  the last one is removed or dies, and the last one dies only while the pool is full.
- A leaving client thread takes its descriptor off the list of sockets after it has closed it.
  `Clients.TwoThreadsCanUnlist` is a run in which this unlists the socket of a thread at work, and
  `Clients.LeavingUnlistsIff` says exactly when it can happen.
- The comment on the hash speaks of 256 buckets; the table has 4096.
- The comments on the two last branches of the LRU `putElement` are swapped.
- A refused client (503 or 500) is answered but its descriptor is never closed. `BalancerRuns.OpenIff` and
  `BalancerRuns.ForgottenForGood` say connection by connection which descriptors stay open.
- The real server's own 503 takes the first text in the request that looks like a source line, wherever it
  stands. `Refusals.RefusalReadIff` says exactly when that is the source.
- An address that spells `Target-Port: ` makes the balancer misread the port. `Routing.RoutingRoundTrip`
  covers such addresses too, and `Routing.PortReadIff` says exactly when the port is right.
- Start lines are printed with a trailing space, and a body ends at its first end of line. This is not the
  message shape of section 3 of RFC 7230, but reader and writer agree on it.

## Model

| member | source | states |
|---|---|---|
| Schedulers.SchedRR.SelectServer | LoadBalancer/src/SchedulingAlgorithms/SchedRR.cpp:20-44 | the modulo-counter loop selects what the cyclic probe from the counter's slot selects, and leaves the counter one past it (a full turn further if nothing is found) |
| Schedulers.ProbeIsFirstSpare | LoadBalancer/src/SchedulingAlgorithms/SchedRR.cpp:23-43 | the probe shared by RR, DH and SH selects the first server with spare capacity in cyclic order, and none exactly when no server has any |
| Schedulers.RrCounter | LoadBalancer/src/SchedulingAlgorithms/SchedRR.cpp:20-44 | the counter stands one past the selected slot; after a call that found nobody it has gone around once, so the next call starts where this one did |
| Schedulers.ProbeIgnoresUnselected | LoadBalancer/src/SchedulingAlgorithms/SchedDH.cpp:41-61 | filling up a server that was not selected does not change the selection |
| Schedulers.RrBoundedBypass | LoadBalancer/src/SchedulingAlgorithms/SchedRR.cpp:20-44 | whatever happens to the other loads between the calls, a server that has spare capacity at each call is selected after at most as many calls as it is slots away from the counter |
| Schedulers.RrFair | LoadBalancer/src/SchedulingAlgorithms/SchedRR.cpp:20-44 | with spare capacity everywhere, n calls select each of n servers exactly once |
| RoundRobinRuns.AsksAreChained | LoadBalancer/src/LoadBalancer/LoadBalancer.cpp:417-421 | over a run only the scheduled requests move Round Robin's counter, each as one call |
| RoundRobinRuns.NobodyIsPassedOver | LoadBalancer/src/LoadBalancer/LoadBalancer.cpp:417-474 | bounded bypass for the balancer: in every run, faults included, in which the servers stay the same, a server that has spare capacity whenever the scheduler is asked gets one of the next requests, as many as it is slots away from the counter |
| Schedulers.HashIsLowBits | LoadBalancer/src/SchedulingAlgorithms/SchedDH.cpp:71-75 | the hash depends on the low twelve bits of the address only, whether the multiplication wraps at 32 or at 64 bits |
| Schedulers.HashCollisions | LoadBalancer/src/SchedulingAlgorithms/SchedSH.cpp:71-75 | two addresses collide exactly when they agree modulo 4096 |
| Schedulers.SchedHash.SelectServer | LoadBalancer/src/SchedulingAlgorithms/SchedDH.cpp:21-62 | the wrapping iterator selects what the cyclic probe from the hashed slot selects; 0 for an address that is not one |
| Schedulers.ScanIsBest | LoadBalancer/src/SchedulingAlgorithms/SchedLC.cpp:36-42 | the inner scan ends at the first slot of its window that no slot of the window beats |
| Schedulers.SelectIsBest | LoadBalancer/src/SchedulingAlgorithms/SchedWRR.cpp:20-49 | the common scheme selects the best slot from the first candidate on, the earliest of equals |
| Schedulers.SelectFindsIff | LoadBalancer/src/SchedulingAlgorithms/SchedWRR.cpp:20-49 | the scheme finds a server exactly when one has spare capacity |
| Schedulers.SchedWRR.SelectServer | LoadBalancer/src/SchedulingAlgorithms/SchedWRR.cpp:20-49 | the two nested loops compute that scheme for the largest room |
| Schedulers.WrrOptimal | LoadBalancer/src/SchedulingAlgorithms/SchedWRR.cpp:20-49 | WRR selects a server with the largest room, capacity less load, of the whole pool, the first of equals; that server has spare capacity |
| Schedulers.SchedLC.SelectServer | LoadBalancer/src/SchedulingAlgorithms/SchedLC.cpp:19-48 | the two nested loops compute the scheme for the smallest load |
| Schedulers.LcOptimal | LoadBalancer/src/SchedulingAlgorithms/SchedLC.cpp:19-48 | from the first server with spare capacity on, LC selects one with the fewest connections, the first of equals; so no server with spare capacity has fewer |
| Schedulers.LcKeepsReserveIff | LoadBalancer/src/SchedulingAlgorithms/SchedLC.cpp:29-42 | LC keeps the reserve of its choice for all loads exactly when no capacity is by two or more below one in front of it |
| Schedulers.SchedWLC.SelectServer | LoadBalancer/src/SchedulingAlgorithms/SchedWLC.cpp:19-50 | the two nested loops compute the scheme for the smallest ratio of load to capacity, compared by cross products |
| Schedulers.WlcOptimal | LoadBalancer/src/SchedulingAlgorithms/SchedWLC.cpp:19-50 | from the first server with spare capacity on, WLC selects one with the smallest ratio of load to capacity, by cross products, the first of equals; its load is strictly below its capacity |
| Schedulers.WlcKeepsReserveIff | LoadBalancer/src/SchedulingAlgorithms/SchedWLC.cpp:29-43 | WLC keeps the reserve of its choice for all loads exactly when no capacity is less than half of one in front of it |
| Balancer.AlgorithmSelector.SelectServer | LoadBalancer/src/SchedulingAlgorithms/AlgorithmSelector.cpp:80-113 | the selector answers what its algorithm chooses, and only RR's counter moves |
| Balancer.LoadBalancer.ConnectRealServers | LoadBalancer/src/LoadBalancer/LoadBalancer.cpp:296-360 | the loop over the hosts stops at the first that is reachable and does not answer, and holds exactly the servers connected before it; it succeeds exactly when there is no such host and some server, and then the balancer is in an initial state |
| Balancer.PoolHolds | LoadBalancer/src/LoadBalancer/LoadBalancer.cpp:304-353 | the pool holds every connected server under its own host with its own limit and no load, and nothing else |
| Balancer.ThreeServers | LoadBalancer/src/LoadBalancer/LoadBalancer.cpp:300-353 | the three hosts are 127.0.0.2 to 127.0.0.4, at port 50000 |
| Balancer.LoadBalancer.HandleRequestFromClient | LoadBalancer/src/LoadBalancer/LoadBalancer.cpp:366-474 | every exit of the handler leaves exactly the state and status of the request event |
| Balancer.LoadBalancer.TakeMatch | LoadBalancer/src/LoadBalancer/LoadBalancer.cpp:521-532 | the first node under the target port with the target address leaves the request map, and nothing else does |
| Balancer.LoadBalancer.GetTarget | LoadBalancer/src/LoadBalancer/LoadBalancer.cpp:513-515 | a target field that the message lacks keeps the value of the previous response |
| Balancer.LoadBalancer.DropServer | LoadBalancer/src/LoadBalancer/LoadBalancer.cpp:456-463 | a failed server leaves all tables, and its load the ledger |
| Balancer.LoadBalancer.SendBack | LoadBalancer/src/LoadBalancer/LoadBalancer.cpp:546-566 | only a response that is written and whose client is closed lowers the load of its server |
| Balancer.LoadBalancer.HandleResultFromServer | LoadBalancer/src/LoadBalancer/LoadBalancer.cpp:481-567 | every exit of the handler leaves exactly the state and status of the response event |
| Balancer.LoadBalancer.CheckServer | LoadBalancer/src/LoadBalancer/LoadBalancer.cpp:603-638 | a server whose write or read fails is dropped and its node erased under the iterator, which then stands at the next node; any other stays and the iterator moves on |
| Balancer.LoadBalancer.HealthCheck | LoadBalancer/src/LoadBalancer/LoadBalancer.cpp:572-649 | the loop, which erases under its iterator, checks every server of the pool once and leaves exactly servers that replied; it does nothing exactly while requests wait |
| Balancer.LoadBalancer.Turn | LoadBalancer/src/LoadBalancer/LoadBalancer.cpp:95-186 | one turn of the event loop is one step of the state machine; a fatal status stops the loop |
| BalancerRuns.StepKeepsInv | LoadBalancer/src/LoadBalancer/LoadBalancer.cpp:366-649 | every event, with any failure, keeps the tables, the waiting requests, the deliveries, the debts, the loads and the ledger consistent |
| BalancerRuns.RunKeepsInv | LoadBalancer/src/LoadBalancer/LoadBalancer.cpp:95-186 | so does every run |
| Outcomes.PositionDeserves | LoadBalancer/src/LoadBalancer/LoadBalancer.cpp:417-421 | in every reachable state the scheduler finds a server exactly if one has spare capacity, and it is the one its algorithm stands for: first in turn, largest room, fewest connections, smallest ratio |
| Outcomes.RequestIsForwarded | LoadBalancer/src/LoadBalancer/LoadBalancer.cpp:451-473 | every request of a client, read and written without failure, goes to that server: one waiting node, one more load and one more reply owed there, and nothing else but the new connection and the counter |
| Outcomes.BrokenServerIsDropped | LoadBalancer/src/LoadBalancer/LoadBalancer.cpp:451-464 | if it cannot be written, exactly that server leaves the tables, with what it owes |
| Outcomes.RequestIsRefused | LoadBalancer/src/LoadBalancer/LoadBalancer.cpp:429-448 | without spare capacity, or with an address that is none, the client gets one reply, and servers, waiting requests and debts stay |
| Outcomes.RequestIsNotScheduled | LoadBalancer/src/LoadBalancer/LoadBalancer.cpp:373-427 | a connection that cannot be read or named stays open and unanswered; without servers, or if it cannot accept, the balancer stops |
| Outcomes.EndedServerIsDropped | LoadBalancer/src/LoadBalancer/LoadBalancer.cpp:486-507 | a server whose connection ended leaves the tables; with the last one the balancer stops |
| Outcomes.UnknownResponseIsDropped | LoadBalancer/src/LoadBalancer/LoadBalancer.cpp:513-540 | a response for a peer that does not wait changes nothing but the recorded target: its server keeps the load |
| Outcomes.ResponseIsDelivered | LoadBalancer/src/LoadBalancer/LoadBalancer.cpp:513-566 | otherwise the first node of the peer goes, its connection gets the response if that can be written, its descriptor is closed if that succeeds, and only then the server has one load less |
| Outcomes.HealthCheckSweeps | LoadBalancer/src/LoadBalancer/LoadBalancer.cpp:579-649 | if nobody waits, the check leaves precisely the servers that replied, each with its entry, and the balancer goes on exactly if there is one |
| Outcomes.HealthCheckWaits | LoadBalancer/src/LoadBalancer/LoadBalancer.cpp:572-578 | if somebody waits, it does nothing |
| Outcomes.ReachableIsSound | LoadBalancer/src/LoadBalancer/LoadBalancer.cpp:95-186 | every reachable state has what these laws ask for |
| BalancerRuns.DeliverSteps | LoadBalancer/src/LoadBalancer/LoadBalancer.cpp:546-566 | the three exits of a delivery differ in bookkeeping only: each is the failed one plus what succeeded after it |
| BalancerRuns.DeliverySafety | LoadBalancer/src/LoadBalancer/LoadBalancer.cpp:471-562 | in every reachable state the descriptors of waiting clients are open, distinct and not a server's; no connection is answered twice; every forwarded response went to the peer its target fields name |
| BalancerRuns.LoadLedger | LoadBalancer/src/LoadBalancer/LoadBalancer.cpp:451-562 | loads in the pool plus loads removed with servers equal waiting requests plus matched responses that failed, faults included; no load is negative; open and closed client descriptors add up to the connections, and no more were closed than responses forwarded |
| BalancerRuns.OpenIff | LoadBalancer/src/LoadBalancer/LoadBalancer.cpp:372-562 | connection by connection, in every reachable state: its descriptor is open exactly if no delivery to it closed it; a connection without a response has its descriptor |
| BalancerRuns.ForgottenForGood | LoadBalancer/src/LoadBalancer/LoadBalancer.cpp:383-562 | an open connection under which no request waits, such as one refused with 503 or one whose response could not be written, keeps its descriptor in every continuation of the run |
| BalancerRuns.StepOnDescriptors | LoadBalancer/src/LoadBalancer/LoadBalancer.cpp:366-649 | an event opens one new client descriptor, or delivers one response and closes at most its descriptor, or leaves all client descriptors alone |
| BalancerRuns.OnlyOptionsCanArrive | LoadBalancer/src/LoadBalancer/LoadBalancer.cpp:579-617 | if nobody waits, the message a checked server delivers is the reply to the check |
| BalancerRuns.HealthCheckReadsItsOwn | LoadBalancer/src/LoadBalancer/LoadBalancer.cpp:592-639 | a whole health check reads replies to its own requests only and removes precisely the servers whose socket failed |
| BalancerRuns.HealthCheckIsSafe | LoadBalancer/src/LoadBalancer/LoadBalancer.cpp:572-649 | in every reachable state in which its guard lets it proceed, no server owes a response that the check could steal |
| BalancerRuns.FaultFreeLedger | LoadBalancer/src/LoadBalancer/LoadBalancer.cpp:468-562 | in runs without faults the loads add up to the number of waiting requests |
| HonestRuns.ReachesAskerIff | LoadBalancer/src/LoadBalancer/LoadBalancer.cpp:523-532 | a response finds the node it answers exactly when no older node has the same peer |
| HonestRuns.FindsAsker | LoadBalancer/src/LoadBalancer/LoadBalancer.cpp:513-532 | with honest clients every arriving response finds the node of the client that it answers |
| HonestRuns.StepStaysHonest | LoadBalancer/src/LoadBalancer/LoadBalancer.cpp:366-649 | every event keeps that so, failures included |
| HonestRuns.ResponsesReachTheirAskers | LoadBalancer/src/LoadBalancer/LoadBalancer.cpp:366-649 | in every run in which responses name their askers and nobody asks again while waiting, each response forwarded went to the client that asked for it, and the next one will |
| HonestRuns.StraysIff | LoadBalancer/src/LoadBalancer/LoadBalancer.cpp:366-567 | for every run in which responses name their askers: at some point a response can be delivered to a client that it does not answer exactly when a request was forwarded for a peer that still waited for another one |
| HonestRuns.CanBeClosedIff | LoadBalancer/src/LoadBalancer/LoadBalancer.cpp:366-567 | with honest clients a connection can still be closed exactly when the balancer runs and some server owes its reply; so a client whose server was removed waits forever |
| EndToEnd.ReplyNamesClient | LoadBalancer/src/LoadBalancer/LoadBalancer.cpp:510-517 | the response to a request that states its client's address and port, whatever it asks for and whatever the server answers, names this client when it arrives |
| EndToEnd.ClientsGetTheirResponses | LoadBalancer/src/LoadBalancer/LoadBalancer.cpp:366-567 | the whole system, each response answering the request that was printed on its connection: responses can go astray exactly when a request is forwarded for a peer that still waits; otherwise every forwarded response of every run went to the client that asked for it, whatever fails |
| EndToEnd.ChildWork | LoadBalancer/src/RealServer/Server.cpp:671-703 | the round of a child replies to the request, telling the limit of its server if the text starts like a check |
| EndToEnd.HandshakeTellsLimit | LoadBalancer/src/LoadBalancer/LoadBalancer.cpp:307-344 | the number that the balancer reads out of the reply to its check is the limit of the server |
| EndToEnd.PoolHoldsLimits | LoadBalancer/src/LoadBalancer/LoadBalancer.cpp:304-353 | after a start the pool holds the limits of the servers themselves, each under its own host |
| CapacityRuns.RefusesIffFull | LoadBalancer/src/LoadBalancer/LoadBalancer.cpp:417-448 | 503 means that no server of the pool has spare capacity, and the other way round, for every algorithm |
| CapacityRuns.ChosenKeepsMargin | LoadBalancer/src/SchedulingAlgorithms/SchedWLC.cpp:24-47 | under the condition on the capacities the selected server can take one more request and keep the margin, for every algorithm |
| CapacityRuns.StepOnPool | LoadBalancer/src/LoadBalancer/LoadBalancer.cpp:417-649 | an event removes servers, lowers a load, or raises the load of the selected server by one |
| CapacityRuns.StepKeepsMargin | LoadBalancer/src/LoadBalancer/LoadBalancer.cpp:417-649 | every event keeps every server within the margin, under the condition |
| CapacityRuns.FloodOverruns | LoadBalancer/src/SchedulingAlgorithms/SchedLC.cpp:26-45 | if two capacities break the condition and the larger is in front, requests alone use up the margin of some server, whatever the other capacities are |
| CapacityRuns.MarginKeptIff | LoadBalancer/src/LoadBalancer/LoadBalancer.cpp:417-468 | capacity safety over all runs, exactly: RR, WRR, DH and SH always keep the reserve, WLC exactly if no capacity is more than twice another, LC exactly if none exceeds another by two or more; within its capacity WLC always keeps a server, LC exactly if no capacity exceeds another by three or more |
| Conversions.ConversionRoundTrip | LoadBalancer/include/HTTP/HTTPReader/HTTPReader.h:44-64 | every 32-bit number survives the way to text and back |
| Conversions.NumberIsRead | LoadBalancer/include/HTTP/HTTPReader/HTTPReader.h:44-64 | a number is read past spaces and up to the first other character, and cut off at the limits of an int |
| Conversions.NoNumberIsZero | LoadBalancer/include/HTTP/HTTPReader/HTTPReader.h:44-64 | a text without a number is read as 0 |
| HttpWriter.PackThenRead | LoadBalancer/src/HTTP/HTTPWriter/HTTPWriter.cpp:120-140 | a text without NUL that fits survives the fixed buffer |
| HttpWriter.PrintCIsPrint | LoadBalancer/src/HTTP/HTTPWriter/HTTPWriter.cpp:138-138 | for parts without NUL the formatted message is their concatenation |
| HttpWriter.HTTPWriter.ConstructHTTPMsg | LoadBalancer/src/HTTP/HTTPWriter/HTTPWriter.cpp:120-140 | the buffer holds the printed parts, each up to its first NUL, and the parts have grown by their ends of line |
| HttpWriter.HTTPWriter.Response | LoadBalancer/src/HTTP/HTTPWriter/ResponseMessage.cpp:28-36 | the header of a response consists of the two target lines |
| HttpWriter.HTTPWriter.ErrorMessage | LoadBalancer/include/HTTP/HTTPWriter/HTTPWriter.h:199-213 | the header of an error consists of the two target lines and an empty content length |
| HttpWriter.HTTPWriter.AcceptRequest | LoadBalancer/include/HTTP/HTTPWriter/HTTPWriter.h:235-439 | the three words and the five header lines of GET, HEAD, TRACE and OPTIONS requests, the source last |
| HttpWriter.HTTPWriter.ContentRequest | LoadBalancer/include/HTTP/HTTPWriter/HTTPWriter.h:310-368 | the same for PUT and POST, with type and length |
| HttpWriter.HTTPWriter.BareRequest | LoadBalancer/include/HTTP/HTTPWriter/HTTPWriter.h:457-504 | the same for DELETE and SERVERCHECK |
| HttpReader.HTTPReader.CheckStartLine | LoadBalancer/src/HTTP/HTTPReader/HTTPReader.cpp:185-202 | the queue holds the words of the start line |
| HttpReader.HTTPReader.CheckHeader | LoadBalancer/src/HTTP/HTTPReader/HTTPReader.cpp:208-222 | the queue holds the lines of the header |
| HttpReader.HTTPReader.ReadStartLine | LoadBalancer/src/HTTP/HTTPReader/HTTPReader.cpp:130-146 | the start line is the text before the first end of line |
| HttpReader.HTTPReader.ReadHeader | LoadBalancer/src/HTTP/HTTPReader/HTTPReader.cpp:150-165 | the header reaches to the first empty line after it |
| HttpReader.HTTPReader.ReadBody | LoadBalancer/src/HTTP/HTTPReader/HTTPReader.cpp:168-176 | the body reaches to the next end of line, and is empty without one |
| HttpReader.HTTPReader.Read | LoadBalancer/src/HTTP/HTTPReader/HTTPReader.cpp:125-178 | the three loops together compute the parse, for every message, including those too short for the unsigned loop bounds |
| HttpReader.HTTPReader.RespondBy | LoadBalancer/src/HTTP/HTTPReader/HTTPReader.cpp:281-318 | the switch over the methods prints the answer to the request |
| HttpReader.HTTPReader.ParseHTTPMsg | LoadBalancer/src/HTTP/HTTPReader/HTTPReader.cpp:231-327 | the state loop turns a wrong version into 505 and an unknown method into 405, and answers |
| HttpReader.HTTPReader.Start | LoadBalancer/src/HTTP/HTTPReader/HTTPReader.cpp:125-179 | reading and answering, for every message: the response, silence, or a read beyond the message |
| HttpReader.ResponseHandler.GetHeaderInfo | LoadBalancer/src/HTTP/HTTPReader/ResponseHandler.cpp:158-175 | a line splits at its first colon; without one the previous name and content stay |
| HttpReader.ResponseHandler.ReadHeaders | LoadBalancer/src/HTTP/HTTPReader/ResponseHandler.cpp:185-197 | the loop over the queue has the effect of handling line after line |
| HttpReader.ResponseHandler.HandleHeaders | LoadBalancer/src/HTTP/HTTPReader/ResponseHandler.cpp:183-206 | an unknown header makes it prepare a 400, addressed to the source of the request |
| HttpReader.ResponseHandler.GetResponse | LoadBalancer/src/HTTP/HTTPReader/ResponseHandler.cpp:222-295 | the answer to GET for every outcome of the file operation |
| HttpReader.ResponseHandler.HeadResponse | LoadBalancer/src/HTTP/HTTPReader/ResponseHandler.cpp:310-385 | the same for HEAD: the length of the content without the content |
| HttpReader.ResponseHandler.PutResponse | LoadBalancer/src/HTTP/HTTPReader/ResponseHandler.cpp:402-473 | the same for PUT |
| HttpReader.ResponseHandler.PostResponse | LoadBalancer/src/HTTP/HTTPReader/ResponseHandler.cpp:491-508 | the same for POST |
| HttpReader.ResponseHandler.TraceResponse | LoadBalancer/src/HTTP/HTTPReader/ResponseHandler.cpp:526-541 | the same for TRACE |
| HttpReader.ResponseHandler.OptionsResponse | LoadBalancer/src/HTTP/HTTPReader/ResponseHandler.cpp:555-570 | the same for OPTIONS |
| HttpReader.ResponseHandler.DeleteResponse | LoadBalancer/src/HTTP/HTTPReader/ResponseHandler.cpp:585-665 | the same for DELETE |
| HttpReader.ResponseHandler.ServerCheckResponse | LoadBalancer/src/HTTP/HTTPReader/ResponseHandler.cpp:680-692 | the answer to SERVERCHECK carries the limit as its body |
| HttpReader.ResponseHandler.ErrorResponse | LoadBalancer/src/HTTP/HTTPReader/ResponseHandler.cpp:703-712 | an error is answered as that error, whatever the header lines say |
| Messages.PiecesAreFree | LoadBalancer/src/HTTP/HTTPReader/HTTPReader.cpp:185-222 | the words of any start line have no blank, the lines of any header no end of line |
| Messages.PiecesJoin | LoadBalancer/src/HTTP/HTTPReader/HTTPReader.cpp:185-222 | joined they give the text back |
| Messages.StartLineOutcome | LoadBalancer/src/HTTP/HTTPReader/HTTPReader.cpp:125-146 | for any message: when there is no start line, and when the unsigned loop bounds run beyond the message |
| Messages.NoHeaderOutcome | LoadBalancer/src/HTTP/HTTPReader/HTTPReader.cpp:150-165 | and when there is no header |
| Messages.PartsOutcome | LoadBalancer/src/HTTP/HTTPReader/HTTPReader.cpp:130-176 | otherwise start line, header and body are the texts between the first end of line, the first empty line after it and the next end of line |
| Messages.FieldOutcome | LoadBalancer/src/HTTP/HTTPReader/ResponseHandler.cpp:158-175 | for any header line: without a colon the fields stay, one that ends with its first colon cannot be read, of any other one character after the colon is skipped |
| Messages.HandleFailsIff | LoadBalancer/src/HTTP/HTTPReader/ResponseHandler.cpp:185-197 | handling header lines fails exactly if one of them ends with its first colon |
| Messages.ReaderAnswersIff | LoadBalancer/src/HTTP/HTTPReader/HTTPReader.cpp:125-327 | exactly which messages are answered, which are passed over in silence, and which the reader does not survive |
| Messages.ExtractGives | LoadBalancer/include/LoadBalancer/LoadBalancer.h:59-78 | for any message: the extractor gives the text between the first occurrence of the name and the next end of line |
| Messages.ExtractKeeps | LoadBalancer/include/LoadBalancer/LoadBalancer.h:59-78 | where either is missing, the content stays |
| Answers.RequestIsSpelled | LoadBalancer/include/HTTP/HTTPWriter/HTTPWriter.h:235-504 | the requests of the method writers, as they are spelled |
| Answers.GetIsAnswered | LoadBalancer/src/HTTP/HTTPReader/ResponseHandler.cpp:222-295 | from the printed GET to the printed response: 200 with type, length and text of the file, or 404, 401 or 500 |
| Answers.HeadIsAnswered | LoadBalancer/src/HTTP/HTTPReader/ResponseHandler.cpp:310-385 | the same for HEAD, without the text |
| Answers.PutIsAnswered | LoadBalancer/src/HTTP/HTTPReader/ResponseHandler.cpp:402-473 | PUT: 201 with the location in the header and as the body, or 401 or 500 |
| Answers.PostIsAnswered | LoadBalancer/src/HTTP/HTTPReader/ResponseHandler.cpp:491-508 | POST: 200 with the first line of the body, which is in stock, and a length that counts one more |
| Answers.TraceIsAnswered | LoadBalancer/src/HTTP/HTTPReader/ResponseHandler.cpp:526-541 | TRACE: 200 with the whole request |
| Answers.OptionsIsAnswered | LoadBalancer/src/HTTP/HTTPReader/ResponseHandler.cpp:555-570 | OPTIONS: 200 with the list of methods |
| Answers.DeleteIsAnswered | LoadBalancer/src/HTTP/HTTPReader/ResponseHandler.cpp:585-665 | DELETE: 200 with the message that the file is deleted, or 401, 404, 414 or 500 |
| Answers.CheckIsAnswered | LoadBalancer/src/HTTP/HTTPReader/ResponseHandler.cpp:680-692 | SERVERCHECK: 200 with the limit |
| Answers.UnknownHeaderIsBad | LoadBalancer/src/HTTP/HTTPReader/ResponseHandler.cpp:183-206 | a header line that the method does not understand, anywhere in the request: 400, and nothing is done |
| Answers.WrongVersionIsNotSupported | LoadBalancer/src/HTTP/HTTPReader/HTTPReader.cpp:246-270 | any other version: 505, whatever the method and the header lines |
| Answers.UnknownMethodIsNotAllowed | LoadBalancer/src/HTTP/HTTPReader/HTTPReader.cpp:272-280 | any other method: 405, but for the reader's own name for errors, which gets an empty status |
| Answers.RefusalIsSpelled | LoadBalancer/src/RealServer/Server.cpp:380-401 | the refusal of a server without a free child, as it is spelled: 503 without content |
| Routing.GetHeaderInfo | LoadBalancer/include/LoadBalancer/LoadBalancer.h:59-78 | the extractor returns the text between the first occurrence of the target and the next end of line; otherwise its output parameter keeps its value |
| Routing.ParserUndoesPrinter | LoadBalancer/src/HTTP/HTTPReader/HTTPReader.cpp:125-222 | parsing a printed message gives back its words, its header lines in order and its body |
| Routing.PrintedParses | LoadBalancer/src/HTTP/HTTPReader/HTTPReader.cpp:125-179 | whatever the words and the body contain, the parser finds start line and header of a printed message, and reads the body up to its first end of line |
| Routing.SplitsLine | LoadBalancer/src/HTTP/HTTPReader/ResponseHandler.cpp:158-175 | splitting a printed header line recovers its name and value |
| Routing.SourceBecomesTarget | LoadBalancer/src/HTTP/HTTPReader/ResponseHandler.cpp:124-206 | whatever header lines come first, the source lines of a request set the target of its response |
| Routing.ReplyIsResponse | LoadBalancer/src/HTTP/HTTPReader/HTTPReader.cpp:125-327 | every printed request, with blanks in its words and any body, gets past the parser to the handler that its start line asks for |
| Routing.RoutingRoundTrip | LoadBalancer/include/LoadBalancer/LoadBalancer.h:59-99 | for every printed request, blanks in its words and bodies of many lines included, every answer to it and every outcome of the file system, the balancer extracts the source of the request as the target |
| Routing.PortReadIff | LoadBalancer/include/LoadBalancer/LoadBalancer.h:95-98 | the port is read right exactly unless the address spells the name of the port line and goes on differently |
| Routing.CapacityHandshake | LoadBalancer/src/LoadBalancer/LoadBalancer.cpp:315-344 | the limit that a server sends in answer to SERVERCHECK is the number that the balancer records |
| Refusals.Refuse | LoadBalancer/src/RealServer/Server.cpp:380-401 | the branch prints a 503 addressed to what the server finds in the request |
| Refusals.ExtractPast | LoadBalancer/include/RealServer/Server.h:56-76 | searching a text that gives a value under a name returns what the text before says under that name, if anything, and otherwise the value |
| Refusals.RefusalRoundTrip | LoadBalancer/src/RealServer/Server.cpp:380-401 | for every printed request the balancer reads in the refusal what the server found in the request |
| Refusals.RefusalReadIff | LoadBalancer/include/RealServer/Server.h:83-96 | that is the source of the request exactly unless something before it spells the name of its line and goes on differently |
| ChildPool.Server.PreFork | LoadBalancer/src/RealServer/Server.cpp:177-181 | the pre-forked children stand at their indices, free and without timer, and the invariant holds |
| ChildPool.Server.ForkChild | LoadBalancer/src/RealServer/Server.cpp:786-826 | a child joins at the end, or nothing changes, and which failure decides it |
| ChildPool.Server.AddTimer | LoadBalancer/src/RealServer/Server.cpp:411-434 | the new timer is in the set and with the child at the position |
| ChildPool.Server.CountChildren | LoadBalancer/src/RealServer/Server.cpp:321-335 | the loop counts the free children and finds the first one |
| ChildPool.Server.Grow | LoadBalancer/src/RealServer/Server.cpp:355-378 | the new child is the one that gets the timer and the request; and what each failure half-way leaves behind |
| ChildPool.Server.HandleRequestFromClient | LoadBalancer/src/RealServer/Server.cpp:297-404 | the first free child gets the request, else a new one, else it is refused; which failures are fatal, and the state they leave |
| ChildPool.Server.HandleResponseFromChild | LoadBalancer/src/RealServer/Server.cpp:441-493 | a finish message frees the child at the sender's index, or reads beyond the vector; at end of file the child is kept from getting work |
| ChildPool.Server.HandleChildTimeOut | LoadBalancer/src/RealServer/Server.cpp:499-534 | the first temporary child with the timer is erased |
| ChildPool.Server.UpdateChild | LoadBalancer/src/RealServer/Server.cpp:737-779 | the replaced child keeps its index; and what a failed replacement leaves of the dead one |
| ChildPool.Server.ServerSigHandler | LoadBalancer/src/RealServer/Server.cpp:543-620 | a dead pre-forked child is replaced, a dead temporary one erased; which signals and failures stop the server, and the state they leave |
| PoolOutcomes.RequestGoesToFirstFree | LoadBalancer/src/RealServer/Server.cpp:321-352 | the first free child, and no other, gets a request |
| PoolOutcomes.RequestNeedsNewChild | LoadBalancer/src/RealServer/Server.cpp:355-404 | if none is free, a new child at the end gets it, under the next index and with its timer; if the pool is full, nothing changes |
| PoolOutcomes.EofEndsWork | LoadBalancer/src/RealServer/Server.cpp:453-468 | every child at the end of the pipe is kept from getting work, and nobody else changes |
| PoolOutcomes.TimeOutRemovesTheFirst | LoadBalancer/src/RealServer/Server.cpp:499-534 | the alarm of a timer removes the first temporary child that has it and its timer, keeping the others in order; an unknown timer removes nobody |
| PoolOutcomes.DeathOutcome | LoadBalancer/src/RealServer/Server.cpp:560-607 | a dead child is replaced in its place by a free one, or removed with its timer; an unknown one changes nothing |
| PoolOutcomes.CounterStaysIff | LoadBalancer/src/RealServer/Server.cpp:355-378 | a growth that fails half-way leaves counter and pool in agreement exactly if no process was forked |
| PoolOutcomes.CountsFree | LoadBalancer/src/RealServer/Server.cpp:321-335 | the counter of free children is the number of their positions |
| ChildPool.TimeOutRemovesOne | LoadBalancer/src/RealServer/Server.cpp:499-534 | a timer of the set belongs to one temporary child, and its alarm removes that child and nothing else |
| ChildPool.DeathHitsTheChild | LoadBalancer/src/RealServer/Server.cpp:560-607 | the death of a child replaces or removes exactly that child |
| ChildPool.StepKeepsInv | LoadBalancer/src/RealServer/Server.cpp:297-620 | every event keeps the invariant: the counter is the size, five pre-forked children at their indices without timer, every later child with position at most its index and index below the limit, and the timer set is that of the temporary children; only a finish message can fail |
| ChildPool.RunKeepsInv | LoadBalancer/src/RealServer/Server.cpp:200-282 | so does every run that stays inside the vector |
| ChildPool.FinishHitsSenderIff | LoadBalancer/src/RealServer/Server.cpp:470-473 | one finish message frees its sender exactly when the sender stands at its index; otherwise it frees a later child or leaves the vector (for runs, see ChildRuns) |
| ChildRuns.StaysInVectorIff | LoadBalancer/src/RealServer/Server.cpp:200-282 | for every legal run from an aligned pool: at some point, requests and deaths that are due can lead to a child that has work and whose finish message leads the server out of its vector, exactly when at some point a temporary child that is not the last one is removed or closed, or the last one is closed while the pool may grow; otherwise the run ends, aligned |
| ChildRuns.SendersAreHitIff | LoadBalancer/src/RealServer/Server.cpp:200-282 | the same condition decides whether every finish message frees the child that sends it |
| ChildRuns.StepKeepsGood | LoadBalancer/src/RealServer/Server.cpp:297-620 | in an aligned pool every event keeps belief and work in step: a child is free in the eyes of the server exactly if it has no work and is not closed |
| ChildRuns.RemovalLeaves | LoadBalancer/src/RealServer/Server.cpp:499-534 | after the removal of a temporary child that is not the last one, requests and due deaths can lead out of the vector |
| ChildRuns.DeadInsideLeaves | LoadBalancer/src/RealServer/Server.cpp:453-468 | so they can when a closed temporary child is not the last one, or is, and the pool may grow behind it |
| ChildPool.EraseAlignedIff | LoadBalancer/src/RealServer/Server.cpp:520-527 | removing a temporary child keeps index and position equal exactly when it is the last one of an aligned pool |
| ChildPool.OthersKeepAligned | LoadBalancer/src/RealServer/Server.cpp:297-493 | no other event changes whether index and position agree |
| ChildPool.LastChildLeavesVector | LoadBalancer/src/RealServer/Server.cpp:470-482 | once another temporary child of an aligned pool is removed, the last child leads the server out of its vector when it finishes |
| ChildPool.VectorCanBeLeft | LoadBalancer/src/RealServer/Server.cpp:441-534 | a legal run from a fresh start does so |
| Caches.LRUCache.PutElement | LoadBalancer/include/ClientManager/Cache.h:102-122 | the list and the table change as one: they agree and stay within the capacity |
| Caches.LRUCache.GetElement | LoadBalancer/include/ClientManager/Cache.h:128-133 | reading moves the key to the front; a missing key gets a default element |
| Caches.LRUCache.MoveToFront | LoadBalancer/include/ClientManager/Cache.h:168-175 | the key is in front and the order of the others is kept |
| Caches.LruPut | LoadBalancer/include/ClientManager/Cache.h:102-122 | a put element is cached with its value, the capacity is kept, and every other key that stays keeps its value |
| Caches.LruPutOrder | LoadBalancer/include/ClientManager/Cache.h:102-122 | a put key comes to the front, whether it was cached or not, and the others keep their order; only a full cache drops its last key, and only for a new one |
| Caches.LruGet | LoadBalancer/include/ClientManager/Cache.h:128-133 | reading keeps the capacity exactly when the key is cached or there is room |
| Caches.LruGetOrder | LoadBalancer/include/ClientManager/Cache.h:128-133 | reading a cached key moves it to the front, the others keep their order, and no element changes |
| Caches.SizesAgree | LoadBalancer/include/ClientManager/Cache.h:112-112 | the size of the table, which the code compares with the capacity, is the length of the list |
| Caches.LruStack | LoadBalancer/include/ClientManager/Cache.h:102-196 | after every sequence of reads and puts, where a put may meet a cached key, a cache of capacity c lists the first c keys of one recency order, the same for all c |
| Caches.LruInclusion | LoadBalancer/include/ClientManager/Cache.h:102-196 | so a larger cache holds what a smaller one holds and never has fewer hits |
| Caches.LruServesLatest | LoadBalancer/include/ClientManager/Cache.h:102-196 | after every such sequence the cache holds under each of its keys what that key was given last |
| Caches.FIFOCache.PutElement | LoadBalancer/include/ClientManager/Cache.h:255-271 | the list and the table change as one: they agree and stay within the capacity |
| Caches.FIFOCache.GetElement | LoadBalancer/include/ClientManager/Cache.h:246-249 | reading leaves the list alone; a missing key gets a default element in the table only |
| Caches.FifoGet | LoadBalancer/include/ClientManager/Cache.h:246-249 | list and table still agree after reading exactly when the key was cached; all elements stay |
| Caches.FifoPut | LoadBalancer/include/ClientManager/Cache.h:255-271 | a put element is cached with its value, the capacity is kept, and every other key that stays keeps its value |
| Caches.FifoWindow | LoadBalancer/include/ClientManager/Cache.h:255-302 | after every sequence of reads and puts a FIFO cache holds precisely the keys that were latest missing when accessed, oldest first |
| Caches.FifoAnomaly | LoadBalancer/include/ClientManager/Cache.h:255-302 | FIFO has no inclusion property: for all sizes with small < large < 2 * small - 1 there is a trace on which the larger cache misses more often |
| Caches.LeadSuffices | LoadBalancer/include/ClientManager/Cache.h:255-302 | as long as a lead of the large cache covers the keys that it evicts too early, it never falls behind the small one on any trace |
| Caches.FifoTwiceIsSafe | LoadBalancer/include/ClientManager/Cache.h:255-302 | a FIFO cache of at least twice the size, less one, never misses more often, on any trace |
| Caches.FifoNeverWorseIff | LoadBalancer/include/ClientManager/Cache.h:255-302 | a larger FIFO cache never misses more often on any trace exactly when it is at least twice as large, less one |
| Clients.ClientManager.ListSocket | LoadBalancer/src/ClientManager/ClientManager.cpp:211-213 | the locked section that lists a socket |
| Clients.ClientManager.Ask | LoadBalancer/src/ClientManager/ClientManager.cpp:241-268 | the locked section that asks the cache: a hit is counted, for a miss the request is built with the thread's own port |
| Clients.ClientManager.Store | LoadBalancer/src/ClientManager/ClientManager.cpp:282-284 | the locked section that puts a reply keeps the cache consistent and within its capacity |
| Clients.ClientManager.Leave | LoadBalancer/src/ClientManager/ClientManager.cpp:290-293 | the locked section of a leaving thread |
| Clients.SectionsAreMethods | LoadBalancer/src/ClientManager/ClientManager.cpp:199-294 | the single steps of a section add up to its method |
| Clients.OthersCommute | LoadBalancer/src/ClientManager/ClientManager.cpp:199-294 | while a thread is in a section, the steps of all others commute with its own and leave the shared data alone, so interrupted sections are as good as uninterrupted ones |
| Clients.StepKeepsInv | LoadBalancer/src/ClientManager/ClientManager.cpp:199-294 | every step of every thread keeps mutual exclusion, the ownership of the shared port and message, the requests written so far, the cache and the counter consistent |
| Clients.ThreadSafety | LoadBalancer/src/ClientManager/ClientManager.cpp:84-95 | in every interleaving each request carries the port of its own connection, the counter is zero exactly when all threads have finished, each of them having hit the cache or written one request by then, and the cache holds at most three methods |
| Clients.RequestsAreAsGiven | LoadBalancer/src/ClientManager/ClientManager.cpp:199-268 | in every interleaving each request goes to the connection that the system gave to its thread, with the port that the system told that thread and the method that it drew |
| Clients.CachedIsRead | LoadBalancer/src/ClientManager/ClientManager.cpp:241-284 | in every interleaving the cache holds for a method what the last thread that put a reply to it has read from its own connection, after asking for that method |
| Clients.LeavingUnlistsIff | LoadBalancer/src/ClientManager/ClientManager.cpp:209-293 | for every legal run: at some point the connected threads can go on to a state in which one of them works on a socket that is not listed, exactly when some connection of the run was given a descriptor between its closing and the locking of the thread that closed it |
| Clients.SocketsAreListed | LoadBalancer/src/ClientManager/ClientManager.cpp:209-293 | in every run without such a connection every socket in use is listed, in every interleaving |
| Clients.TwoThreadsCanUnlist | LoadBalancer/src/ClientManager/ClientManager.cpp:286-293 | from every start with at least two threads a legal run leads to a thread that works on a socket that is not listed |
| Clients.StepKeepsListInv | LoadBalancer/src/ClientManager/ClientManager.cpp:199-294 | every step other than such a connection keeps all sockets in use listed, and descriptors apart but for a thread inside its leaving section and one that has not listed its socket yet |

## Left out

- Schedulers.SchedRR.SelectServer: does not model the wrap-around of the static `int` counter; the counter is unbounded.
- Schedulers.SchedWLC.SelectServer: does not model 32-bit overflow of the two products.
- Schedulers.SchedHash.SelectServer: one class for DH and SH, which run the same code on another address; `inet_pton` is the input `handleIp`.
- Balancer.AlgorithmSelector.SelectServer: the algorithm and the address are explicit inputs, because the source initialises its `sched_type_` from itself and its balancer never sets an address.
- Balancer.LoadBalancer.ConnectRealServers: the number a server answered with is an input; `EndToEnd.PoolHoldsLimits` ties it to the server's limit. A descriptor that stays open after a failure is not modelled.
- Outcomes.RequestIsRefused: counts the reply to a refused client; the text of the balancer's own 503 or 500 is not modelled.
- Balancer.LoadBalancer.TakeMatch: the multimap is a sequence of nodes in order of insertion, so that the nodes of one port are the subsequence with that port.
- HonestRuns.StraysIff: takes from its events that responses name their askers; `EndToEnd.ClientsGetTheirResponses` derives it for requests that state the address and port under which the balancer knows their client.
- HonestRuns.CanBeClosedIff: is about honest clients; where clients ask again while they wait, a response that goes astray may close a connection that nobody owes a reply, except for those of `BalancerRuns.ForgottenForGood`.
- HttpReader.HTTPReader.Start: requires that the responses it prints fit into the buffer; the overflow of a longer one is not modelled. Reads beyond a message of one or three characters, or beyond a header line that ends with its colon, are outcomes, without saying what happens then.
- HttpReader.ResponseHandler.GetResponse: opening, locking, reading, writing and removing files are reduced to an outcome and a text. The text is what the buffer holds after reading, up to 3000 characters of the file without the last one; reading an empty file, or one that fills the buffer, is not modelled.
- HttpReader.ResponseHandler.ErrorResponse: the 400 that the header handling prints into the buffer before this answer overwrites it is not printed.
- Routing.RoutingRoundTrip: the body of a TRACE answer is not parsed back; it holds ends of line and the reader stops at the first.
- ChildPool.Server.HandleResponseFromChild: a child of the pool sends the message; what `operator[]` does beyond the vector is the status `UNDEFINED`.
- ChildRuns.StaysInVectorIff: a request to a child that the server wrongly believes free counts as work of that child, also if it is closed; that the write may then fail is not modelled.
- ChildPool.RunKeepsInv: lets any child of the pool send a finish message, which `ChildRuns` restricts to children with work; the order of end of file and SIGCHLD, events of one epoll batch that a former event has made stale, and the state after a fatal error are not modelled.
- Clients.LeavingUnlistsIff: closing a socket and giving out its descriptor again are steps of this machine only; other descriptors of the process are not modelled.
- Clients.ThreadSafety: threads are numbered steps of a state machine, not thread objects; a hit does not move its key to the front, which the source does in debug builds only. Connection errors end the process and are not modelled.
- The iteration order of the server pool is an input of each event, any order of the keys; the round robin theorems assume that it stays the same while the keys do.
- The eight-argument constructor of `ResponseMessage` and the append methods that no caller of the modelled code uses.
- Sockets, epoll, signalfd, timerfd, fork, socketpair, region locks, the daemon and its pid file, beyond the success or failure of a call.
- The shutdown paths, the listing and debug output, error texts, the current time and `sleep`.
- The `Server/` project, which repeats the real server with descriptors passed between processes, and the `ClientManager/` project with its further clients and servers, which have no table, ledger or cache of their own.
