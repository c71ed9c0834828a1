# npapi-mdns: a verified model

The repository is a browser plug-in that shows mDNS services.  This project models and
proves the parts of it whose correctness is not visible from one function:

* **The browser thread** (`project/plugin/src/browser.cc`) runs a table-driven state machine
  and talks to its client (`mdnsbrowser.cc`) over two queues (`queue.cc`).  `Fsm` is the
  machine, the queues and the client on values; `FsmInvariant` is what every state of every
  run keeps; `FineRuns` lets the client call between any two queue operations and shows that
  this adds nothing; `CleanExit` is the drain after a clean exit, iteration by iteration; `Liveness`
  says when the thread ends and whether it destroys the queues; `GoingOn` is about clients that
  break the rules of the exit; `Serving` is the thread at work, from the first attempt to
  connect to what the client reads; `Browser` is the thread and
  the client with their objects, loops and heap queues, proved to do what `Fsm` says.
* **The queue** is a linked list changed in place.  `Queues` is the heap list; `Deque` is the
  sequential queue that it implements; `QueueThreads` runs several threads on one queue, C
  statement by C statement, over an explicit heap in which a freed cell must not be touched.
* **The selector engine** shipped with the extension (`jquery.js`, the Sizzle part).  `Dom` is
  the document, `MemoWalk` the walks that stamp nodes to reuse earlier answers, `Selector` the
  greedy right-to-left fold over descendant and child combinators and when it is complete,
  `SizzleParts` what a selector means and what of it the fold keeps, `SizzleLoop` the main loop
  in place on its check set, on any tree, `NthChild` the cached sibling index.
* **Element data** (`jquery.js`): `JQueryData` is `data`, `removeData` and `unique`.
* **Line framing** (`project/plugin_g2/src/sb.cc`): `Framing` is `popmsg`.

D-Bus, the socket and the try-locks are inputs: a run is given as a list of steps that say
whose turn it is and what the foreign calls answer, and the theorems hold for all of them.
`Messages` and `Wrappers` are the message type and the option type.

## Where the code does not keep the obvious promise

For each of these there is a lemma with the exact condition under which the promise is kept,
or, where that condition is a contract named here already, one with an input that breaks it.

* The first message the thread takes is thrown away in `ST_START`.  A client that releases
  before the thread has looked at its queue is never noticed (`ReleaseTooEarly`); in general
  the thread ends if and only if an exit command is among the messages behind the first one
  (`EndsExactlyWhen`).
* A plain exit command in front of the clean one ends the thread without destroying the
  queues: they are destroyed if and only if the first pending exit command is the clean one
  (`ExitIsReached`, and `PlainExitLeaks` for a run in which they are not).
* While the dispatch keeps reporting a disconnection, a thread that still has its connection
  never reads its queue (`DisconnectedIsDeaf`).  An exit command behind `p` messages is obeyed
  if and only if the thread has looked at its queue more than `p` times (`ReadExactlyWhen`),
  and one at the front, with a connection, if and only if some dispatch goes well
  (`ObeyedExactlyWhen`).
* A client that goes on after the clean-exit command, which the comment at the head of
  `browser.cc` forbids and `release` does not allow, can break the drain in three ways
  (`GoingOn`, with the client's calls between any two queue operations):
  - The first flush finds no marker in front of either queue, because something else is there
    or the client holds the mutex: the thread takes the catch-all row and starts over
    (`TrapExactlyWhen`, `StartsOverExactlyWhen`, and `GoingOnStartsOver` for a run).
  - It finds both, because the client took `EXITED` itself: the thread ends and destroys
    neither queue (`TrapExactlyWhen`, `GoingOnLeaks`).
  - It finds one, and no flush ever finds the other: the thread waits for ever.  Left alone it
    ends and destroys the queues if and only if a marker is at an odd place of the in-queue,
    since the pump takes the even ones, or anywhere on the out-queue (`DrainEndsExactlyWhen`,
    `QuietEndsExactlyWhen`).  With a client that goes on calling, a marker on the out-queue
    ends the drain if and only if a flush takes it and not the client (`OutMarkerDecides`,
    `GoingOnTakesTheMarker`), and one on the in-queue if and only if a flush takes it and not
    the pump (`InMarkerDecides`, `FateByParity`, `GoingOnIsEaten`).

  A drain that does end destroys the queues under such a client (`GoingOnIsCutOff`).
* In the sibling direction the memoised walk stamps its start elements too, so an element
  that matches and starts a walk can hide itself from the next one: `p ~ p` finds nothing for
  the second of two neighbouring paragraphs (`NeighbouringMatchIsStale`).  `Scan` says for
  every entry where its answer comes from, `WrongExactlyWhen` tells the wrong entries from the
  check set alone, and
  `AnswersAreHits` that a wrong answer only misses: it never names a node that does not match.
* The fold over a selector never goes back on a nearest ancestor that it has chosen, so it is
  complete exactly for selectors in which no child combinator stands left of a descendant one
  (`CompleteExactlyWhenSafe`, and `RightExactlyWhenSafe` for the loop); `a > b c` misses
  matches (`MissedMatch`).
* A child step from a topmost node, as on a detached tree, is an error where the part is a
  name (`RaisesExactlyWhen`).  Any other part leaves null in the check set, at which the later
  loops stop, so that the candidates behind are lost without an error: the outcome is right if
  and only if there is no error and no candidate that matches stands behind one that steps off
  the tree (`RightOnTreeExactlyWhen`, and `LostBehindNull` for an input).  On every tree the
  loop is right exactly for selectors without a child combinator (`RightEverywhereExactlyWhen`);
  in a document there is no such step as long as the parts pass elements only
  (`AttachedNeverSteps`).
* `removeData` takes the empty name for the end of its enumeration and then drops everything
  (`RemoveData`, and `EmptyNameDropsAll` for a sequence of calls).
* Lines that are complete when the peer closes are lost (`DeliveredExactlyWhen`), and a caller
  cannot tell an empty line from no line (`CallerSees`, `EmptyLineIsNoLine`).

## Model

| member | source | states |
|---|---|---|
| Deque.FifoConservation | project/plugin/src/queue.cc:223-257 | over any history of put and get, what went in is what came out followed by what is left, in order |
| Deque.DequeConservation | project/plugin/src/queue.cc:574-609 | with put_head as well, every item is still kept or taken exactly once |
| Queues.Queue.PutSafe | project/plugin/src/queue.cc:223-257 | the list stays well formed and its contents get the item at the end; a failed allocation changes nothing and returns 0 |
| Queues.Queue.PutHeadSafe | project/plugin/src/queue.cc:574-609 | the same at the front |
| Queues.Queue.GetSafe | project/plugin/src/queue.cc:374-416 | the front item is removed and returned, or NULL; the audit loop ends and never finds a mismatch |
| Queues.Queue.constructor | project/plugin/src/queue.cc:40-76 | a new queue is a well-formed empty list |
| Queues.Queue.Destroy | project/plugin/src/queue.cc:91-107 | ends the life of a queue; what is still in it is lost |
| Queues.QueueDestroy | project/plugin/src/queue.cc:91-107 | the same, and nothing for a null queue |
| Queues.QueuePut | project/plugin/src/queue.cc:118-136 | appends; 0 for a null queue, a null item or a failed allocation, and then nothing changes |
| Queues.QueuePutNb | project/plugin/src/queue.cc:148-164 | the same, and -1 and no change when the mutex is taken |
| Queues.QueuePutHead | project/plugin/src/queue.cc:498-514 | prepends, with the same error cases |
| Queues.QueuePutHeadNb | project/plugin/src/queue.cc:467-484 | the same, and -1 and no change when the mutex is taken |
| Queues.QueueGet | project/plugin/src/queue.cc:266-280 | removes and returns the front, NULL if there is none |
| Queues.QueueGetNb | project/plugin/src/queue.cc:288-304 | the same; a taken mutex also gives NULL and changes nothing |
| QueueThreads.AuditRuns | project/plugin/src/queue.cc:401-411 | on a well-formed list the counting loop terminates, uses no dangling pointer and counts in minus out |
| QueueThreads.SectionFinishes | project/plugin/src/queue.cc:223-257 | run statement by statement on its own, each critical section ends with the list and the answer of the sequential operation |
| QueueThreads.Linearizable | project/plugin/src/queue.cc:118-164 | in every state of every interleaving: no dangling pointer was used, one thread at most is inside, all answers so far are those of the sequential queue run in lock order, and when the mutex is free the cells form the list with exactly its contents |
| QueueThreads.OwnerReachesUnlock | project/plugin/src/queue.cc:266-304 | whoever owns the mutex reaches the unlock within finitely many of its own statements, with the right list and answer |
| QueueThreads.NobodyIsStuck | project/plugin/src/queue.cc:118-164 | in every state of every interleaving each thread can go on, and only one that waits for the mutex has to wait, for an owner that can go on |
| QueueThreads.RefusedOnlyWhenTaken | project/plugin/src/queue.cc:148-164 | a try-lock gives up only while another thread has the mutex, which changes nothing, and a blocking form never does |
| Fsm.SearchIsChoice | project/plugin/src/browser.cc:123-158 | for every state and event, the first row of the table that matches, its next state and its action |
| Fsm.LeadsTo | project/plugin/src/browser.cc:123-158 | for every state, exactly which states and events lead into it |
| Fsm.EnteredWith | project/plugin/src/browser.cc:123-158 | every state is entered with its own action |
| Fsm.MessagesMean | project/plugin/src/browser.cc:254-278 | the four message types that mean something to the thread, and what |
| Fsm.AnythingGoes | project/plugin/src/mdnsbrowser.cc:45-97 | what a run allows: any call of a client that holds the channel except the clean-exit command, which only release sends, and any outcome of the foreign calls |
| Serving.WaitConnectsExactlyWhen | project/plugin/src/browser.cc:137-140 | a waiting thread tries to connect iff it looks at its queue and finds a reconnect in front, and has a connection then iff D-Bus gives one |
| Serving.ReconnectIsObeyed | project/plugin/src/browser.cc:125-140 | with a reconnect in front and a look at the queue, the next iteration but one serves iff D-Bus gave a connection and waits without one otherwise, whatever the client calls |
| Serving.ServeIgnoresReconnect | project/plugin/src/browser.cc:135 | a serving thread takes a reconnect and goes on with the same connection |
| Serving.ServeEndsExactlyWhen | project/plugin/src/browser.cc:132-135 | it stops serving iff the dispatch reports a disconnection or it takes an exit command |
| Serving.ConnectSays | project/plugin/src/browser.cc:523-574 | which message the client gets for which way an attempt fails |
| Serving.SignalsArrive | project/plugin/src/browser.cc:243-247 | what D-Bus signals reaches the out-queue in order while there is a connection |
| Serving.RunToServe | project/plugin/src/browser.cc:287-343 | a whole run: a failed attempt, a reconnect that succeeds, a signal, and the client reads it |
| FsmInvariant.CallsMoveBehind | project/plugin/src/mdnsbrowser.cc:62-97 | a client call that falls among the worker's pushes to the out-queue has the effect of one behind them; a pop that finds nothing is then one that finds the queue busy |
| FineRuns.IterationAtOnce | project/plugin/src/browser.cc:287-343 | an iteration with client calls between any two of its queue operations ends where an iteration without them ends, followed by calls |
| FineRuns.FineRunIsRun | project/plugin/src/browser.cc:287-343 | every run at the grain of single queue operations ends where a run of whole iterations ends |
| FineRuns.FineRunIsSafe | project/plugin/src/browser.cc:123-158 | so in those runs too the catch-all row is never taken, and the queues are destroyed at most once, empty, with all messages of both queues accounted for |
| FsmInvariant.RunInv | project/plugin/src/browser.cc:287-343 | every step of worker and client keeps the invariant that links state, carried event, connection, both queues and the record of what happened |
| FsmInvariant.ReachableStates | project/plugin/src/browser.cc:123-158 | in every run the catch-all row is never taken, nor any row outside a list of 17; in Connect the carried event says whether there is a connection, Serve has one, and from Exiting on there is none |
| FsmInvariant.NoReturn | project/plugin/src/browser.cc:142-155 | no run leads from Exiting or later back to serving |
| FsmInvariant.CleanupConserves | project/plugin/src/browser.cc:433-506 | when the queues are destroyed, once, both are empty and the client is gone; what the client popped and then what was flushed is all that was ever pushed to it, in order, EXITED and one marker last |
| CleanExit.CleanExitTakes | project/plugin/src/browser.cc:408-506 | with k undelivered messages a clean exit takes exactly k+5 iterations, k+2 flushes and one clean-up, and leaves both queues empty |
| CleanExit.Drain | project/plugin/src/browser.cc:150-155 | the second waiting state empties any out-queue that ends in the marker, one message for each iteration |
| GoingOn.TrapExactlyWhen | project/plugin/src/browser.cc:146-157 | after the markers are pushed, for any client calls between any two queue operations and any failed try-locks: the catch-all row is taken iff the first flush finds no marker, the second waiting state is entered iff it finds one, and the thread quits with nothing destroyed iff it finds two |
| GoingOn.StartsOverExactlyWhen | project/plugin/src/browser.cc:408-472 | the same in terms of what the client sent behind the command, what it read, and which mutex it holds |
| GoingOn.DrainEndsExactlyWhen | project/plugin/src/browser.cc:150-155 | a waiting thread that is left alone ends and destroys the queues iff a marker is at an odd place of the in-queue or anywhere on the out-queue, whatever else they hold; otherwise it waits for ever |
| GoingOn.QuietEndsExactlyWhen | project/plugin/src/browser.cc:142-155 | the same from the moment the markers are pushed |
| GoingOn.OutMarkerDecides | project/plugin/src/browser.cc:433-478 | with the marker left on the out-queue and a client that calls on: the thread is bound to end iff a flush took it, it waits otherwise, and never did both take it |
| GoingOn.InMarkerDecides | project/plugin/src/browser.cc:250-278 | with the marker left on the in-queue and a client that calls on: the thread is bound to end iff a flush takes it and not the pump, which only its place and the failing try-locks decide |
| GoingOn.FateByParity | project/plugin/src/browser.cc:250-278 | where no try-lock fails the flush takes it iff its place is odd |
| GoingOn.EndsIfBound | project/plugin/src/browser.cc:150-157 | two turns after a flush found the marker the thread has ended and the queues are destroyed, whatever happens in between |
| GoingOn.GoingOnStartsOver | project/plugin/src/browser.cc:146-157 | a whole run in which the client sends the clean-exit command itself, sends more, and the catch-all row is taken |
| GoingOn.GoingOnLeaks | project/plugin/src/browser.cc:146-149 | a whole run in which it reads one message, and the thread quits with the queues not destroyed |
| GoingOn.GoingOnIsEaten | project/plugin/src/browser.cc:250-278 | a whole run in which the pump eats the marker and the thread waits for ever |
| GoingOn.GoingOnTakesTheMarker | project/plugin/src/browser.cc:150-155 | a whole run in which the client takes the marker and the thread waits for ever |
| GoingOn.GoingOnIsCutOff | project/plugin/src/browser.cc:495-506 | a whole run in which the queues are destroyed while the client holds the channel |
| Liveness.ExitIsReached | project/plugin/src/browser.cc:287-343 | after release, if an exit command is pending and D-Bus stays up, the thread ends within a bound linear in what is queued and in what is signalled before it gives up its connection, and the queues are destroyed iff the first pending exit command is the clean one |
| Liveness.EndsExactlyWhen | project/plugin/src/browser.cc:125-140 | after release, in a long enough run with D-Bus up, however much it signals, the thread ends iff an exit command is among the messages it will look at |
| Liveness.NeverEnds | project/plugin/src/browser.cc:125-140 | without one it never ends, whatever the foreign calls answer |
| Liveness.ReleaseTooEarly | project/plugin/src/browser.cc:125 | a release before the first look at the queue is thrown away: the thread goes on for ever and nothing is freed |
| Liveness.DisconnectedIsDeaf | project/plugin/src/browser.cc:243-247 | while the dispatch reports disconnection the in-queue is not read and the thread stays in Wait |
| Liveness.ReadExactlyWhen | project/plugin/src/browser.cc:234-284 | after release, an exit command behind p messages is obeyed iff the thread has looked at its queue more than p times, whatever dispatches and connection attempts come to |
| Liveness.ObeyedExactlyWhen | project/plugin/src/browser.cc:243-247 | an exit command at the front, with a connection, is obeyed iff some dispatch goes well |
| Liveness.PlainExitLeaks | project/plugin/src/browser.cc:408-431 | a whole run with a plain exit command before the release, after which nothing is destroyed |
| Liveness.ExitIsObeyed | project/plugin/src/browser.cc:234-284 | an exit command behind p messages is obeyed within 2p+1 iterations, one more if a connection attempt is pending, whatever reconnects are among the p, however the attempts end and whatever the client does meanwhile |
| Browser.MDNSBrowser.Init | project/plugin/src/mdnsbrowser.cc:19-37 | a channel with two empty queues |
| Browser.MDNSBrowser.PushMsg | project/plugin/src/mdnsbrowser.cc:62-81 | appends to the in-queue, or does nothing once the channel is gone |
| Browser.MDNSBrowser.PopMsg | project/plugin/src/mdnsbrowser.cc:83-97 | the front of the out-queue; an error message before init; NULL when empty, busy or released |
| Browser.MDNSBrowser.Release | project/plugin/src/mdnsbrowser.cc:45-60 | the clean-exit command is sent and the channel is given up |
| Browser.EventPump | project/plugin/src/browser.cc:234-284 | dispatch, then at most one message taken and turned into an event; none taken on disconnection |
| Browser.ActionConnect | project/plugin/src/browser.cc:346-385 | each outcome of the set-up, its message to the client and the connection that results |
| Browser.ActionExit | project/plugin/src/browser.cc:408-431 | connection dropped, EXITED pushed, and markers down both queues for a clean exit only |
| Browser.FlushQueues | project/plugin/src/browser.cc:433-478 | one message off each queue, and the number of markers among them |
| Browser.ActionFinalCleanup | project/plugin/src/browser.cc:495-506 | destroys both queues, which must be empty and alive |
| Browser.RunFsm | project/plugin/src/browser.cc:287-343 | the loop with its heap queues and the client's calls in between ends where the run on values ends; no queue is touched after its end |
| MemoWalk.Walk.VisitedUpward | project/extensions/chrome/mdns/jquery.js:2265-2282 | a walk that came past a node came past everything from there to its hit, so a stamp covers the rest of the way |
| MemoWalk.Walk.StampedAnswer | project/extensions/chrome/mdns/jquery.js:2266-2269 | the answer recorded for a stamp is the unmemoised one, in the sibling direction iff it is not stale |
| MemoWalk.Scan | project/extensions/chrome/mdns/jquery.js:2253-2330 | every entry becomes what an unmemoised walk finds, in the sibling direction iff no entry is stale; in any direction every entry is the answer recorded at the first stamp on its way, or else the unmemoised one; and in the parent direction of an HTML tree all walks together take at most as many steps as there are elements above the entries, plus one for each entry |
| MemoWalk.DirNodeCheck | project/extensions/chrome/mdns/jquery.js:2253-2287 | the same for the test on node names, step bound included, for any entries, duplicates and false ones included |
| MemoWalk.DirCheck | project/extensions/chrome/mdns/jquery.js:2289-2330 | the same for the test by filter or by identity, step bound included |
| MemoWalk.ExplainedIsUnique | project/extensions/chrome/mdns/jquery.js:2253-2330 | that account of the entries leaves only one result |
| MemoWalk.WrongExactlyWhen | project/extensions/chrome/mdns/jquery.js:2258-2269 | an entry is wrong iff its walk stops at the stamp of a start element that is itself the match, or at a stamp that stands for a wrong entry, which the check set alone decides; for the test by identity too |
| MemoWalk.AnswersAreHits | project/extensions/chrome/mdns/jquery.js:2264-2285 | in both directions every answer that is not false is a match at or beyond the nearest one |
| MemoWalk.NoMatchingStart | project/extensions/chrome/mdns/jquery.js:2258-2261 | nothing is stale if no start element matches itself |
| MemoWalk.NeighbouringMatchIsStale | project/extensions/chrome/mdns/jquery.js:2258-2269 | the second of two neighbouring start elements that both match always gets a stale answer |
| MemoWalk.NeighbourIsLost | project/extensions/chrome/mdns/jquery.js:2258-2269 | in an HTML document that element never gets its neighbour, whatever else is in the check set |
| MemoWalk.SiblingParagraphs | project/extensions/chrome/mdns/jquery.js:1738-1746 | `p ~ p` on two paragraphs: found alone and in XML, not found together in HTML |
| Dom.HitAboveIsNearest | project/extensions/chrome/mdns/jquery.js:2262-2282 | the unmemoised walk finds the nearest node above that passes, or there is none |
| Dom.AboveIsPath | project/extensions/chrome/mdns/jquery.js:2262-2282 | what is above a node is what a path along the field of that name leads to |
| MemoWalk.NamedHit | project/extensions/chrome/mdns/jquery.js:2253-2287 | by the fields of the document, the test on names asks for the nearest preceding sibling, or the nearest ancestor, of that name |
| MemoWalk.PassingHit | project/extensions/chrome/mdns/jquery.js:2289-2330 | the test by filter asks for the nearest one that is an element and passes |
| MemoWalk.SameHit | project/extensions/chrome/mdns/jquery.js:2307-2311 | the test by identity asks whether that element is among them |
| Selector.FoldIsSound | project/extensions/chrome/mdns/jquery.js:1479-1493 | whatever the combinators, whenever the fold ends in a node, a chain of ancestors passes the parts in order, each related to the next as its combinator says |
| Selector.FoldIsComplete | project/extensions/chrome/mdns/jquery.js:1479-1493 | with no child combinator left of a descendant one, whenever there is such a chain the fold ends in a node, and no chain begins below that node |
| Selector.CompleteExactlyWhenSafe | project/extensions/chrome/mdns/jquery.js:1479-1493 | for a sequence of combinators the fold is complete, on every document, for all parts and every candidate, iff no child combinator stands left of a descendant one |
| SizzleParts.KeptHasChain | project/extensions/chrome/mdns/jquery.js:1504-1519 | whatever the combinators, a candidate whose fold is kept has such a chain, inside the context where the context is an element |
| SizzleParts.KeptExactlyWhen | project/extensions/chrome/mdns/jquery.js:1504-1519 | with no child combinator left of a descendant one, its fold is kept iff it has such a chain |
| SizzleParts.SameNameExactlyWhen | project/extensions/chrome/mdns/jquery.js:1699-1736 | two names are compared as the same iff they are equal, in XML, or equal up to case, in HTML |
| SizzleParts.UpperIs | project/extensions/chrome/mdns/jquery.js:1730-1731 | the upper-case form is the only string without small letters that is the same up to case |
| SizzleParts.WordCharsAre | project/extensions/chrome/mdns/jquery.js:1702 | which characters a name is made of |
| SizzleLoop.OutcomeIsKept | project/extensions/chrome/mdns/jquery.js:1479-1519 | on any tree, unless there is an error, the results are the candidates whose fold is kept, in order, up to the first one that steps off the tree |
| SizzleLoop.RaisesExactlyWhen | project/extensions/chrome/mdns/jquery.js:1702-1710 | a candidate that takes a child step to a name from a topmost node, with none before it that steps off, is an error; and without any that steps off nothing else is |
| SizzleLoop.RightOnTreeExactlyWhen | project/extensions/chrome/mdns/jquery.js:1479-1519 | with no child combinator left of a descendant one, on any tree: the results are what the selector means iff there is no error and no match behind a candidate that steps off |
| SizzleLoop.LostBehindNull | project/extensions/chrome/mdns/jquery.js:1508-1518 | `.a > .b > .c` on a detached tree loses its only match without an error |
| SizzleLoop.AttachedNeverSteps | project/extensions/chrome/mdns/jquery.js:1699-1726 | in a document, with parts that pass elements only, no candidate steps from a topmost node |
| SizzleLoop.RightExactlyWhenSafe | project/extensions/chrome/mdns/jquery.js:1479-1519 | on all trees, for all parts joined by a sequence of combinators, all contexts and all candidates that do not step from a topmost node, the results are what the selector means iff no child combinator stands left of a descendant one |
| SizzleLoop.RightEverywhereExactlyWhen | project/extensions/chrome/mdns/jquery.js:1479-1519 | for all candidates on all trees they are iff there is no child combinator |
| SizzleLoop.MissedMatch | project/extensions/chrome/mdns/jquery.js:1479-1519 | `a > b c` on a document with two nested B elements gives nothing though the C matches |
| SizzleLoop.ListItems | project/extensions/chrome/mdns/jquery.js:1699-1736 | `ul li` and `ul > li` find the LI of a UL in HTML and not in XML |
| SizzleLoop.RunList | project/extensions/chrome/mdns/jquery.js:1473-1519 | the loops themselves, from a fresh state, give the LI for `ul li` in HTML |
| SizzleLoop.ChildByFields | project/extensions/chrome/mdns/jquery.js:1699-1726 | the child combinator by the fields of the document, behind a null and before it |
| SizzleLoop.RelativeDescendant | project/extensions/chrome/mdns/jquery.js:1727-1736 | one part with a stamp name of its own takes every entry to its nearest matching ancestor, and leaves null alone |
| SizzleLoop.RelativeChild | project/extensions/chrome/mdns/jquery.js:1699-1726 | one part takes every entry to its parent if that matches, and to false otherwise, or to null or an error where there is no parent |
| SizzleLoop.FilterInPlace | project/extensions/chrome/mdns/jquery.js:1603-1620 | what does not pass becomes false, up to the first null; nothing behind it is touched |
| SizzleLoop.Sizzle | project/extensions/chrome/mdns/jquery.js:1473-1519 | the loops give the outcome that these statements are about, or an error |
| NthChild.AcceptsExactlyProgression | project/extensions/chrome/mdns/jquery.js:1993-1998 | the remainder and sign test accepts iff the index is first*n+last for some n >= 0, for all integers |
| NthChild.AcceptsLeast | project/extensions/chrome/mdns/jquery.js:1993-1998 | the differences accepted are the least set with 0 that goes on by `first` |
| NthChild.CountIsNumber | project/extensions/chrome/mdns/jquery.js:1986-1990 | the count is the number of elements; other nodes do not add to it |
| NthChild.CountChildren | project/extensions/chrome/mdns/jquery.js:1983-1991 | every element child of the parent gets its index among its element siblings, and no other node changes |
| NthChild.NthFilter | project/extensions/chrome/mdns/jquery.js:1973-1998 | an element is accepted iff its index is in the progression, whichever siblings were tested before; one without a parent by the index that it has kept, and without one iff first is 1 and last is 0 |
| NthChild.NthPass | project/extensions/chrome/mdns/jquery.js:1603-1620 | a pass with one stamp keeps exactly the elements that the test is for, in order |
| NthChild.OnlyItem | project/extensions/chrome/mdns/jquery.js:1973-1998 | an item behind white space is accepted as the first one and not as the second |
| NthChild.TakenOut | project/extensions/chrome/mdns/jquery.js:1973-1998 | an element without a parent is judged by the index it still has, and one that never had an index by none |
| JQueryData.JQuery.Data | project/extensions/chrome/mdns/jquery.js:1274-1298 | ids stay injective and at most uuid, a new one was never used; the table changes at one entry only; a value without a name is an error unless the object has an entry |
| JQueryData.JQuery.RemoveData | project/extensions/chrome/mdns/jquery.js:1300-1338 | one name goes and all others stay; with the last name, or when the empty name is enumerated first, entry and id go too |
| JQueryData.EmptyNameDropsAll | project/extensions/chrome/mdns/jquery.js:1300-1338 | removing one name loses another one when the first name left is empty |
| JQueryData.CanonIdentifies | project/extensions/chrome/mdns/jquery.js:1275-1277 | only the window and its stand-in share a table |
| JQueryData.StoreAndRead | project/extensions/chrome/mdns/jquery.js:1274-1298 | what is stored under a name is read back |
| JQueryData.StoreElsewhere | project/extensions/chrome/mdns/jquery.js:1274-1298 | what is stored for one element changes no answer for another |
| JQueryData.RemoveElsewhere | project/extensions/chrome/mdns/jquery.js:1300-1338 | what is removed from one element changes no answer for another |
| JQueryData.JQuery.Unique | project/extensions/chrome/mdns/jquery.js:1113-1132 | the first occurrence of every object, in order, and no data changes |
| JQueryData.FirstsAreDistinctAndComplete | project/extensions/chrome/mdns/jquery.js:1113-1132 | first occurrences are distinct, come from the list and represent all of it |
| JQueryData.FirstsOfElements | project/extensions/chrome/mdns/jquery.js:1113-1132 | of a list of elements they are exactly the elements of the list, each one once |
| JQueryData.FirstsGrow | project/extensions/chrome/mdns/jquery.js:1113-1132 | they are in the order of the list |
| Framing.Session | project/plugin_g2/src/sb.cc:40-150 | an object whose init reports success answers as the histories below say; any other one answers every call with the unavailable string, whatever could be read |
| Framing.NotReadyIsDeaf | project/plugin_g2/src/sb.cc:116-117 | an object that is not ready extracts nothing and answers every call with the unavailable string |
| Framing.ServiceBrowser.PopMsg | project/plugin_g2/src/sb.cc:113-150 | one read, at most one line, the rest kept; the state after a close or an error |
| Framing.SplitJoined | project/plugin_g2/src/sb.cc:135-147 | plain splitting takes newline-terminated lines apart again, whatever follows them |
| Framing.NothingIsLost | project/plugin_g2/src/sb.cc:122-149 | while ready, all bytes read are the extracted lines, each with its newline, and then the buffer; no line contains a newline |
| Framing.AgreesWithSplitting | project/plugin_g2/src/sb.cc:113-150 | extracted lines followed by those left in the buffer are the plain splitting of everything read |
| Framing.Drains | project/plugin_g2/src/sb.cc:122-147 | with nothing more to read, n calls extract the first n of the lines left, and then none |
| Framing.RoundTrip | project/plugin_g2/src/sb.cc:119-149 | messages come out in order for every division into chunks, with empty reads in between and however much was read so far; when all was read, the missing ones are in the buffer |
| Framing.RoundTripEnds | project/plugin_g2/src/sb.cc:119-149 | after as many further calls as messages are missing, all are out and the buffer is empty |
| Framing.CallerSees | project/plugin_g2/src/sb.cc:131-149 | the non-empty strings returned are the non-empty lines extracted |
| Framing.EmptyLineIsNoLine | project/plugin_g2/src/sb.cc:131-149 | two histories with the same strings returned, one with an empty line extracted and one with none |
| Framing.CloseIsSilent | project/plugin_g2/src/sb.cc:127-133 | the call that sees the end returns an empty string and extracts nothing |
| Framing.DeliveredExactlyWhen | project/plugin_g2/src/sb.cc:127-133 | a complete stream is delivered completely iff the buffer holds no newline when the peer closes |

## Left out

- D-Bus, Avahi, `fork`, `socketpair`, `fcntl`, `read` and signals: their results are inputs.
- Logging, the NPAPI glue, the main programs, the HTML pages and `upload.py`.
- `queue_put_wait`, `queue_put_head_wait`, `queue_wait` and `queue_wait_timer`: condition variables are not modelled, so signalling them is not either.
- `queue_peek` and `queue_signal`: they change nothing that is modelled.
- C integer wrap-around of the queue counters: they are mathematical integers.
- Allocation failure above the queue: messages, channels and list cells of the thread and its client are always allocated.
- A client that calls `release` or `pushMsg` before a successful `init`: the source leaves its channel pointer unset then; the model starts with a null one.
- Reference counts of the D-Bus connection: a connection is there or not.
- FineRuns.FineRunIsRun: the grain is one queue operation; that these are atomic is the subject of QueueThreads.
- Queues.QueuePut: the two asserts at its head, which abort on a null queue or item unless they are compiled out, are not modelled; the answer 0 behind them is.
- Queues.Queue.constructor: the three allocations of `queue_create` succeed.
- Browser.MDNSBrowser.Init: the allocation and the start of the thread succeed.
- GoingOn.OutMarkerDecides: the client sends no flush markers of its own, as for GoingOn.InMarkerDecides; one that does is covered from its last call on, by GoingOn.DrainEndsExactlyWhen.
- SizzleLoop.Sizzle: the chunker, the lookup of the last part and `Sizzle.filter` by regular expression are inputs, as are seeds, groups separated by commas, position selectors and `querySelectorAll`; the sibling combinators (whose walk is in MemoWalk) and a selector that begins with a combinator are not modelled.
- SizzleLoop.RelativeChild: a part is a text; it is a node only for a selector that begins with a combinator.
- SizzleLoop.RaisesExactlyWhen: behind a candidate that steps off the tree, entries go on unfiltered; which of those run into an error is said by the function RunSet alone.
- MemoWalk.DirCheck: stamps that a nested filter could write are not modelled.
- Browser.ActionFinalCleanup: the release of the channel object behind the two queues is not modelled.
- JQueryData.JQuery.Unique: the entries are objects, for which nothing in the `try` raises an error.
- MemoWalk.Scan: the step bound is for the parent direction of HTML documents, where only the topmost node of a tree is not an element.
- NthChild.NthFilter: on a document that does not change during the pass; parsing the equation is left out.
- JQueryData.JQuery.Data: names are strings, so an undefined name is the empty one, and stored values are not undefined; names inherited from a prototype are not enumerated.
- The rest of jQuery.
