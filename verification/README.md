# A verified model of gserv's routing, limiting, streaming and middleware logic

gserv is an HTTP toolkit in Go. Five of its components are algorithms rather than
plumbing, and this project models them in Dafny and proves what they promise:

- **The URL canonicaliser** (`router/utils.go`). The loop with its lazily allocated
  buffer is modelled byte by byte, and proved equal to a fold of the path's segments
  over a stack (`CleanPath.dfy`).
- **The route table** (`router/utils.go`, `router/v3.go`, `router/router.go`). Patterns
  are compiled into a key and parts (`RoutePattern.dfy`), a request is matched by a
  backward search for the longest key and a forward comparison (`RouteTable.dfy`,
  `Splitters.dfy`), and what registering accepts and changes is
  stated in `RouteRegister.dfy`. The matcher is proved sound and complete (`RouteMatching.dfy`), the
  inverse of rendering a route (`RouteRoundTrip.dfy`), up to the handler that is called
  (`RouteServing.dfy`) and back (`RouteAnswers.dfy`), out of range exactly on a described family of paths
  (`RoutePanics.dfy`), and safe together with the canonicaliser (`ServeHTTP.dfy`). The pooled parameter slices are a state machine over interleaved
  requests (`ParamsPool.dfy`).
- **The rate limiter** (`ratelimit.go`). Three nested fixed windows (`RateLimit.dfy`) and
  the pool that evicts idle limiters (`Limiters.dfy`). Time is an argument of every call.
- **Server-sent events** (`sse/`). The frame printer is proved against the parser of
  sections 9.2.5 and 9.2.6 of the WHATWG HTML Standard (`EventStream.dfy`). The fan-out is
  a state machine whose steps lie between lock and channel operations (`Fanout.dfy`), with
  an account of which streams are in its table (`FanoutPresence.dfy`) and of what becomes of
  each message, up to the listener (`FanoutDelivery.dfy`).
- **Middleware** (`group.go`, `ctx.go`). The chain with its two re-entrant continuations
  (`Chain.dfy`), and groups that share backing arrays under Go's append rules
  (`GroupTree.dfy`).

A Go panic is an outcome, never a precondition. A `char` stands for one byte of a Go
string in the path code. Code that updates state in place is a class or a method on
arrays, proved against a function, and the properties are proved of that function. Nothing
was executed; everything here is a proof about the model.

## Where the code differs from what is said of it

- The canonicaliser's first three rules fail where a rule would leave one character and a
  slash: `a//` becomes `/a/`, but `a/` becomes `/a`, because the test for a final slash
  asks for more than two characters (`router/utils.go:147`). For a part dropped in the
  middle or at the start this is the only exception, and for a final `.` as well
  (`CleanPath.DropNeutral`, `CleanPath.DropFirst`, `CleanPath.CleanDropsDot`).
- A final `x/..` takes the slash before it along: `/a/x/..` becomes `/a`, while `/a/`
  stays (`router/utils.go:167-184`). `CleanPath.CleanDropsParent` has the result and the
  exact condition, for all paths.
- The comment on the matcher (`router/v3.go:205-208`) says that the empty prefix is tried.
  The code never offers a prefix that ends before the first slash.
- On an unrooted path the matcher can index out of range. `RoutePanics.PanicsExactly` says
  exactly when, for all paths; `ServeHTTP.CleanedNeverPanics` says that the canonicaliser
  prevents it, query or not.
- With a final slash a route without a star needs one part more than there are segments, and
  the last part is neither compared nor given a value (`router/v3.go:249-259`, `router/v3.go:273-283`).
  So `/u/:id` answers `/u/` and its handler runs without an id, and `/u/:id/edit` answers
  `/u/5/`; the canonicaliser keeps such a slash. `RouteMatching.SlashLosesValue` and
  `RouteMatching.SlashSkipsLiteral` are these requests, and `RouteMatching.BindingsCount`
  and `RouteMatching.FitsFully` say exactly when a value is missing and when every part
  agrees.
- A `*` route under the root key loses a slash at the start of its value: on `//x` the root
  itself is found as a prefix. `RouteRoundTrip.StarRoundTrip` covers both cases.
- A HEAD request is always served from the GET routes unless that is switched off
  (`router/router.go:50-52`), so HEAD routes are never reached by it, unlike by
  `Router.Match`, which looks at them first.
- Eviction cannot be told from keeping a limiter if and only if the new limiter is made in
  the second of its first call, or is itself idle for an hour by then
  (`Limiters.SameSecondNeeded`).
- A stream can be left out of the table while it has clients, in two ways. A client can be
  added to a stream that has been closed since the client found it
  (`FanoutPresence.LateClientIsOrphaned`). And because the last client looks its stream up
  again by id (`sse/sse.go:89`), two clients that were both the last of an old stream can
  close a new one, whose only client joined normally
  (`FanoutPresence.NewStreamIsOrphaned`). `FanoutPresence.PresenceExactly` proves that
  these two steps are all: a run keeps every stream with clients in the table throughout
  if and only if it has neither.
- A ping is not a comment: `Ping` frames are delivered as message events with the text
  `ping` (`sse/stream.go:25`), and `EventStream.RoundTrip` says so.

## Model

| member | source | states |
|---|---|---|
| CleanPath.CleanPath | router/utils.go:124-214 | for every input the lazy-buffer loop stays in bounds and returns the stack fold of the segments; `modified` is true exactly when a non-empty input was changed |
| CleanPath.CleanNonEmpty | router/utils.go:130-214 | the reading and writing loop equals its position-by-position meaning, plus the final slash; storage and input are told apart rightly even after backtracking |
| CleanPath.Turn | router/utils.go:153-201 | one pass through the switch moves reader and output as specified, keeps room for a pending slash and stays at an element start |
| CleanPath.StepBack | router/utils.go:171-183 | backtracking in the input or in the buffer drops the last written element, and the slash before it unless that is the leading one |
| CleanPath.CopyElement | router/utils.go:194-199 | copies exactly the bytes up to the next slash; a rooted path gets its buffer only once the output is behind the input |
| CleanPath.AppendElement | router/utils.go:187-199 | appends one element, after a slash if something is there already, and leaves room for the next one |
| CleanPath.EndPath | router/utils.go:203-213 | the returned text, from the input or from the buffer, and whether it differs from the input |
| CleanPath.BufApp | router/utils.go:217-227 | appends one byte to the output; the buffer is allocated only when that byte differs from the input |
| CleanPath.SettleIsWalk | router/utils.go:153-201 | reading from any position on computes the fold over the segments left, from any stack |
| CleanPath.LoopArrives | router/utils.go:124-214 | the loop's text and its two end-of-path tests give the stack fold and its final-slash rule |
| CleanPath.CleanIsCanonical | router/utils.go:111-123 | every output is rooted and has no empty, `.` or `..` element |
| CleanPath.CleanFixesCanonical | router/utils.go:111-123 | a path is left alone if and only if it is canonical |
| CleanPath.CleanIdempotent | router/utils.go:111-123 | cleaning twice is cleaning once |
| CleanPath.DropNeutral | router/utils.go:114-123 | dropping a part in the middle that folds to nothing keeps the result if and only if what is left is not one character and a slash |
| CleanPath.DropFirst | router/utils.go:114-123 | the same for a part at the start of the path |
| CleanPath.DropLast | router/utils.go:114-123 | what a part that folds to nothing leaves when it is dropped at the end, and exactly when that is the path with a final slash |
| CleanPath.DropWhole | router/utils.go:123 | the result is the root if and only if the whole path folds to nothing |
| CleanPath.CleanCollapsesSlashes | router/utils.go:116 | rule 1, multiple slashes, if and only if what is left is not one character and a slash |
| CleanPath.CleanDropsDot | router/utils.go:117 | rule 2, a `.` element in the middle, at the start and at the end, each under its exact condition |
| CleanPath.CleanDropsParent | router/utils.go:118-119 | rule 3, an element and its `..` in the middle and at the start, under the exact condition; at the end the result is the fold of what comes before, without a final slash, and exactly when that is as if they had not been there |
| CleanPath.CleanDropsRootParent | router/utils.go:120-121 | rule 4, `..` at the start of a rooted path, followed by anything or nothing |
| Splitters.SplitPathFn | router/utils.go:56-76 | calls back for each piece in order, with its index and end, until a callback does not return false |
| Splitters.RevSplitPathFn | router/utils.go:78-95 | offers every prefix that ends at a boundary, longest first, with the number of separators after it, until one is accepted |
| Splitters.CallCount | router/utils.go:56-95 | the forward splitter's number of pieces against the backward splitter's count: equal, or one less with a final separator |
| Splitters.CallIndex | router/utils.go:66-72 | pieces are numbered consecutively and none is empty |
| Splitters.CallText | router/utils.go:58-72 | the text of a forward call ends at its offset, at a separator or the end, and has a separator only at its start |
| Splitters.RevCallText | router/utils.go:81-91 | the text of a backward call is what lies between its boundary and the separator before it |
| Splitters.NothingLost | router/utils.go:56-76 | the pieces put together are the input minus a final separator |
| RoutePattern.SplitPathToParts | router/utils.go:22-54 | the prefix, the parts, the number of parameters and the number of stars of any pattern |
| RoutePattern.KeepPieces | router/utils.go:38-52 | the inner callback keeps the pieces that start with a marker or a slash, in order, and counts both kinds of parameter |
| RoutePattern.FindAllIs | router/utils.go:22 | for any text the matches are cut before every marker, each has a marker only at its start and something after it, and nothing but markers that cannot start a match is left out |
| RoutePattern.CompileWellFormed | router/v3.go:152-163 | the key of a well-formed route is its elements before the first parameter, its parts are the elements from there on |
| RoutePattern.CompileParams | router/utils.go:30-54 | a route is split before its first parameter whatever comes after it, literals between parameters included |
| RoutePattern.CompileLiteral | router/utils.go:30-35 | a route without parameters is its own key and has no parts |
| RoutePattern.CompileLosesNothing | router/utils.go:30-54 | key and parts put together rebuild the route minus a final slash |
| RoutePattern.TailParts | router/utils.go:37-52 | the parts from a parameter on, through the two levels of splitting at markers and at slashes |
| RoutePattern.PiecesAt | router/utils.go:56-76 | the forward pieces of a joined path are its elements, each with its slash |
| RoutePattern.PartsAreParts | router/utils.go:38-52 | no part of any pattern is empty, so reading a part's type is in range |
| RoutePattern.WellFormedText | router/utils.go:24-30 | the well-formed texts are exactly the renderings of lists of elements, with or without a final slash |
| RoutePattern.ChecksPlaceStar | router/v3.go:152-159 | a pattern that passes both checks has a star at most as its last part |
| RouteTable.Router.AddRoute | router/v3.go:151-177 | the panics in order, the table with the route appended to its key's bucket, and the largest parameter count exactly; every table built is well formed |
| RouteRegister.AcceptedExactly | router/v3.go:151-166 | a well-formed route is accepted if and only if its method is one of the nine and no `*` element comes before the last; two stars are too many, one that is not last is refused as such, and only then is the method looked at; its parts are its elements from the first parameter on |
| RouteRegister.MethodsAre | router/v3.go:315-338 | the nine methods that have a table |
| RouteRegister.PartsTell | router/utils.go:38-52 | the parts have as many stars and parameters as the elements |
| RouteRegister.AddedBehind | router/v3.go:84-86 | registering under a key that is there changes only the answers to paths that use that key and that no route fitted: the new route answers those it fits |
| RouteRegister.AddedElsewhere | router/v3.go:229-242 | a new key changes nothing for the paths that it is no boundary prefix of, but for the root |
| RouteRegister.AddedIsFound | router/v3.go:151-286 | an accepted route is found by its renderings, its names paired with the values, unless a longer key or an earlier route takes them |
| RouteRegister.AddedStarIsFound | router/v3.go:151-286 | the same for a final star |
| RouteTable.InsertOk | router/v3.go:84-86 | appending a checked route to its own key keeps the table well formed |
| RouteTable.Router.Match | router/v3.go:222-286 | the search, loop and extraction compute the meaning of a lookup in the table of the method, panics included; no other method has routes |
| RouteTable.MatchBucket | router/v3.go:244-285 | the loop over a bucket answers with the first route whose comparison does not stop |
| RouteTable.ExtractParams | router/v3.go:272-283 | the second pass appends the values of the pieces, in order, a star ending it |
| RouteTable.LongestKey | router/v3.go:229-236 | the longest prefix that ends at a boundary and is a key, or none |
| RouteTable.CompareRuns | router/v3.go:250-262 | stopping at a signal and comparing all pieces come to the same verdict |
| RouteTable.ExtractRuns | router/v3.go:273-283 | the parameters appended before the callback ends are those of the whole extraction |
| RouteTable.MethodIndex | router/v3.go:315-338 | the table of a known method, and none for any other |
| RouteMatching.MatchIsFirstFit | router/v3.go:222-286 | for every rooted path and every table: no index is out of range; the answer is the first route of the bucket that fits, and there is none exactly when none fits; its parameters are the segments of its `:` parts and the remainder for its star, one for each parameter exactly when the last one is not missed; without a star every part agrees with its segment exactly when there is no final slash |
| RouteMatching.KeyIsLongest | router/v3.go:205-208 | no slash-boundary prefix in the table is longer than the key used |
| RouteMatching.BucketCounts | router/v3.go:229-242 | the expected number of parts is the number of forward pieces, plus one for a final slash, in the prefix search and in the fallback |
| RouteMatching.VerdictIsFits | router/v3.go:244-265 | the comparison accepts a route if and only if it has a star or agrees segment by segment, the last part being left out under a final slash |
| RouteMatching.ChooseIsFirstFit | router/v3.go:244-266 | the route chosen is the first in order of registration that fits |
| RouteMatching.AnswerIs | router/v3.go:268-285 | the parameters of a chosen route: each `:` part that has a segment with that segment, in order, and a star that is reached with the whole remainder, also after other parts |
| RouteMatching.BindingsCount | router/v3.go:249-283 | a chosen route has a value for each parameter if and only if the last one is not missed: a `:` part under a final slash, or a star with too few segments before it; without a star at most the last value is missing |
| RouteMatching.FitsFully | router/v3.go:249-259 | a chosen route without a star agrees with the path part by part if and only if there is no final slash |
| RouteMatching.SlashLosesValue | router/v3.go:249-283 | `/u/:id` answers `/u/` without an id |
| RouteMatching.SlashSkipsLiteral | router/v3.go:249-283 | `/u/:id/edit` answers `/u/5/` |
| RoutePanics.PanicsExactly | router/v3.go:229-283 | for every path and table: the matcher runs out of range if and only if the path is unrooted, does not end in a slash, has no boundary prefix in the table, and the first root route accepted without the last piece has no star |
| RoutePanics.RootRoutePanics | router/v3.go:237-251 | a concrete such request: `*` on a table with a root route |
| RouteRoundTrip.ColonRoundTrip | router/v3.go:151-286 | rendering a route with non-empty slash-free values and matching it gives that route and every name with its value, unless a longer key or an earlier route takes the path |
| RouteRoundTrip.StarRoundTrip | router/v3.go:151-286 | the same for a route whose only parameter is a final star; under the root key a slash at the start of the value is lost |
| RouteRoundTrip.PathParts | router/v3.go:161-163 | the key of a route is a boundary prefix of each of its renderings, and what is left is the rendering of its parts |
| RouteRoundTrip.BucketOfKey | router/v3.go:229-242 | a key that no longer boundary prefix beats is the one found, and what is left of the path after it |
| RouteRoundTrip.RouteFitsRendered | router/v3.go:249-283 | a compiled route fits every rendering of it, and its values come back in order |
| RouteAnswers.AnswersAreRenderings | router/v3.go:222-286 | the converse: whenever a route of literals and `:` parts answers a path without final slash, the path is a rendering of that route, and the parameters are the values it was rendered with |
| RouteAnswers.FitsFilled | router/v3.go:249-262 | what fits the parts of a route is its elements with values filled in |
| RouteServing.RenderedIsRouted | router/router.go:41-54 | a rendered path passes the canonicaliser unchanged if and only if none of its elements is `.` or `..`, and the cutting of the query if and only if none has a question mark |
| RouteServing.ServedRoundTrip | router/router.go:30-85 | a request for such a rendering runs that route's handler with every name paired with its value, unless it is switched off, or a longer key or an earlier route takes the path |
| ServeHTTP.Server.Serve | router/router.go:30-85 | clean, match, call: which handler runs with which parameters and path, and which error status otherwise; with cleaning on no request panics |
| ServeHTTP.HeadIsGet | router/router.go:50-52 | with the option off, a HEAD request is answered exactly as a GET request |
| ServeHTTP.OwnMethodServes | router/router.go:54-84 | any other request, and HEAD with the option on, is served from its own method's table at the cleaned path without its query; what nothing serves is 404 for GET and 405 otherwise |
| ServeHTTP.QueryIsCut | router/utils.go:103-108 | a path ends before its first question mark |
| ServeHTTP.Server.Match | router/v3.go:181-189 | a HEAD request without a route of its own falls back to the GET routes |
| ServeHTTP.Server.DisableRoute | router/v3.go:191-197 | switches off or on exactly the route that matches |
| ServeHTTP.CleanIsRooted | router/router.go:43-54 | a cleaned path is rooted, also after its query is cut |
| ServeHTTP.CleanedNeverPanics | router/router.go:43-54 | no path that the canonicaliser can return makes the matcher run out of range |
| ParamsPool.HandlersSeeTheirOwn | router/v3.go:272-357 | in every interleaving of requests for any method, a wrapper is pooled once, empty and of full capacity, or held by one request, and a handler sees the parameters of its own path in its own table |
| ParamsPool.StepKeeps | router/v3.go:346-357 | every step keeps that invariant |
| ParamsPool.RunKeeps | router/v3.go:346-357 | so does every run |
| ParamsPool.PutReturns | router/v3.go:351-357 | a request that ends gives its wrapper back, empty and of full capacity |
| ParamsPool.TakeReuses | router/v3.go:346-349 | a pooled wrapper is used as it is; only otherwise one is made |
| ParamsPool.OwnFits | router/v3.go:169-171 | no match of any path appends more than the largest parameter count |
| ParamsPool.ExtractSize | router/v3.go:273-283 | an extraction appends at most one parameter for each part that takes one |
| RateLimit.Limiter.constructor | ratelimit.go:83-94 | a new limiter has the given maxima, has counted nothing, and its windows start now |
| RateLimit.Limiter.Allowed | ratelimit.go:98-142 | one call's new state, error and wait, and the totals |
| RateLimit.Limiter.Check | ratelimit.go:111-141 | the three nested windows with their early exits |
| RateLimit.StepIs | ratelimit.go:111-141 | all that a call does, for every state and time: it is counted in exactly the windows it reaches, allowed exactly when none is over its maximum, and otherwise blocked by the widest that is, with its numbers and the time until its end |
| RateLimit.BlockStopsThere | ratelimit.go:111-141 | a block leaves every narrower window as it was; the blocking window and the wider ones have counted the call |
| RateLimit.WindowsSeeWhatReachesThem | ratelimit.go:111-141 | over any run a window is what the calls that reach it make of it, so calls stopped by a wider window do not change what it decides later |
| RateLimit.Limiter.LastActionTime | ratelimit.go:145-160 | the latest of the three window starts: no earlier than any, and equal to one |
| RateLimit.Limiter.RequestsLeft | ratelimit.go:163-168 | what each window has left, never negative, and zero exactly when its maximum is reached |
| RateLimit.WithinBudget | ratelimit.go:98-142 | from any state of any run, how many calls each window can still let through in any stretch of its length |
| RateLimit.TwiceTheLimit | ratelimit.go:98-142 | at most twice a window's maximum is allowed in any stretch of the window's length |
| RateLimit.TwiceIsReached | ratelimit.go:98-142 | the factor two is reached by a run |
| RateLimit.OncePerSecond | ratelimit.go:131-139 | at most the maximum is allowed in any clock second |
| RateLimit.BlockedUntil | ratelimit.go:111-141 | a window over its maximum blocks every call until it ends, whatever the order of the calls, and is not restarted |
| RateLimit.WaitIsExact | ratelimit.go:111-141 | the wait is positive, every earlier call is blocked whatever came between, and the first later call is blocked by the same window exactly when its maximum is below one, unless a wider one stops it |
| RateLimit.RoomCountsDown | ratelimit.go:98-168 | at one time stamp exactly as many calls are allowed as the windows in reach have room for, and they are the first ones |
| RateLimit.RemainderIsExact | ratelimit.go:98-168 | after any call, the least of the three reported numbers is exactly how many more calls are allowed at that time |
| Limiters.Pool.constructor | ratelimit.go:171-185 | a new pool is empty |
| Limiters.Pool.Get | ratelimit.go:216-220 | the limiter of a key, a new one made now only if it is missing; other keys keep theirs |
| Limiters.Pool.Clean | ratelimit.go:204-210 | a tick deletes exactly the limiters idle for more than an hour and a half |
| Limiters.EvictIs | ratelimit.go:196-213 | a tick keeps exactly the limiters whose last action is at most an hour and a half old |
| Limiters.IdleIsFresh | ratelimit.go:196-213 | after an hour without action, a limiter and a new one answer the next call alike |
| Limiters.AlikeRun | ratelimit.go:98-142 | limiters that differ only in windows out of reach answer every run alike |
| Limiters.EvictionUnobservable | ratelimit.go:196-213 | a new limiter made in the second of its first call answers every later run as the deleted one would have, waits included |
| Limiters.PoolEvictionUnobservable | ratelimit.go:196-220 | over all keys, requests and ticks, the evicting pool answers as one that never deletes |
| Limiters.EmptyPoolEviction | ratelimit.go:171-220 | in particular from an empty pool |
| Limiters.SameSecondNeeded | ratelimit.go:83-94 | a new limiter cannot be told from an idle one if and only if it is made in the second of its first call or is itself idle for an hour by then |
| EventStream.MakeData | sse/stream.go:107-154 | the frame of every kind of payload; an encoding error gives none |
| EventStream.WriteHead | sse/stream.go:110-120 | the id and event fields, each left out when empty |
| EventStream.WritePayload | sse/stream.go:122-149 | one data field for each line of the payload, at least one |
| EventStream.WriteLines | sse/stream.go:126-138 | the loop over the lines writes one data field each, in order |
| EventStream.FrameNotEmpty | sse/stream.go:151-153 | a frame is never empty, so a stream never takes it for its end |
| EventStream.FrameText | sse/stream.go:110-151 | the text of a frame with one line, field by field and in order |
| EventStream.OtherFrames | sse/stream.go:25 | the text of the ping frame and of retry frames |
| EventStream.RoundTrip | sse/stream.go:65-154 | parsing a printed sequence of messages, pings and retries gives the events in order with their text, type and latest id, and the retry time |
| EventStream.SequenceCarriedExactly | sse/stream.go:65-154 | a sequence of messages, pings and retries comes back as itself if and only if every message has an id and a type that are single lines, an id without NUL and a text without a carriage return |
| EventStream.CarriedExactly | sse/stream.go:107-154 | in particular for one message |
| EventStream.ParsedIsSound | sse/stream.go:107-154 | no event stream at all yields a text with a carriage return, or an id or type with a line end |
| EventStream.TerminatedLines | sse/stream.go:126-138 | splitting at line feeds and ending each line again loses nothing |
| EventStream.DecimalReadsBack | sse/stream.go:69-71 | the printed retry time reads back as itself |
| Fanout.ChannelsAreSafe | sse/sse.go:23-143 | in every interleaving nothing sends on or re-closes a closed channel, a data channel is open exactly while its stream is in the table, and the channels of a stream's clients are open |
| Fanout.DeliveryIsInOrder | sse/sse.go:43-152 | what a client has written, is writing and has buffered is, in order, part of what its stream processed while it was registered; all the rest and nothing else was lost to it; its buffer stays within capacity |
| FanoutDelivery.LossIsExact | sse/sse.go:43-152 | a client has lost exactly one message for each send that found its buffer full while it was not receiving and for each failed write; without one it has been given all that its stream processed while it was registered, in order |
| FanoutDelivery.StreamsTakeWhatIsSent | sse/sse.go:43-143 | what a stream has processed is the frames of the messages handed to it, in order; a blocked Send holds the frame of its own message for the stream of its own id |
| FanoutDelivery.ListenerGetsEvents | sse/sse.go:43-143 | from Send to the listener: a client that missed nothing and is caught up has written exactly the frames of the messages handed to its stream while it was registered, and if they can be carried they read back as those events |
| FanoutDelivery.ClientCanCatchUp | sse/sse.go:113-123 | from every reachable state a client in its loop can write all that it has been given |
| FanoutDelivery.SendCanStart | sse/sse.go:126-140 | a Send starts exactly when its id has a stream and its payload can be encoded |
| Fanout.NothingAfterTheEnd | sse/sse.go:113-123 | once its request is cancelled or a write has failed, nothing more is written to a connection, whatever happens |
| Fanout.ConnectionEnds | sse/sse.go:113-123 | a failed write and a cancelled request end a connection |
| Fanout.OnlyLastCloses | sse/sse.go:29-37 | a connection goes on to close its stream exactly when it was the last one in it |
| Fanout.StreamCanReturn | sse/sse.go:43-55 | the goroutine of a closed stream can always return |
| Fanout.StepKeeps | sse/sse.go:23-152 | every step of every goroutine keeps the protocol's invariant |
| Fanout.RunKeeps | sse/sse.go:23-152 | so does every run |
| Fanout.SendCanComplete | sse/sse.go:126-143 | from every reachable state a blocked Send is completed by steps of its stream's own goroutine |
| Fanout.WriteLockCanBecomeFree | sse/sse.go:68-94 | from every reachable state the router's write lock can become free, every connection staying where it is |
| Fanout.MutexCanBecomeFree | sse/sse.go:23-55 | the same for a stream's mutex |
| Fanout.ConnectionCanProceed | sse/sse.go:68-124 | no reachable state is a deadlock for a connection that comes or goes: one that is joining can be in its loop, one that is leaving or closing can be gone |
| FanoutPresence.PresenceExactly | sse/sse.go:68-94 | in every interleaving, every stream with clients is in the table throughout if and only if no client is added to a closed stream and none closes a stream that has clients; and a stream in the table without clients always has a connection that will join or close it |
| FanoutPresence.StepOrphans | sse/sse.go:68-94 | those two steps, and no others, leave a stream with clients out of the table |
| FanoutPresence.PresentWhenSettled | sse/sse.go:68-94 | after a run without those steps, while no connection is on the way in or out, an id is in the table if and only if a stream of that id has clients |
| FanoutPresence.PresentIffClients | sse/sse.go:68-94 | when connections come and go uninterrupted, an id is in the table if and only if a stream of that id has clients |
| FanoutPresence.LateClientIsOrphaned | sse/sse.go:83-109 | a run in which a client is added to a stream that has been closed since it was found |
| FanoutPresence.NewStreamIsOrphaned | sse/sse.go:83-94 | a run in which the second last-leaver of an old stream closes a new one, whose only client joined without interruption |
| Chain.Serve | group.go:124-179 | for any scripts of re-entrant calls the run ends; each element is entered at most once and in order, nothing after a written response, a prefix of the chain if middleware never runs handlers directly, and all of it unless an entered element stops it; an element that runs the rest of the middleware or of the handlers before it writes has entered all of it, whatever it does or returns afterwards, unless another element stops it; as many responses are written as the entered elements write; without re-entrant calls an element that returns something is the last of its kind, and Break in middleware keeps the handlers out |
| Chain.RunEnters | group.go:142-176 | what is entered, each element once and in order, nothing after a written response, and with orderly middleware a prefix of the whole chain |
| Chain.RunCompletes | ctx.go:289-306 | what has been entered at the end: all of it if nothing stops, and all that a single stopping element ran before it wrote |
| Chain.RunStops | group.go:149-173 | what stops a chain without re-entrant calls, and what Break in middleware keeps from being entered |
| Chain.RunResponds | ctx.go:318-327 | the responses written are exactly those of the elements entered |
| Chain.ActGoes | ctx.go:289-306 | every call on the context has done what it is for when it returns: its continuation is cleared, and unless something has stopped it, there is nothing left to enter through it |
| Chain.TurnGoes | group.go:146-157 | one turn of a loop keeps all of this through any nested calls, and a loop that stops has been stopped by somebody |
| Chain.AloneAct | ctx.go:296-300 | NextHandler enters handlers only, also when called from middleware |
| Chain.BreakAfterNext | group.go:124-179 | a middleware that runs the handlers and then returns Break: the handler is entered and its response written |
| Chain.HandlersAhead | group.go:124-179 | a middleware that runs the handlers ahead of the next middleware |
| Chain.Context.NextMiddleware | ctx.go:289-293 | runs the middleware loop if its continuation is set, which is cleared then |
| Chain.Context.NextHandler | ctx.go:296-300 | the same for the handlers |
| Chain.Context.Next | ctx.go:303-306 | the middleware, then the handlers if their continuation is still set |
| Chain.Context.RunMiddleware | group.go:142-159 | the loop over shared indexes, with calls nested to any depth, computes the run whose properties are proved |
| Chain.Context.RunHandlers | group.go:161-176 | the handler loop, likewise |
| Chain.Context.WriteResponse | ctx.go:318-327 | a written response is logged and marks the context as done |
| Chain.TracesQuiet | group.go:146-165 | a log whose entries stop once the context is done enters nothing after a response, and the flag is set exactly when one was written |
| Chain.TracesEntries | group.go:142-176 | a log kept by the two counters enters the first middleware and the first handlers, each once and in order |
| Chain.TracesPrefix | group.go:124-179 | with no handler entered before the last middleware, what is entered is a prefix of the whole chain |
| GroupTree.Append | group.go:30-32 | Go's append: in place while the capacity lasts, otherwise into a new array; no other view of the array changes |
| GroupTree.AppendAmong | group.go:30-32 | appending to one of a server's slices changes what no other one holds |
| GroupTree.AppendCut | group.go:98 | appending to a slice cut to its length changes what no slice holds, and keeps at most one able to write into a shared array |
| GroupTree.Tree.Use | group.go:30-32 | appends to one group's chain and leaves every other one alone, although arrays are shared |
| GroupTree.Tree.SubGroup | group.go:95-102 | makes a group with its parent's chain and its own, and leaves every other one alone |
| GroupTree.Build | group.go:30-102 | any sequence of both operations leaves every group with the chain that the operations mean |
| GroupTree.RunAddsOwn | group.go:30-102 | whatever is done to other groups, a group's chain is what it was followed by its own additions |
| GroupTree.ChainOfSubGroup | group.go:95-102 | a sub-group's chain is its parent's at creation, what it was made with, and its own later additions |
| GroupTree.IsolatedUse | group.go:30-32 | appending keeps at most one group able to write into a shared array |
| GroupTree.IsolatedSubGroup | group.go:98 | cutting the parent's slice to its length keeps that too |

## Left out

- Fanout.ChannelsAreSafe: the protocol is a state machine on values, with one step for what a goroutine does between two lock or channel operations; maps and channels updated in place are its components. Reads of a map while it is changed cannot occur in it.
- ParamsPool.HandlersSeeTheirOwn: also a state machine on values; the pool is a bag that may drop what it holds. A handler that keeps its parameters after it has returned is not modelled.
- Fanout.ConnectionCanProceed: says that a run to the end exists from every reachable state, not that a scheduler picks it.
- Chain.Serve: the prefix claim is for middleware that does not call NextHandler itself; entering once, in order and nothing after a response holds for all scripts.
- FanoutDelivery.SendCanStart: a Send that cannot start returns an error and changes nothing; it is not a step.
- RouteAnswers.AnswersAreRenderings: is for routes of literals and `:` parts and paths without a final slash; what a final slash does is in `RouteMatching.FitsFully` and `RouteMatching.BindingsCount`.
- Chain.Context.WriteResponse: responses that only write a header, such as 204, do not set the flag in the source and are not modelled; every response here has a body.
- RouteServing.ServedRoundTrip: is for routes of literals and `:` parts; for a star the round trip is stated of the matcher, `RouteRoundTrip.StarRoundTrip`.
- RoutePattern.CompileWellFormed: is about well-formed patterns; for malformed ones only the general splitting and counting is stated.
- RateLimit.Limiter.Allowed: counters are unbounded integers and waits whole seconds; the error text is its three numbers. The source reads the clock before it takes the lock, so that calls arrive in clock order is an assumption of the run lemmas.
- EventStream.RoundTrip: is on decoded text; a JSON value is an opaque line, and UTF-8 decoding is not modelled.
- ServeHTTP.Server.Serve: the body of a HEAD response, request contexts, profiling labels, the request-done hook and panic recovery are left out; returning the parameters is a step of the pool's state machine.
- GroupTree.Tree.SubGroup: names, joined paths and route registration of groups are not modelled.
- The regular expression of the pattern compiler is written out as its leftmost matches, not derived from an expression language.
- The callbacks of the forward splitter are functions of a piece; what they append is replayed piece by piece after the call, as far as it got.
- A limiter that a request still holds while the pool deletes it, and requests that race with a tick on the same key.
- Panic recovery in the chain: handlers do not panic in the model.
- Break inside nested calls: an enclosing loop resumes after a nested Break, because it does not set the flag (group.go:149-156); what Break stops is stated for middleware that leaves the handlers to the chain.
- The listing of routes, swagger documents, logging and CORS: formatting without state.
- JSON and MessagePack codecs, JWT, cookies, compression and the response types: libraries or thin wrappers around them.
- The caching middleware: a map of stored responses behind a key function.
- Sockets, TLS, the proxy, static files, server start and shutdown, and the single-connection event stream's goroutine: input and output.
