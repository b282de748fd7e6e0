# market-bridge, verified

market-bridge is a proxy server: it accepts HTTP(S) GET requests, throttles them, sends them
to an upstream host and relays what comes back. This project models its core in Dafny and
proves what that core is for. `dafny verify dfyconfig.toml` checks everything.

| file | models |
|---|---|
| `RateLimiting.dfy` | the token bucket; its meaning over the whole history of calls |
| `SessionProtocol.dfy` | the session state machine, many sessions sharing one limiter, and the session object |
| `Registry.dfy` | registering threads against shutdown, as a transition system, and the server object |
| `DelayedStarts.dfy` | when the limit on grants is also one on what is started |
| `Shutdown.dfy` | the two together: what a shutdown does to the sessions |
| `TlsInit.dfy` | the one-time TLS initialisation |
| `HttpRequest.dfy`, `HttpResponse.dfy`, `Forwarding.dfy` | parser, printers, framing, the upstream request, the relay |
| `ConfigJson.dfy`, `CommandLine.dfy` | the three layers of the configuration |
| `Glob.dfy`, `CommaSepArgs.dfy` | the wildcard matcher and the list tokeniser of the vendored doctest.h |
| `Text.dfy`, `Wrappers.dfy` | string and stream operations, `Option` |

## Conventions

- A `char` stands for a byte. A `std::map` with string keys is a map visited least key first.
- Rates, token levels and instants are exact reals; an instant is in seconds. The clock is a
  parameter that never runs backwards, as `steady_clock` does not; calls of `allow()` are
  serialised by its mutex, with the clock read inside.
- Anything the environment decides is a parameter or a nondeterministic step: what a read or a
  timer delivers, which thread moves next, when a session expires, whether an initialisation
  would succeed, what a configuration file holds, which options were given.
- Exceptions are results: a failed load returns what was wrong with the document.
- An object whose methods update its fields is a class. Its methods are proved against
  functions of the old state, and the results about runs are proved about those functions.

## Where the code and the expectations differ

Each of these is stated as an exact condition, not left out.

- *Retry-After.* A refused client is told to retry after one second. That is sound exactly when
  rate and burst are both at least one (`RateLimiting.RetryAfterOneSecond`). The configuration
  accepts zero for both (`src/config/config_json.cpp:127-149`), and then some client follows the
  advice in vain.
- *Framing.* A body put into a 204 No Content response is written, and a reader that follows
  section 6.3 of RFC 9112 takes it for something after the message. The same goes for the
  body of any response to a HEAD, and a 2xx told to a CONNECT turns the connection into a
  tunnel. Every other generated response with a one-line reason gives its body back
  (`HttpResponses.GeneratedBodyComesBack`).
- *Methods.* A session answers every method alike: a HEAD to `/health`, or a refused HEAD, is
  written a body that its reader must not read (`HttpResponses.SessionRepliesComeBack`).
- *Spelling of names.* The printer looks for `Content-Length` in that spelling only, while field
  names are compared without regard to case. Next to `content-length` it writes a second length;
  unless both are the same text, the message is malformed (`HttpResponses.OtherSpellingClashes`,
  `HttpResponses.ClashExample`), and a key seen as `Transfer-Encoding` hides the length. When the
  body comes back is stated on the header map, for every response with a one-line reason and
  one-line fields (`HttpResponses.BodyComesBack`).
- *Throttling and starting.* The limit is on grants. A granted reply or upstream session starts
  in a later handler. With starts delayed by up to some amount, the limit holds of starts
  too exactly when the rate is zero, the burst is less than one, or that amount is zero
  (`DelayedStarts.StartsKeptExactly`): otherwise a burst that starts late meets the next token.
  What always holds is the bound with the window opened earlier by the delay
  (`SessionProtocol.StartsWithinDelay`).
- *Stopping.* A stop before the header step prevents all work. After a stop, a reply can still
  begin exactly when it had been chosen and was waiting for its handler, since its coroutine
  does not look at the flag (`SessionProtocol.AfterTheFlip`).
- *Handshakes.* The `stop()` of a handshake session is empty (`src/handshake_session.h:31`), so a
  shutdown has no effect on a handshake in progress. What `Registry.NoSessionEscapes` counts are
  the calls; `Shutdown.ShutdownReachesSessions` says what they do to the HTTP sessions.
- *Forwarding.* The repository's README says the client's payload is forwarded and the original
  request preserved. The code forwards the target and the agent, as a GET without a body,
  whatever the client's method. It looks the agent up under the key `User-Agent` in just this
  spelling, though field names are compared without regard to case. Target and agent reach the
  upstream exactly when the client named a target, the configured host is a clean field value,
  and every agent the client sent, under whatever spelling, is the one under that key, or the
  default where that key is absent (`Forwarding.ForwardingDelivers`). A client that writes
  `user-agent` is announced under the default agent (`Forwarding.SmallAgentIsLost`); without a
  target the version takes its place (`Forwarding.NoTarget`).
- *Round trips.* A request is given back by printing and parsing exactly when it is canonical,
  which includes requests with an empty version, or without target and version. An escaped list comes back exactly when
  no token is empty.
- *Log levels.* An unknown `--log-level` is not refused, as an unknown level in the JSON
  document is: spdlog's `from_str`, which is not part of the repository, turns it into `off`.
- *Dead branches.* `on_header_obtained` (`src/http-session.cpp:129-137`) checks an error code
  that its only caller has already returned on; only the check of the stop flag has an effect.

## Model

The main results come first; then, component by component, the operations proved against their
specifications and the steps on the way.

| member | source | states |
|---|---|---|
| RateLimiting.BucketAgreesWithWindows | src/tocken-bucket.cpp:16-24 | the bucket admits a call if and only if one more admission keeps every window ending now, of any real length, within its bound |
| RateLimiting.AvailableIsLeastHeadroom | src/tocken-bucket.cpp:34-44 | the one stored number, refilled lazily, is the least over all earlier calls k of capacity + rate * (now - t_k) - admissions since k: a lower bound of them, and attained |
| RateLimiting.GreedyIsOptimal | src/tocken-bucket.cpp:16-24 | for every trace and every compliant policy, at every prefix the bucket has admitted at least as many requests |
| RateLimiting.BucketIsCompliant | src/tocken-bucket.cpp:12-25 | over a whole run, every closed window holds at most capacity + accrual admissions |
| RateLimiting.RetryAfterOneSecond | src/http-session.cpp:261 | the retry after one second is always admitted, unless another request was admitted in between, if and only if rate and burst are at least one |
| SessionProtocol.GlobalThrottle | src/server.cpp:192-214 | over every interleaving, the requests granted in any window are at most burst + rate * length |
| SessionProtocol.StartsWithinDelay | src/http-session.cpp:189-208 | what holds for every delay: with starts delayed by at most the gap, health replies and upstream sessions started in any window are at most burst + rate * (length + gap) |
| DelayedStarts.StartsKeptExactly | src/http-session.cpp:189-208 | every run whose starts are no later than a delay after their grants keeps starts within burst + rate * length in every window, if and only if the rate is zero, the burst is less than one, or the delay is zero |
| SessionProtocol.OneGrantEach | src/http-session.cpp:182-209 | over the run, granted sessions are as many as granted calls; what started was granted before; each session is granted at most once, each parsed request has one answer, and without throttling none is refused |
| SessionProtocol.StopFlagFlipsOnce | src/utils/session-helper.h:41-49 | in every ordering of header, timer, coroutine and stop() calls, among other sessions, at most one step of the run flips the flag, at most one begins a 408, and it is that same step |
| SessionProtocol.StoppedDoesNoWork | src/http-session.cpp:127-131 | once flipped, however the run goes on, the flag stays up and nothing more is parsed or asked, no 408 is begun and no answer chosen; one chosen before may be carried on |
| SessionProtocol.AfterTheFlip | src/http-session.cpp:182-208 | after the flip some continuation of the run begins a reply iff it was pending, and starts a health reply or upstream session iff it was pending and granted |
| SessionProtocol.TimeoutStillPossible | src/http-session.cpp:105-166 | from every reachable state, some continuation begins a 408 iff the flag is down and the header timer is still to start, runs, or has elapsed with its coroutine waiting |
| SessionProtocol.RequestStillPossible | src/http-session.cpp:116-145 | from every reachable state, some continuation parses a request iff the flag is down and the header is still to come |
| SessionProtocol.HeaderChooses | src/http-session.cpp:182-208 | a header read well with the flag down is answered with a refusal iff not granted, with the health reply iff granted for /health, and with an upstream session iff granted for anything else; otherwise nothing is chosen |
| SessionProtocol.FlagClosesSocket | src/http-session.cpp:45-56 | at every moment of every run a raised flag means a closed socket or a 408 being written |
| Registry.NoSessionEscapes | src/server.cpp:298-321 | when the winning shutdown returns, each successfully registered session was either found expired and erased, or got exactly one stop(); no other got any |
| Registry.StopsAreSound | src/server.cpp:58-68 | at every moment one caller at most has won, and one has iff the flag is up; the session about to be stopped has not expired; none is stopped twice or without being registered |
| Registry.StopsInOrder | src/server.cpp:305-320 | the stop() calls come in registration order, leaving out exactly the sessions found expired |
| Registry.NoneAfterSnapshot | src/server.cpp:285-296 | after the snapshot no registration ever succeeds, not even one that read the flag before it flipped |
| Registry.NoDeadlock | src/server.cpp:287-303 | a call that has not returned can take its next step, or waits for the mutex whose holder can |
| Registry.CallsReturn | src/server.cpp:58-68 | every registration, and the shutdown that won, returns after a bounded number of its own steps, whatever the others do |
| Registry.TurnedAwayForCause | src/server.cpp:285-296 | no registration and no shutdown is turned away unless a shutdown is pending |
| Registry.ShutdownCompletes | src/server.cpp:58-68 | from every reachable state the winning shutdown can run on to its end, once the mutex is free for its scan |
| Registry.RegistersAlone | src/server.cpp:285-296 | a registration that nobody disturbs succeeds and is appended iff no shutdown is pending, as the sequential operation does |
| Shutdown.ShutdownReachesSessions | src/server.cpp:58-68 | over every interleaving of registration, shutdown and session handlers: when the winning shutdown has returned and the dispatched stops have run, every registered HTTP session that has not expired has its flag up and its socket closed, or is writing its 408 |
| TlsInit.OnceUntilSuccess | src/server.cpp:137-163 | over every sequence of calls and outcomes, call i attempts iff no earlier outcome was a success, and creates a session iff some attempt up to and including it succeeded |
| HttpRequests.RoundTrip | src/utils/http-helper.h:56-144 | parse(print(r)) == r if and only if r is canonical, whatever the size of the header map |
| HttpRequests.NormalForm | src/utils/http-helper.h:56-144 | for every byte string, parsing, printing and parsing again is parsing once |
| HttpRequests.LastLineWins | src/utils/http-helper.h:124-135 | a header is present iff some line names it, with the blank-trimmed value of the last such line; lines without a colon count for nothing |
| HttpResponses.BodyComesBack | src/utils/http-helper.h:79-96 | for any method and any response with one-line fields the reader recovers the body, any bytes, iff the status has three digits and either no body may and does exist, or no tunnel opens, no key is seen as a coding, and all lengths seen are one number, the size |
| HttpResponses.GeneratedBodyComesBack | src/utils/http-helper.h:146-173 | every generated response with a one-line reason has one length and gives its body back, iff it has no body where the code or a HEAD allows none, and is no success told to a CONNECT |
| HttpResponses.SessionRepliesComeBack | src/http-session.cpp:182-264 | the 429 and health replies are read back whole iff the request was no HEAD, or the body is empty, and no CONNECT was answered 200 |
| HttpResponses.RefusalShows | src/http-session.cpp:243-264 | a refused client reads 429 Too Many Requests, Retry-After 1, Connection close and the JSON type |
| HttpResponses.HealthShows | src/http-session.cpp:211-230 | a probe reads 200 OK, the JSON type and Connection close |
| HttpResponses.TimeoutShows | src/http-session.cpp:162-166 | a client that was too slow reads 408 Request Timeout and Connection close |
| Forwarding.ForwardingDelivers | src/http-session.cpp:407-424 | for every raw input and host, the upstream reads the target and every agent the client sent, exactly four fields and no body, iff a target was named, the host is clean, and the agents sent all equal what stands under the exact key, or the default where it is absent |
| Forwarding.RelayIntegrity | src/http-session.cpp:387-403 | for every split into reads of at most 4096 bytes, the stream up to the first error is the concatenation |
| ConfigJson.NumericGates | src/config/config_json.cpp:96-149 | for every 64-bit integer, signed or unsigned: ports are accepted iff in 1..65535 in spite of the wrapping conversion, numbers iff in 0..2^32-1, and unchanged |
| ConfigJson.MergeJsonConfig | src/config/config_json.cpp:203-285 | succeeds iff the document is valid, overlaying what it gives; otherwise reports the first fault in the order of the code |
| ConfigJson.FirstFaultIsUnique | src/config/config_json.cpp:203-285 | a document has at most one first fault, so the report is determined |
| ConfigJson.Settings.LoadJsonConfig | src/config/config_json.cpp:307-322 | transactional: a document that fails anywhere, or cannot be read, leaves the configuration as it was |
| ConfigJson.MergedProperty | src/config/config_json.cpp:203-285 | each property is what the document says, or what it was; nothing outside the schema changes |
| ConfigJson.ServerInWords | src/config/config_json.cpp:209-226 | what a valid document makes of each server field, under the literal names and words of the format |
| ConfigJson.TlsInWords | src/config/config_json.cpp:228-238 | likewise for the TLS fields |
| ConfigJson.UpstreamInWords | src/config/config_json.cpp:240-255 | likewise for the upstream fields |
| ConfigJson.OutputInWords | src/config/config_json.cpp:261-262 | likewise for the log output |
| ConfigJson.LevelInWords | src/config/config_json.cpp:263-264 | likewise for the log level |
| ConfigJson.ThrottlingInWords | src/config/config_json.cpp:267-284 | likewise for the throttling fields |
| ConfigJson.MergesCompose | src/config/config_json.cpp:203-285 | merging A and then B is merging their overlay |
| CommandLine.App.ProcessArguments | src/common/app.h:18-108 | an option that is given wins; without one the document's value wins; without either the previous value stays; a rejected command line, a failed load or --help changes no property; the exit code is one iff the command line was rejected or the ports coincide |
| Glob.WildCmp | tests/thirdparty/doctest/doctest.h:4138-4172 | true iff the text matches under the declarative meaning of stars and question marks, for all strings, patterns and both case modes |
| Glob.PlainPattern | tests/thirdparty/doctest/doctest.h:4142-4149 | a pattern without special characters matches its own text only; without regard to case, exactly the texts that differ in case alone |
| Glob.StarBetween | tests/thirdparty/doctest/doctest.h:4151-4171 | a star between two plain stretches matches exactly what begins with the one and ends with the other |
| CommaSepArgs.RoundTrip | tests/thirdparty/doctest/doctest.h:6544-6569 | it gives the list back iff no token is empty |
| CommaSepArgs.NormalForm | tests/thirdparty/doctest/doctest.h:6544-6569 | whatever the value, escaping and joining its tokens denotes the same tokens |
| TokenBuckets.TokenBucket.constructor | src/tocken-bucket.cpp:4-10 | a new bucket is full and starts an empty history |
| TokenBuckets.TokenBucket.Allow | src/tocken-bucket.cpp:12-25 | true exactly when all windows of the history permit one more; the call joins the history, whose level the fields keep |
| TokenBuckets.TokenBucket.Reset | src/tocken-bucket.cpp:27-32 | restarts the history with a full bucket |
| TokenBuckets.TokenBucket.Refill | src/tocken-bucket.cpp:34-44 | credits the elapsed time, capped, and moves the refill instant |
| RateLimiting.RoomInWindow | src/tocken-bucket.cpp:34-41 | whatever the bucket finds is room in every window that ends with the call |
| RateLimiting.SteadyBound | src/tocken-bucket.cpp:38-41 | for a bucket of the source that bound is capacity + rate * length |
| RateLimiting.CompliantNeverOverdraws | src/tocken-bucket.cpp:20-22 | a history with all windows in bounds, decided by any policy, never takes the level below zero |
| RateLimiting.GreedyLeads | src/tocken-bucket.cpp:16-24 | coupling: the bucket has admitted at least as many as any compliant policy, and its level lags by no more than that lead |
| RateLimiting.RefusalsOnlyRefill | src/tocken-bucket.cpp:34-43 | refused calls in a gap cost nothing: the level regains all that accrued since the first of them, up to capacity |
| RateLimiting.RetryFails | src/http-session.cpp:261 | with rate or burst zero some refused client that waits a second, with nobody admitted in between, is refused again |
| HttpSessions.HttpSession.constructor | src/http-session.h:93-94 | a new session has done nothing and shares the limiter it is given |
| HttpSessions.HttpSession.RequestStop | src/utils/session-helper.h:46-49 | true for the one call that flips the flag |
| HttpSessions.HttpSession.Start | src/http-session.cpp:58-70 | the header is awaited and the timer armed only if TLS could be set up |
| HttpSessions.HttpSession.Stop | src/http-session.cpp:45-56 | stop() flips the flag and shuts the socket down, or does nothing |
| HttpSessions.HttpSession.OnHeaderRead | src/http-session.cpp:116-145 | performs the header step on the fields, with the limiter's own answer by its windows; no call on the limiter if the read failed or the flag is up; refused, answered as a probe of /health or sent upstream by grant and target; the request kept for the upstream is the one parsed |
| HttpSessions.HttpSession.OnTimer | src/http-session.cpp:106-114 | an aborted timer spawns nothing |
| HttpSessions.HttpSession.BeginTimeout | src/http-session.cpp:148-160 | goes on to write a 408 only if its own request_stop flipped the flag |
| HttpSessions.HttpSession.OnHeaderTimeout | src/http-session.cpp:148-166 | what is written then is the printed 408 reply; otherwise the response is untouched |
| HttpSessions.HttpSession.OnTimeoutWritten | src/http-session.cpp:168-179 | the end of the write shuts the socket down |
| HttpSessions.HttpSession.OnRequestDisallow | src/http-session.cpp:243-264 | the coroutine spawned for a refusal writes the 429 reply |
| HttpSessions.HttpSession.OnHealthRequest | src/http-session.cpp:211-230 | the coroutine spawned for a granted probe writes the health reply |
| HttpSessions.HttpSession.TimeoutReply | src/http-session.cpp:162-166 | the text of the 408 is the printed empty reply |
| HttpSessions.HttpSession.RefusalText | src/http-session.cpp:243-263 | the text of the 429 is the printed reply with Retry-After: 1 |
| HttpSessions.HttpSession.HealthText | src/http-session.cpp:211-229 | the text of the health reply is the printed reply with its own length field |
| HttpSessions.HttpSession.OnReplyWritten | src/http-session.cpp:233-240 | the end of that write leaves flag and socket alone |
| HttpSessions.HttpSession.OpenUpstream | src/http-session.cpp:367-374 | the session spawned for any other granted request sends the upstream request of the request that was kept |
| HttpSessions.HttpSession.RelayResponse | src/http-session.cpp:278-293 | at end of file the response becomes the upstream stream and the socket is shut down; after any other error neither changes |
| SessionProtocol.HandleWork | src/http-session.cpp:182-209 | only a header step that finds the flag down asks the limiter and chooses an answer; every other handler leaves the work alone and at most carries the answer on |
| SessionProtocol.TimerSpawns | src/http-session.cpp:106-114 | an aborted timer spawns nothing, any other the coroutine with its code |
| SessionProtocol.CoroutineActs | src/http-session.cpp:148-170 | failed, the coroutine stops the session without a 408; elapsed, it flips the flag and begins the 408, or does nothing if the flag is up |
| SessionProtocol.StopStops | src/http-session.cpp:45-56 | the first stop raises the flag and closes the socket, later ones do nothing |
| SessionProtocol.ReplyProceeds | src/http-session.cpp:277-293 | a reply begins and ends as what was chosen; its end closes the socket iff an upstream response was handed over |
| SessionProtocol.RelayCloses | src/http-session.cpp:285-293 | an upstream response that was handed over leaves the socket closed, however the run goes on |
| SessionProtocol.HandleKeepsFlag | src/http-session.cpp:148-179 | every handler keeps: flips are counted by the flag, no more 408s than flips, one timer handler, one timeout coroutine |
| SessionProtocol.HandleKeepsWork | src/http-session.cpp:127-145 | every handler keeps: at most one request parsed, put to the limiter once, with exactly one answer |
| SessionProtocol.Reachable | src/http-session.cpp:58-293 | the invariant of sessions, sockets, limiter, grants and starts holds after every schedule of any number of sessions |
| SessionProtocol.HandleKeepsSocket | src/http-session.cpp:45-56 | every handler keeps: a raised flag means a closed socket or a 408 being written; the socket is closed only then or after a relayed response |
| SessionProtocol.OnlyTheFlipReplies | src/http-session.cpp:148-160 | a handler begins a 408 if and only if it is the coroutine of an elapsed timer that finds the flag down, and that same step flips the flag; the flag never falls |
| SessionProtocol.ReplyIsFlip | src/http-session.cpp:159-166 | a step of a run that begins a 408 flips the flag and is the timeout coroutine of that session |
| DelayedStarts.BurstMeetsToken | src/http-session.cpp:196-207 | for every positive rate, burst of at least one and positive delay, a run with starts delayed no more than that breaks the bound |
| DelayedStarts.LateBurst | src/http-session.cpp:196-207 | the run: a whole burst starts late, within the delay, and one more session is granted and starts as soon as a token has come |
| Servers.Server.constructor | src/server.cpp:183-190 | no shutdown pending, no session listed, and a second acceptor only for a second port |
| Servers.Server.RegisterSession | src/server.cpp:285-296 | succeeds and appends iff no shutdown is pending |
| Servers.Server.ScheduleShutdown | src/server.cpp:58-68 | the first call stops the live sessions in order, erases the others and closes both acceptors; later calls do nothing |
| Servers.Server.StopSessions | src/server.cpp:298-321 | stops exactly the survivors, in order |
| Servers.Server.CollectActive | src/server.cpp:303-316 | the erasing loop leaves, and collects, exactly the sessions that have not expired |
| Servers.Server.CloseAcceptors | src/server.cpp:323-332 | no acceptor is held open afterwards |
| Registry.Reachable | src/server.cpp:285-321 | the invariant of flag, mutex, list, snapshot and stop() calls holds after every interleaving of any number of registering and stopping threads and expiring sessions |
| Shutdown.Reachable | src/server.cpp:298-321 | the joint invariant: every session given a stop() has its flag up or the handler dispatched, after every schedule |
| TlsInit.SslInit.SslHandshake | src/server.cpp:137-163 | one call attempts iff the flag is fresh, renews it iff the attempt fails, and creates a session otherwise |
| HttpRequests.PrintHeaders | src/utils/http-helper.h:62-65 | the printing loop writes the entries in ascending order of names |
| HttpRequests.FieldsOfListsEntries | src/utils/http-helper.h:62-65 | every entry of the map is written and nothing else |
| HttpRequests.FieldsOfAscend | src/utils/http-helper.h:62-65 | no name is written twice, and names ascend |
| HttpRequests.ToString | src/utils/http-helper.h:56-69 | the printer writes the request line, the fields, a blank line and the body |
| HttpRequests.PrintedText | src/utils/http-helper.h:56-69 | the exact text of a request without and with a header |
| HttpRequests.PrintedInOrder | src/utils/http-helper.h:62-65 | fields are written one after the other |
| HttpRequests.ParseRequest | src/utils/http-helper.h:99-144 | the parsing loops compute the parser function, on every byte string |
| HttpRequests.ParsedIsCanonical | src/utils/http-helper.h:99-144 | whatever bytes come in, the parser returns a canonical request |
| HttpRequests.MessageParses | src/utils/http-helper.h:99-144 | three words, clean fields in any order with repetitions, and a body are read as written |
| HttpRequests.LinesParse | src/utils/http-helper.h:117-141 | for lines of any content, ended by CR LF or LF alone: they are taken one by one up to a blank one, and the body is the text up to a NUL |
| HttpRequests.UnfinishedParses | src/utils/http-helper.h:117-141 | without a blank line all lines count as header lines, the unfinished last one too, and the body is empty |
| HttpRequests.AnyMessageParses | src/utils/http-helper.h:99-144 | a message of any origin: words with any white space between them, either line ending, header lines, blank line and body |
| HttpResponses.ResponseToString | src/utils/http-helper.h:79-96 | writes status line, fields, a length unless the map has one, a blank line and the body |
| HttpResponses.PrintedText | src/utils/http-helper.h:79-96 | the exact text of a response without headers, the length included |
| HttpResponses.GenerateHttpResponse | src/utils/http-helper.h:146-173 | the response built, field by field |
| HttpResponses.GeneratedShows | src/utils/http-helper.h:156-170 | for every generated response, the type iff there is a body, by its word, and Connection close iff asked for |
| HttpResponses.CodeTexts | src/utils/http-helper.h:8-20 | the number each code is written as |
| HttpResponses.PartsComeBack | src/utils/http-helper.h:79-96 | status line, fields in order and body are told apart again by a reader |
| HttpResponses.OneLength | src/utils/http-helper.h:90-91 | when no other key is seen as a length and that one agrees, exactly one length is seen, whichever place wrote it, and it is the size of the body |
| HttpResponses.ReadsPrinted | src/utils/http-helper.h:79-96 | what a reader by section 6.3 of RFC 9112, told the request method, makes of any printed response with one-line fields |
| HttpResponses.LengthsSeen | src/utils/http-helper.h:85-91 | for any header map: the reader sees a length iff a key seen as the name gives it, or the printer adds it |
| HttpResponses.OtherSpellingClashes | src/utils/http-helper.h:90-91 | a length under another spelling, not written like the one the printer adds, makes the message malformed |
| HttpResponses.ClashExample | src/utils/http-helper.h:90-91 | the response with content-length 0 and a body of one byte is malformed |
| Text.DecimalParses | src/utils/http-helper.h:161-161 | the decimal text of a size is digits that denote that size |
| Text.StripsOne | src/utils/http-helper.h:110-111 | one carriage return goes, at the end of a line and nowhere else |
| Text.TrimsAll | src/utils/http-helper.h:129-133 | all leading blanks and tabs of a value go, and nothing else |
| Text.ExtractSpaced | src/utils/http-helper.h:113-114 | a word is read from behind any white space |
| Text.WhiteSpace | src/utils/http-helper.h:113-130 | which characters separate words and which are trimmed |
| Text.CaseFolds | tests/thirdparty/doctest/doctest.h:4143 | capitals are read as the small letters of the same place |
| Text.LexicalOrder | src/utils/http-helper.h:53-62 | header names come in the order of the first character that differs |
| Forwarding.ForwardingPreserves | src/http-session.cpp:407-424 | for every raw input and host, the upstream reads back the message the session put together: a GET of the client's target, the agent looked up under the exact key or the default, four fields and no body, iff a target was named and the host is clean |
| Forwarding.GenerateRequest | src/http-session.cpp:407-424 | the formatted text, literally, which is also the upstream request line and four fields |
| Forwarding.NoTarget | src/http-session.cpp:416-423 | without a target the upstream reads the version as the target |
| Forwarding.OtherSpellingIsLost | src/http-session.cpp:409-414 | an agent sent under another spelling only is replaced by the default |
| Forwarding.SmallAgentIsLost | src/http-session.cpp:409-414 | the request for /x with user-agent curl is announced under the default agent, whatever the host |
| Forwarding.ReadResponse | src/http-session.cpp:383-404 | the loop through the reused buffer hands over the stream at end of file, and nothing on any other error |
| Forwarding.ConcatInOrder | src/http-session.cpp:402 | chunks are put together one after the other |
| ConfigJson.ValidateKeys | src/config/config_json.cpp:84-94 | the loop finds the least key that is not allowed, if there is one |
| ConfigJson.OpenSection | src/config/config_json.cpp:78-94 | the first fault of a section's shape, or none |
| ConfigJson.MergeServer | src/config/config_json.cpp:209-226 | succeeds only on a valid section, which it overlays on the server fields alone; else gives the first fault |
| ConfigJson.MergeTls | src/config/config_json.cpp:228-238 | likewise for the TLS fields |
| ConfigJson.MergeUpstream | src/config/config_json.cpp:240-255 | likewise for the upstream fields |
| ConfigJson.MergeLogging | src/config/config_json.cpp:257-265 | likewise for the logging fields |
| ConfigJson.MergeThrottling | src/config/config_json.cpp:267-284 | likewise for the throttling fields |
| ConfigJson.MergeSection | src/config/config_json.cpp:209-284 | an absent section is passed over; a fault is the first of the document when the earlier sections are in order |
| ConfigJson.ValidMeansFaultless | src/config/config_json.cpp:203-285 | a document is valid iff it has no fault |
| ConfigJson.AllowedNames | src/config/config_json.cpp:206-272 | the names of the sections and of the keys in each |
| ConfigJson.AcceptedWords | src/config/config_json.cpp:151-201 | the words accepted for run mode, output and level |
| ConfigJson.AcceptedTexts | src/config/config_json.cpp:109-125 | texts and flags: which values are accepted |
| ConfigJson.AcceptedNumbers | src/config/config_json.cpp:96-149 | ports and numbers: which values are accepted |
| ConfigJson.FaultsInOrder | src/config/config_json.cpp:203-285 | the order in which faults are noticed: the root, its sections, and section after section |
| ConfigJson.ServerFaultsInOrder | src/config/config_json.cpp:209-226 | and in the server section: its kind, its keys, its values one by one |
| ConfigJson.OutboundFaultsInOrder | src/config/config_json.cpp:228-255 | and in the TLS and upstream sections |
| ConfigJson.OtherFaultsInOrder | src/config/config_json.cpp:257-284 | and in the logging and throttling sections |
| ConfigJson.OverlayIsValid | src/config/config_json.cpp:203-285 | the section-wise right-biased overlay of valid documents is valid |
| ConfigJson.FirstBad | src/config/config_json.cpp:216-224 | with the properties before it in order, a bad value is the first fault of its section |
| CommandLine.MergeServerArguments | src/common/app.h:118-178 | server fields: the recognised option or the previous value, nothing else touched |
| CommandLine.MergeOutboundArguments | src/common/app.h:124-138 | TLS and upstream fields: the option or the previous value, nothing else touched |
| CommandLine.MergeOtherArguments | src/common/app.h:144-169 | throttling and logging fields: the recognised option or the previous value, nothing else touched |
| CommandLine.MergeParsedArguments | src/common/app.h:116-179 | every option sets its own field of the configuration, by literal words for mode, output and level, and every other field stays |
| CommandLine.LevelIsNamed | src/common/app.h:158-160 | the level of each name; any other name is off |
| Glob.LeftmostSuffices | tests/thirdparty/doctest/doctest.h:4151-4166 | once the stretch between two stars is found at its leftmost place, the earlier star need not be reconsidered |
| Glob.ExhaustedText | tests/thirdparty/doctest/doctest.h:4168-4171 | with the text used up by an attempt, no later attempt does better |
| Glob.Backtrack | tests/thirdparty/doctest/doctest.h:4162-4165 | after a mismatch, letting the star take one more character loses no match |
| Glob.NextStar | tests/thirdparty/doctest/doctest.h:4152-4157 | forgetting the earlier star at the next one loses no match |
| Glob.SkipLiteral | tests/thirdparty/doctest/doctest.h:4142-4149 | the first loop rejects only texts that do not match, and stops with the question unchanged |
| Glob.Search | tests/thirdparty/doctest/doctest.h:4151-4166 | the middle loop terminates and computes the scan |
| Glob.GlobsIsMatches | tests/thirdparty/doctest/doctest.h:4136-4138 | a star taking one character at a time means the same as a star standing for any stretch |
| Glob.StarFree | tests/thirdparty/doctest/doctest.h:4143-4144 | without a star, pattern and text agree place by place, a question mark with anything |
| Glob.QuestionMark | tests/thirdparty/doctest/doctest.h:4144 | a question mark matches exactly the texts of one character |
| Glob.ScanDecides | tests/thirdparty/doctest/doctest.h:4151-4166 | the middle loop, with its one backtrack point, accepts only matches and otherwise leaves the question to the rest of the pattern |
| CommaSepArgs.ParseCommaSepArgs | tests/thirdparty/doctest/doctest.h:6533-6569 | the loop appends the tokens of the value to the result |
| CommaSepArgs.JoinedTokens | tests/thirdparty/doctest/doctest.h:6544-6569 | escaping, joining and tokenising any list gives the list without its empty tokens |
| CommaSepArgs.AppendsTo | tests/thirdparty/doctest/doctest.h:6536-6542 | tokens found before do not influence those found later |
| CommaSepArgs.CommaEndsToken | tests/thirdparty/doctest/doctest.h:6559-6560 | a comma ends a token, and an empty token leaves no trace |
| CommaSepArgs.EscapedCharacter | tests/thirdparty/doctest/doctest.h:6549-6554 | an escaped comma or backslash is one character of its token |
| CommaSepArgs.PlainIsOneToken | tests/thirdparty/doctest/doctest.h:6549-6568 | a backslash that escapes nothing is kept, also at the end |

## Left out

- Floating-point rounding in the bucket and the resolution of the clock: levels and instants are exact reals.
- Asio, TLS, DNS and sockets beyond the events they deliver to handlers; what the strand and coroutines do is taken as given, one handler being one step.
- That a client never receives two responses: cancelling a timer cannot recall a handler already queued, so it depends on timing outside the repository.
- Failures of resolving, connecting or writing to the upstream before the relay loop starts, and of writes to the client.
- The listening loop, protocol detection by the first two bytes, and single-request mode; of the acceptors only that they are held open or closed.
- Memory ordering of the atomic flags: every operation on them is one step of the interleaving.
- That threads calling `ssl_handshake` or `allow()` wait for each other: their mutexes make them sequences of calls.
- Parsing of JSON text and lexing of command-line options: documents are value trees and options are already typed, or were rejected.
- Numbers in a JSON document other than 64-bit integers are one case, all refused where an integer is expected.
- Error message texts: a fault says which check failed, for which key or property, not in which words.
- Responses whose reason or fields contain line breaks: what they print is not a message of these parts.
- Comma lists in `Content-Length`, transfer codings and bodies ended by the connection are told apart by the reader but not decoded.
- `tolower` outside the C locale and on bytes above 127.
- The search for an option in doctest's argument list, and everything else in doctest.h.
- The startup table, usage text, logging, signal handling and certificate loading: presentation and plumbing.
- CommandLine.LevelFromStr: the names follow spdlog's documented ones; spdlog itself is not part of this model.
