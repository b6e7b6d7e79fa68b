# Asabru's configuration control plane

Asabru is a database proxy. This project models the part of it that keeps a set
of running listeners in step with a configuration that changes while they run:
reading the XML document, resolving it, starting the sockets, and the two update
requests of the management API. It also covers the gateway's routing index, the
gate in front of every management route, the plugin cache, the cluster registry
and the number printer of the fatal-signal handler.

Each loader, loop and class of the source is a Dafny method or class proved
against a specification function; what the source promises is proved about that
function, over all inputs or all runs.

| files | what they hold |
|---|---|
| Xml | element trees, the sibling cursor, and `FirstStop`: the first check, in processing order, that ends a loader |
| ConfigTypes | the configuration records, and the junk an uninitialised integer may hold |
| ProxyParser, ProtocolParser, GatewayParser | the three section loaders, each a nest of cursor loops |
| ProxyRoundTrip | a configuration written as a document and read back |
| ConfigLoad | a whole document load, section by section, and the document of a service edit |
| PipelineFactory, Resolution | the plugin cache; what a stored configuration resolves to |
| Sockets, ConfigSingleton, ProxyServer, Startup | live sockets, the process-wide state, hot reload, edit, startup with rollback |
| HotReload, Conservation, Answers, Observations, Lifetime | whole runs of update requests: what they store, when they are answered ok, what a picker meets; whole lives from startup on |
| SingleWriter, LostEdits | readers and writers of the stored configuration, interleaved: one writer, and any number |
| RoutingIndex, GatewayServer | the gateway's host and path index, and gateway startup |
| RequestGate, ProtocolServer | authentication, authorization and dispatch, from the document on |
| Registry, Decimal, SignalPrinter | the registry, decimal numerals, the 8-byte number printer |

## How the unseen engine enters

What lives in libraries is a parameter, and every statement holds for all its
values.

- `Xml.Reader`: how text becomes an integer (`QueryIntText`, `std::stoi`) and how
  an element is printed. Two statements assume something of it: the round trips,
  that the numeral of an int is read as that int (`ProxyRoundTrip.StoiReadsNumerals`
  shows that the strtol rule does), and the way from a document to a dispatch,
  that an element never prints as the empty text.
- `ConfigTypes.Junk`: the content of integers the source leaves uninitialised,
  one value per record.
- `PipelineFactory.Linker` and `Resolution.Env`: dlopen, dlsym and the handler
  registry, given anew with every request.
- `Sockets.Engine`: whether SetPipeline, SetHandler, SetConfigValues and Start
  succeed, and what a started socket balances over. SetConfigValues stores its
  value exactly when it succeeds and leaves the server list alone; each socket
  has its own balancer, whose operations are atomic for a picker. None of
  SetConfigValues, removeAllServers and addServer throws: src/proxy_server.h:77
  would turn such an exception into an error answer after some sockets have
  changed, so the isolation of failures rests on it.
- Handlers behind the management API are arbitrary functions of the context.
  Reading a missing key of the context does not throw: src/protocol_server.h:148
  stands outside the try, and a missing key counts as not authenticated.
- `SingleWriter.Torn`: what a step sees, or leaves stored, when it races with the
  unlocked assignment of a document load. A race is given any value, where the
  language gives it no meaning at all.

An exception is `None` or the status `Throws`. A null pointer made into a string
is `Undefined`, a loop that never advances is `Hangs`; a request that ends so has
`NoAnswer`. The resolved service's type is declared in config_types.h, which is
not part of this model; its port is taken as an int, as the stand-in at
test/config_parser_test.cpp:23 declares it, so that only the explicit cast of the
gateway narrows.

## What the proofs found

Where the code falls short of what it or its documentation says, the model keeps
the code, and a lemma states exactly when the promise holds.

- An edit changes the first endpoint of a name and applying lets the last one
  win. An ok add shows on the socket if and only if the name is stored once
  (`Conservation.OkAddShowsExactlyWhenUnique`); over whole runs, the edits of a
  name stored several times never show (`Conservation.ListIsFoldOfEdits`).
- An edit is stored before it is resolved, so an error answer does not take it
  back (`Conservation.NoEditIsLost`). A request is answered ok if and only if
  every stored endpoint has a valid port, a library that is cached, opens or
  shares the symbol of an earlier one, and a known handler
  (`Resolution.ResolvesExactlyWhen`, `Answers.StepOkExactly`). No edit can be
  answered ok any more if and only if the last document taken over has no
  endpoint, one with an invalid port, such as a `PROXY_PORT` it did not mention,
  or one whose plugin no library provides (`Answers.RunIsBlockedExactly`).
- src/proxy_server.h:33-34 calls the rebuild of a server list atomic. A picker
  meets exactly the prefixes of the stored lists of the socket's name
  (`Observations.PickerMeetsExactly`), never a mixture
  (`Observations.RunIsNeverMixed`). One rebuild looks atomic if and only if its
  new list is empty, or it puts a single service into an empty list
  (`Observations.RebuildLooksAtomicExactly`); for a whole update see
  `Observations.UpdateLooksAtomicExactly` and, for a name stored once,
  `Observations.UniqueUpdateLooksAtomicExactly`.
- src/config/ConfigSingleton.h:91 says the mutex guards hot-reload writes; the
  document load assigns the stored sections without it
  (src/config/ConfigSingleton.cpp:129-130). With one writer, every read outside a
  load is the fold of the edits committed before it, and all reads are folds of
  committed edits if and only if none falls into a load
  (`SingleWriter.ReadsAreLinear`, `SingleWriter.ReadsArePrefixesExactlyOutsideLoads`).
- No commit is ever lost if and only if there is at most one writer
  (`LostEdits.LosslessExactlyWithOneWriter`). With any number of writers, an
  interleaving never loses a commit, whatever is edited and loaded and whatever
  the races yield, if and only if every Set falls into no load and follows a Get
  that fell into no load with nothing committed in between, and no Set and no
  other load falls into a load that ends (`LostEdits.LosslessExactlyWhenClean`).
- The gateway loader goes round for ever at an end-point without services
  (src/config/ApiGatewayConfigParser.cpp:38-40, `GatewayParser.FixedPoint`), and
  terminates otherwise (`GatewayParser.TerminatesExactlyUnlessHangs`,
  `GatewayParser.NeverLeftExactlyWhenStuck`).
- A plugin is cached under its symbol and looked up under its own name, so a
  registered plugin is found if and only if that name had a function before, or
  the two names agree and the symbol is not null
  (`PipelineFactory.LookupAfterRegister`). A null symbol is opened again on every
  reload (`PipelineFactory.NullSymbolIsReopened`): opens are bounded by the
  number of symbols if and only if no library a plugin name leads to opens with
  a null symbol (`PipelineFactory.BoundedExactlyWhenNeverNull`).
- Proxy and protocol ports are checked when resolving; a gateway port never is.
  The sockets of an accepted document all have valid ports, whatever was in
  memory, if and only if every `end-point` element has a `port` child that reads
  as 1..65535 (`GatewayServer.CreatedPortsAreValidExactly`).
- A service added through /updateService always gets a weight nobody chose
  (`ProxyRoundTrip.EditRoundTrip`).

## Model

| member | source | states |
|---|---|---|
| Xml.FirstElement | src/config/ConfigParser.cpp:128 | FirstChildElement stands on the first tagged child, or is null when there is none |
| Xml.NextSibling | src/config/ConfigParser.cpp:159 | NextSiblingElement moves from the n-th tagged child to the next one, or to null after the last |
| Xml.FirstStopIsFirst | src/config/ConfigParser.cpp:98-126 | the status a loader ends with is that of the first failing check, and is success exactly when no check fails |
| ProxyParser.LoadServices | src/config/ConfigParser.cpp:128-160 | the SERVICE loop returns the first failing PORT's code, or the services in document order with junk only in fields the document leaves out or a weight that is no number |
| ProxyParser.LoadEndPoint | src/config/ConfigParser.cpp:91-160 | one END_POINT: the code of the first failing check in processing order, or exactly the endpoint described |
| ProxyParser.LoadEndPoints | src/config/ConfigParser.cpp:89-164 | the END_POINT loop: first failing check over all of them, or all endpoints in document order |
| ProxyParser.LoadClusters | src/config/ConfigParser.cpp:81-169 | the CLUSTER loop, likewise |
| ProxyParser.LoadProxyServerConfigurations | src/config/ConfigParser.cpp:70-173 | the output is the document-order configuration when every check passes, and untouched otherwise |
| ProxyParser.EndPointAccepted | src/config/ConfigParser.cpp:98-156 | one endpoint passes exactly when its PROXY_PORT, if present, is an integer in 1..65535, SERVICES is present and every PORT present is an integer |
| ProxyParser.AcceptedExactlyWhenWellFormed | src/config/ConfigParser.cpp:70-173 | the whole section is accepted exactly when all its endpoints are so |
| ProxyParser.EndPointCode | src/config/ConfigParser.cpp:98-156 | which code one endpoint is rejected with: a missing text, no integer or out of range at PROXY_PORT first, then missing SERVICES, then the first bad PORT |
| ProxyParser.EndPointIsRead | src/config/ConfigParser.cpp:91-162 | each field of an endpoint and of each of its services is the text, attribute or number its own element has, and memory content only where the element is silent |
| ProxyParser.ConfigIsRead | src/config/ConfigParser.cpp:70-173 | the whole section is what its elements say, in document order, cluster by cluster and field by field |
| ProxyRoundTrip.StoiReadsNumerals | src/config/ConfigParser.cpp:100-101 | the strtol rule reads the numeral of every int back, so the round trip's assumption can be met |
| ProxyRoundTrip.EndPointRoundTrip | src/config/ConfigParser.cpp:91-162 | an endpoint survives rendering and loading, whatever the junk |
| ProxyRoundTrip.RoundTrip | src/config/ConfigParser.cpp:70-173 | any number of clusters, endpoints and services: loading the rendering succeeds and gives back exactly the configuration |
| ProxyRoundTrip.EditRoundTrip | src/config/ConfigParser.cpp:295-339 | an edit document is read back as the edit, except for the weight, which is junk, and the source hostname, which is empty |
| ProtocolParser.LoadRoute | src/config/ConfigParser.cpp:247-276 | a route is required unless its required text is "false", "0" or "no" up to upper case, follows the server where it has no such element, and any text that is neither a no nor a yes throws; path, method, handler and authorization come from their own elements |
| ProtocolParser.LoadRoutes | src/config/ConfigParser.cpp:245-280 | the route loop: throws at the first bad required text, or gives all routes in order |
| ProtocolParser.LoadServer | src/config/ConfigParser.cpp:193-281 | one server: its port is checked before any of its routes |
| ProtocolParser.LoadServers | src/config/ConfigParser.cpp:191-285 | the server loop: first failing check over all servers, or all servers in document order |
| ProtocolParser.LoadProtocolServerConfigurations | src/config/ConfigParser.cpp:179-289 | all servers in document order when every check passes, and the old value on a code or an exception |
| ProtocolParser.AcceptedExactlyWhenWellFormed | src/config/ConfigParser.cpp:197-268 | accepted exactly when every port is an integer and every required text is a yes or a no |
| ProtocolParser.RouteIsRead | src/config/ConfigParser.cpp:247-276 | the same of the specification, with the texts that throw in both directions |
| ProtocolParser.ServerIsRead | src/config/ConfigParser.cpp:193-281 | each field of an accepted server, its auth, authorization and routes is what its own element says |
| ProtocolParser.ConfigIsRead | src/config/ConfigParser.cpp:179-289 | the whole accepted section is what its elements say, in document order and field by field |
| GatewayParser.LoadUris | src/config/ApiGatewayConfigParser.cpp:47-63 | the uri loop: first null text or bad port, or all URIs in order |
| GatewayParser.LoadServices | src/config/ApiGatewayConfigParser.cpp:42-67 | the service loop, likewise |
| GatewayParser.LoadEndPoint | src/config/ApiGatewayConfigParser.cpp:24-69 | one end-point, with Hangs exactly where services are missing and nothing before stops it |
| GatewayParser.LoadEndPoints | src/config/ApiGatewayConfigParser.cpp:22-71 | the outer loop, with a measure on the siblings left |
| GatewayParser.LoadApiGatewayConfigurations | src/config/ApiGatewayConfigParser.cpp:15-74 | the section is replaced when every check passes and untouched otherwise |
| GatewayParser.FixedPoint | src/config/ApiGatewayConfigParser.cpp:38-40 | once the cursor stands on an end-point element without services whose attribute and texts read, no further pass changes the loop's state |
| GatewayParser.PortsAreValidExactly | src/config/ApiGatewayConfigParser.cpp:27-30 | of end-points accepted, all ports are valid whatever was in memory if and only if every element has a port child that reads as 1..65535 |
| GatewayParser.EndPointIsRead | src/config/ApiGatewayConfigParser.cpp:24-69 | each field of a collected end-point, its services and URIs is what its own element says |
| GatewayParser.ConfigIsRead | src/config/ApiGatewayConfigParser.cpp:15-74 | the whole accepted section is what its elements say, in document order and field by field |
| GatewayParser.SectionBreaksExactly | src/config/ApiGatewayConfigParser.cpp:15-74 | the section ends with an error code exactly when it is missing, and crashes, throws or hangs exactly as its first end-point that is not collected does |
| GatewayParser.TerminatesExactlyUnlessHangs | src/config/ApiGatewayConfigParser.cpp:22-72 | for every tree the loop as written is left after some number of passes exactly when the loader's status is not Hangs, and then with that status and the document-order list |
| GatewayParser.NeverLeftExactlyWhenStuck | src/config/ApiGatewayConfigParser.cpp:22-72 | for every tree the loop is never left if and only if some end-point has no services while its attribute and texts read and every end-point before it passes |
| GatewayParser.TerminatesExactlyWithServices | src/config/ApiGatewayConfigParser.cpp:22-72 | when attributes and texts are in place, it terminates exactly when every end-point has services |
| ConfigLoad.ThrowNeedsBadRoute | src/config/ConfigParser.cpp:264-266 | a load throws from the protocol section only on a required text that is neither a yes nor a no |
| ConfigLoad.ProtocolStatuses | src/config/ConfigParser.cpp:179-289 | the protocol section never hangs and never reads a null text |
| ConfigLoad.SectionsAreAtomic | src/config/ConfigParser.cpp:42-64 | for every content: each section ends wholly old or wholly the parse of its own subtree; nothing changes when there is nothing to load or the protocol section throws; a rejected proxy section does not stop the gateway section; how the load ends |
| ConfigLoad.NothingIsLoaded | src/config/ConfigSingleton.cpp:114-131 | empty or malformed text and a missing root leave all three sections, each with its own code |
| ConfigLoad.ProtocolThrowsExactly | src/config/ConfigParser.cpp:197-268 | the protocol section throws exactly when its first server that is not well-formed has a readable port and a required text that is neither a yes nor a no |
| ConfigLoad.LoadEdit | src/config/ConfigParser.cpp:295-339 | the parser of the edit document, step by step |
| ConfigLoad.EditIsRead | src/config/ConfigParser.cpp:295-339 | an edit is read exactly from a document whose first end_point has an add or a delete, a service, and a port that is absent or an integer; each field is what its element says, the weight is memory content |
| ConfigSingleton.Singleton.ParseConfiguration | src/config/ConfigParser.cpp:58-63 | the three loaders in order, their return codes dropped |
| ConfigSingleton.Singleton.LoadConfigurationsFromString | src/config/ConfigSingleton.cpp:114-131 | empty or malformed text and a missing root change nothing |
| PipelineFactory.FindLibrary | src/config/PipelineFactory.h:126-130 | the first library in set order with that base name, or none has it |
| PipelineFactory.Factory.RegisterPipeline | src/config/PipelineFactory.h:97-165 | a failed registration changes nothing, a successful one leaves the symbol cached |
| PipelineFactory.CachedForEver | src/config/PipelineFactory.h:140-143 | over any run of registrations a cached function never changes |
| PipelineFactory.KindsAreSeparate | src/config/PipelineFactory.h:99-107 | registrations of one socket type leave the other types' tables alone |
| PipelineFactory.OpensAreBounded | src/config/PipelineFactory.h:140-163 | as long as no plugin registered leads to a library that opens with a null symbol, each type keeps one open library per cached function, at most as many as there are symbols |
| PipelineFactory.BoundedExactlyWhenNeverNull | src/config/PipelineFactory.h:140-163 | every run with a linker keeps that bound if and only if no library a plugin name leads to opens with a null symbol |
| PipelineFactory.NullSymbolIsReopened | src/config/PipelineFactory.h:141-163 | in any plugins folder, n registrations of a plugin whose symbol is null keep n libraries open |
| PipelineFactory.LookupAfterRegister | src/config/PipelineFactory.h:73-88 | after a successful registration the plugin's name finds a function exactly when it had one before, or library and symbol names agree and the symbol is not null |
| PipelineFactory.LookupIs | src/config/PipelineFactory.h:140-163 | and it is the function dlsym found, or the one cached under that name before |
| Resolution.ResolveAllMeaning | src/config/ConfigSingleton.cpp:160-212 | a resolution that does not throw gives one result per endpoint, in order, with its services, and every port is in 1..65535 |
| Resolution.ResolvesExactlyWhen | src/config/ConfigSingleton.cpp:166-207 | resolving does not throw if and only if each endpoint has a valid port, a library found that is cached, opens, or shares its symbol with an earlier endpoint's, and a known handler |
| Resolution.ResolvedIsSpelled | src/config/ConfigSingleton.cpp:166-207 | each resolved endpoint has the endpoint's name, port, pipeline name and strategy, the handler registered under its name, and for each service its host, port, weight, source hostname and the endpoint's read-write flag |
| Resolution.OneCarries | src/config/ConfigSingleton.cpp:176-187 | the server list and the socket configuration of an endpoint are the only ones with these fields |
| Resolution.PipelinesAre | src/config/ConfigSingleton.cpp:193-197 | the pipeline is what is cached under the endpoint's plugin name once the endpoint is registered |
| Resolution.ResolveServersMeaning | src/config/ConfigSingleton.cpp:218-281 | names, ports, handlers, auth and routes are kept, with a pipeline that is not null |
| Resolution.ServersResolveExactlyWhen | src/config/ConfigSingleton.cpp:218-281 | resolving servers does not throw if and only if each has a valid port, a plugin that can be registered, a function cached under its own name by then, and a known handler |
| ConfigSingleton.Singleton.ResolveProxyServerConfigurations | src/config/ConfigSingleton.cpp:160-212 | the nested loops resolve all endpoints in order and throw at the first that fails, keeping the plugins registered until then |
| ConfigSingleton.Singleton.ResolveOne | src/config/ConfigSingleton.cpp:166-207 | one endpoint: the port is checked before any plugin is registered |
| ProxyServer.UpdateProxyConfig | src/proxy_server.h:38-52 | the socket ends with exactly the new list after passing through its prefixes, and with the new configuration when that was accepted |
| ProxyServer.ApplyConfig | src/proxy_server.h:66-75 | an untracked name is skipped and the error return in the loop is never taken |
| ProxyServer.UpdateProxyServers | src/proxy_server.h:63-82 | everything is resolved before any socket is touched; an error answer leaves every socket as it was |
| ProxyServer.EditInPlace | src/proxy_server.h:101-124 | the loops over the copied configuration find the first endpoint of the name and edit only that one |
| ProxyServer.EditIsAtFirst | src/proxy_server.h:104-130 | over all clusters, an edit changes the first endpoint of the name and nothing else, and fails exactly when there is none |
| ProxyServer.UpdateProxyEndPointService | src/proxy_server.h:91-134 | the edited configuration is stored and then resolved; an error leaves every socket as it was |
| ProxyServer.StartProxyServer | src/proxy_server.h:185-216 | the code of the first step that fails, and the started socket when none does |
| ProxyServer.Track | src/proxy_server.h:250-254 | a new socket is mapped and every mapped socket stays alive and mapped once, even when the name was taken |
| ProxyServer.Untrack | src/proxy_server.h:257-258 | the map has let go of the socket, which is deleted, and every socket still mapped is alive |
| ProxyServer.InitOne | src/proxy_server.h:237-261 | a failed socket is erased, a libuv socket never entered |
| ProxyServer.InitProxyServers | src/proxy_server.h:230-267 | startup over all endpoints, as Boot computes it; a resolution that throws changes no socket |
| Startup.StartupStopsAtFirstFailure | src/proxy_server.h:230-267 | with any names: startup stops at the first failing position with its code, each name is mapped to its last tracked endpoint before it, the failing name to nothing |
| Startup.StartupWithDistinctNames | src/proxy_server.h:230-267 | with distinct names: exactly the tracked endpoints before the failure are mapped, each to its own socket and services |
| Startup.StartIsTheEndPoints | src/proxy_server.h:185-216 | a start returns 0, -3 or -2 as its steps with this endpoint's configuration succeed, and the started socket has the endpoint's port, name and services, field by field |
| Startup.BootCodeIs | src/proxy_server.h:230-267 | startup returns 0 exactly when every stored endpoint starts, and else the code of the first step of the first that does not |
| Startup.BootConfigures | src/proxy_server.h:230-267 | after startup a name is mapped to a socket on the port of its last tracked endpoint before the failure, configured with that endpoint's name, port and services |
| Startup.PortsAreSafe | src/config/ConfigSingleton.cpp:168-174 | whatever is stored, no socket is created on a port outside 1..65535 |
| HotReload.UpdateConfiguration | src/protocol_server.h:39-47 | the load's code is ignored: a rejected document re-applies what is stored; anything but ok leaves the sockets alone |
| HotReload.UpdateEndPointService | src/protocol_server.h:54-63 | a document that throws changes nothing; anything but ok leaves the sockets alone |
| HotReload.NoEditNoChange | src/protocol_server.h:54-63 | a document that is no edit is answered with an error and changes nothing at all |
| HotReload.EditKeepsTheRest | src/proxy_server.h:101-133 | an edit request, whatever its answer, changes services of proxy endpoints and nothing else that is stored |
| HotReload.RejectedLoadKeepsTheStore | src/protocol_server.h:39-47 | with nothing to load, or when the protocol section throws, all three stored sections stay |
| HotReload.InStepFieldByField | src/proxy_server.h:38-52 | in step means: the endpoint's services and configuration, field by field |
| HotReload.UpdateConfigures | src/proxy_server.h:44-46 | after an ok update a socket's configuration is that of the last stored endpoint of its name it accepted, or the one it had |
| HotReload.UpdateOutcome | src/proxy_server.h:63-82 | an ok update brings each tracked socket in step with the last stored endpoint of its name and keeps those whose name is not stored |
| HotReload.StepOutcome | src/protocol_server.h:39-63 | the same for every request, about the configuration stored after it |
| HotReload.Reconciliation | src/proxy_server.h:63-82 | after any run, a socket's list is that of the last endpoint of its name in the configuration of the last ok answer that stored the name, and untouched if there was none |
| HotReload.LastOkMeansInStep | src/proxy_server.h:63-82 | after any run whose last answer was ok, every tracked socket whose name is stored agrees with what is stored |
| HotReload.FailuresAreIsolated | src/proxy_server.h:77-80 | any number of calls not answered ok changes no socket |
| Lifetime.BootMapsTrackedNames | src/proxy_server.h:230-267 | after a successful startup a name is mapped exactly when some stored endpoint of that name is not a libuv one |
| Lifetime.BootSucceedsExactly | src/proxy_server.h:230-267 | startup returns 0 if and only if every stored endpoint can be resolved and starts |
| Lifetime.LiveSocketsFollowTheStore | src/proxy_server.h:63-82 | from startup through any calls ending in ok: exactly the names tracked at startup have sockets, each balancing over its last stored endpoint's services; a libuv name never gets one |
| Lifetime.DocumentDrivesSockets | src/protocol_server.h:39-47 | after a document with a well-formed proxy section answered ok, the k-th server of each tracked socket is the k-th SERVICE of the last END_POINT element of its name, field by field, and a socket no element names is as it was |
| Observations.UpdateIsNeverMixed | src/proxy_server.h:44-51 | during one update a picker meets the old list or a prefix of the new list, and in the end the new list |
| Observations.PickerMeetsExactly | src/proxy_server.h:44-51 | during an ok update the lists a picker can meet on a socket are exactly the prefixes of the lists of the stored endpoints of its name |
| Observations.RebuildLooksAtomicExactly | src/proxy_server.h:33-51 | one rebuild shows nothing but the old and the new list if and only if the new list is empty, or has one service and the old one is empty |
| Observations.UpdateLooksAtomicExactly | src/proxy_server.h:63-76 | the same for a whole update, with any number of endpoints of the socket's name |
| Observations.UniqueUpdateLooksAtomicExactly | src/proxy_server.h:63-76 | the same for a name stored once |
| Observations.RunIsNeverMixed | src/proxy_server.h:44-51 | over any run, every list ever met was there at the start or is a prefix of one stored endpoint's list |
| Conservation.DeleteKeepsTheOthersInOrder | src/proxy_server.h:114-119 | a delete removes all and only the services of that name and keeps the others in order |
| Conservation.OkMeansAgreeing | src/proxy_server.h:63-82 | every ok answer leaves each socket in agreement with the last stored endpoint of its name |
| Conservation.OkEdit | src/proxy_server.h:104-133 | what an ok edit does to every socket's list, with unique and with repeated endpoint names |
| Conservation.OkAddShowsExactlyWhenUnique | src/proxy_server.h:104-133 | an ok add appends exactly the resolved service to the socket's list if and only if the endpoint name is stored once |
| Conservation.NoEditIsLost | src/proxy_server.h:101-133 | over any run of loads and edits, whatever the answers, what is stored is the last document taken over with nothing changed but the first endpoint of each name, which holds the fold of the edits addressed to it since |
| Conservation.ListIsFoldOfEdits | src/proxy_server.h:91-134 | after any run ending in ok, a socket's list is the resolved fold of its own edits when its name is stored once, and the unedited last endpoint when it is stored several times |
| Answers.UpdateOkExactly | src/proxy_server.h:63-82 | an update is answered ok if and only if every stored endpoint can be resolved, and with an error otherwise |
| Answers.EditOkExactly | src/proxy_server.h:91-134 | an edit is answered ok if and only if it is an add or a delete, its name is stored and what was stored before can be resolved |
| Answers.StepOkExactly | src/protocol_server.h:39-63 | from the documents on: when a request is answered ok, and that no answer comes exactly from a gateway section that crashes or hangs |
| Answers.EditAnsweredOkExactly | src/proxy_server.h:91-134 | which edit requests of any run are answered ok |
| Answers.RunIsBlockedExactly | src/config/ConfigSingleton.cpp:170-174 | at any point of any run, no edit whatever can be answered ok if and only if the last document taken over has no endpoint, an invalid port or a plugin without a library |
| Answers.BlockedEditsChangeNoSocket | src/proxy_server.h:132-133 | over such a configuration no edit request of a run is answered ok and no socket changes |
| SingleWriter.ReadsAreLinear | src/config/ConfigSingleton.h:107-115 | one writer, any readers, any interleaving: every read outside a load is the fold of the commits before it, whatever other reads do, the stored value is the fold of all, and a resolution works on its own commit |
| SingleWriter.ReadsArePrefixesExactlyOutsideLoads | src/config/ConfigSingleton.cpp:129-130 | every read is the fold of a prefix of the commits, whatever a torn read yields, if and only if no read falls into the middle of an unlocked load |
| LostEdits.CleanIsLossless | src/config/ConfigSingleton.h:107-115 | with any number of writers, as long as every Set is fresh and outside loads and every load that ends is alone, what is stored is the fold of all commits |
| LostEdits.LosslessExactlyWhenClean | src/proxy_server.h:101-132 | an interleaving that can happen never loses a commit, whatever the edits, documents, start and races, if and only if every Set falls into no load and follows a Get outside loads with nothing committed in between, and no Set and no other load falls into a load that ends |
| LostEdits.LosslessExactlyWithOneWriter | src/config/ConfigSingleton.h:12-16 | every run leaves the fold of its commits stored if and only if there is at most one writer |
| RoutingIndex.BuildHostMap | src/api_gateway_server.h:98-119 | the nested loops build the host map: the first entry of a path stays, the last service of a hostname wins |
| RoutingIndex.LookupIsScan | src/api_gateway_server.h:97-120 | looking up host and path is scanning for the first valid URI with that path in the last service with that hostname, port unharmed by the narrowing cast |
| RoutingIndex.StoredTargetsAreSafe | src/api_gateway_server.h:102-116 | every stored target has a host, a port in 1..65535, and is spelled by some URI of the endpoint |
| GatewayServer.GatewayServers.InitApiGatewayServers | src/api_gateway_server.h:40-67 | startup with rollback; the port of each socket is the stored one, unchecked |
| GatewayServer.StartCodeExactly | src/api_gateway_server.h:88-126 | 0, -3 and -2 exactly as the steps succeed |
| GatewayServer.StartedRouteLikeTheScan | src/api_gateway_server.h:44-61 | after startup, a name is mapped exactly when its last endpoint met has started, and then routes as the linear scan of that endpoint |
| GatewayServer.NothingElseIsMapped | src/api_gateway_server.h:44-61 | only names of endpoints met by startup are mapped |
| GatewayServer.CreatedPortsAreValidExactly | src/api_gateway_server.h:44-49 | the sockets created for the end-points of an accepted document have valid ports whatever was in memory if and only if each element has a port child that reads as 1..65535 |
| RequestGate.Handle | src/protocol_server.h:139-204 | the next dispatch happens exactly when the guard before it passed, in the order authentication, authorization, request handler, each on the context the one before left; the answer follows from the last dispatch |
| RequestGate.OutcomeSaysWhatFailed | src/protocol_server.h:146-204 | Unauthorized, Forbidden, internal error, response or propagated exception, each exactly as the last dispatch ended |
| RequestGate.ContextsAre | src/protocol_server.h:139-187 | what each dispatch finds in the context, key by key |
| RequestGate.GateIsTheDocuments | src/config/ConfigParser.cpp:216-276 | the gate exactly, from the elements: who is dispatched if and only if what is there and passed; an unguarded route is its request handler's dispatch alone |
| RequestGate.DispatchFollowsDocument | src/config/ConfigParser.cpp:216-276 | for a route element under a server element, dispatch needs no auth element, a required text that says no, or the named handlers having passed |
| ProtocolServer.ProtocolServers.RegisterRoutes | src/protocol_server.h:119-208 | one closure per route with a known method, capturing that route and its server's auth |
| ProtocolServer.StartProtocolServer | src/protocol_server.h:74-100 | the code of the first step that fails |
| ProtocolServer.StartCodeExactly | src/protocol_server.h:74-100 | 0, -3 and -2 exactly as the steps succeed, a missing handler being no failure |
| ProtocolServer.OneClosureEach | src/protocol_server.h:119-208 | a server with a handler registers one closure for each route with a known method, in order, under that route's path and method |
| ProtocolServer.ProtocolServers.InitOne | src/protocol_server.h:116-223 | one closure per route with a known method is registered whether or not the socket then starts; a socket is created on the resolved port, and a failed one is erased |
| ProtocolServer.ProtocolServers.InitProtocolServers | src/protocol_server.h:113-225 | a resolution that throws creates nothing; otherwise the closures of the servers met are registered, their sockets created and mapped in order, and startup ends with the code of the first that fails |
| ProtocolServer.LastServerIsMapped | src/protocol_server.h:210-219 | the last server met of a name decides: the name is mapped to a socket on its port if it started, to nothing if not |
| ProtocolServer.OtherNamesStay | src/protocol_server.h:210-219 | no other name is mapped anew |
| ProtocolServer.StartupIsSafe | src/config/ConfigSingleton.cpp:218-281 | every closure pairs a route with its own server's auth under that route's path and a known method; every socket has a port in 1..65535 whatever was in memory |
| ProtocolServer.RouteHasItsClosure | src/protocol_server.h:119-127 | every route with a known method of a server met that has a handler has its closure |
| ProtocolServer.ResolveProtocolServerConfigurations | src/config/ConfigSingleton.cpp:218-281 | the loop resolves the servers in order and throws at the first that fails |
| ProtocolServer.DispatchNeedsDocument | src/protocol_server.h:146-204 | from an accepted document to dispatch: a closure comes from a route element under a server element, with exactly that element's route and that server's auth, and its request handler runs only as these two elements allow |
| ProtocolServer.ClosureIsGatedByDocument | src/protocol_server.h:119-208 | every closure of an accepted document is gated exactly as the route and server elements it was made from ask |
| Registry.ProxyInfo.DeleteMaster | test/ProxyInfo.cpp:34-48 | removes the first master with the address; true exactly when the key is absent or the address was there |
| Registry.ProxyInfo.FindMaster | test/ProxyInfo.cpp:52-66 | true exactly when the key lists the address |
| Registry.ProxyInfo.AddProxyList | test/ProxyInfo.cpp:68-73 | adding a list is adding its masters one by one |
| Registry.ProxyInfo.Resolve | test/ProxyInfo.cpp:88-104 | decided by the first master with the address alone |
| Registry.ClusterInfo.AddClusterNode | test/ProxyInfo.cpp:126-132 | adds to the named cluster, made empty when it is new, and to no other |
| Registry.AddedAllIsFold | test/ProxyInfo.cpp:68-87 | adds append in order under their key only, and a key keeps the port it was first added with |
| Registry.CountIsBalance | test/ProxyInfo.cpp:34-87 | over any run of adds and deletes a key lists an address as often as the truncated add and delete count says |
| Registry.ResolvedByFirst | test/ProxyInfo.cpp:88-104 | a master is given exactly when the first one with the key as its address is of the asked kind, and then that one |
| Registry.DeleteTakesFirst | test/ProxyInfo.cpp:34-48 | a delete takes out one position, the first, and keeps the order of the rest, the key's port and every other key |
| Decimal.StoiOfNumeral | src/config/ConfigParser.cpp:205 | reading the numeral of an int by the strtol rule gives that int |
| SignalPrinter.FormatSignal | src/main.cpp:115-122 | for every n >= 0 the loop stays in the buffer and the slice written is the numeral, or its last seven digits, and a newline |
| SignalPrinter.EmittedDecodes | src/main.cpp:115-122 | decoding the slice gives n modulo 10^7, and the whole numeral exactly when n is below 10^7 |

## Left out

- Load-balancing strategies: only their construction is in this repository.
- Wire protocols, pipelines, TLS, libuv and thread pools; in particular nothing is said about a libuv socket once it is started.
- The server list of a socket between startup and its first update: filled by code outside the repository.
- XML lexing and printing, integer scanning inside the XML library: the element tree, the reader and the printed text are parameters.
- The download of the configuration file, environment variables, the scan of the plugins folder, logging, JSON message texts beyond ok and error.
- What an authentication or authorization handler decides; the strategies built for them are kept by name.
- The zeroed Buffer field of a resolved service, and the type of its port.
- The registry's clusters hold their proxy maps by value, as the source does; the pointer its Resolve returns into the map is modelled as the master it points to.
- Memory: replaced sockets and the auth objects allocated while resolving are not tracked after they are let go of.
- A resolution is one step of a writer: it reads without the mutex too, and what it sees when another writer commits in the middle of it is not modelled; nothing stored depends on it.
- Data races other than the unlocked load: the socket map and the balancers are used by one request at a time.
- What the process does after a request that crashes or never returns: runs continue from the state it left, which only adds runs.
- src/config/ConfigSingleton.cpp's file loading at construction: the same parse as the load from a string.
