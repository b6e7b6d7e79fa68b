/**
  The two update requests of the management API (src/protocol_server.h,
  updateConfiguration and updateEndPointService), and what any run of them does
  to the stored configuration and to the live sockets.
 */
module HotReload {
  import opened Wrappers
  import opened Xml
  import opened ConfigTypes
  import opened PipelineFactory
  import opened Resolution
  import opened ConfigLoad
  import opened Sockets
  import opened ConfigSingleton
  import opened ProxyServer

  datatype Request = Configure(content: Content, junk: Junk) | EditOne(content: Content, editJunk: ServiceJunk)

  /** A request, with what the linker, the handlers and the sockets do while it runs. */
  datatype Call = Call(request: Request, env: Env, engine: Engine)

  /** What stays the same over a run: the plugin files and the XML library. */
  datatype World = World(libraries: seq<Library>, reader: Reader)

  function Step(plane: Plane, call: Call, world: World): (Plane, Answer) {
    match call.request
    case Configure(content, junk) => ConfigureStep(plane, content, junk, call.env, call.engine, world)
    case EditOne(content, junk) => EditStep(plane, content, junk, call.env, call.engine, world)
  }

  function ConfigureStep(plane: Plane, content: Content, junk: Junk, env: Env, engine: Engine, world: World)
    : (Plane, Answer)
  {
    var (store, st) := Load(plane.store, content, world.reader, junk);
    var loaded := plane.(store := store);
    if st.Go? || st.Fail? then Update(loaded, world.libraries, env, engine)
    else (loaded, if st.Throws? then Error else NoAnswer)
  }

  function EditStep(plane: Plane, content: Content, junk: ServiceJunk, env: Env, engine: Engine, world: World)
    : (Plane, Answer)
  {
    var edit := EditFrom(content, world.reader, junk);
    if edit.None? then (plane, Error) else EditService(plane, edit.value, world.libraries, env, engine)
  }

  /** The load's return code is not looked at: a rejected document still re-applies what is stored. */
  method UpdateConfiguration(plane: Singleton, content: Content, reader: Reader, junk: Junk, env: Env, engine: Engine)
    returns (answer: Answer)
    requires plane.Valid()
    modifies plane`proxyConfig, plane`protocolConfig, plane`gatewayConfig, plane.factory, plane.proxySockets.Values
    ensures plane.Valid()
    ensures (plane.View(), answer) ==
            ConfigureStep(old(plane.View()), content, junk, env, engine, World(plane.factory.libraries, reader))
    ensures answer != Ok ==> plane.LiveView() == old(plane.LiveView())
  {
    ghost var loaded := old(plane.View()).(store := Load(old(plane.StoreView()), content, reader, junk).0);
    var st := plane.LoadConfigurationsFromString(content, reader, junk);
    assert plane.View() == loaded;
    if st.Throws? {
      return Error;
    }
    if st.Undefined? || st.Hangs? {
      return NoAnswer;
    }
    answer := UpdateProxyServers(plane, env, engine);
  }

  method UpdateEndPointService(plane: Singleton, content: Content, reader: Reader, junk: ServiceJunk, env: Env,
                               engine: Engine)
    returns (answer: Answer)
    requires plane.Valid()
    modifies plane`proxyConfig, plane.factory, plane.proxySockets.Values
    ensures plane.Valid()
    ensures (plane.View(), answer) ==
            EditStep(old(plane.View()), content, junk, env, engine, World(plane.factory.libraries, reader))
    ensures answer != Ok ==> plane.LiveView() == old(plane.LiveView())
  {
    var edit := LoadEdit(content, reader, junk);
    if edit.None? {
      return Error;
    }
    answer := UpdateProxyEndPointService(plane, edit.value, env, engine);
  }

  // ----- What a request leaves alone -----

  /** The stored proxy sections differ in the services of endpoints only. */
  ghost predicate SameButEndPointServices(a: ProxyConfig, b: ProxyConfig) {
    && a.handlers == b.handlers && |a.clusters| == |b.clusters|
    && forall h :: 0 <= h < |a.clusters| ==> SameCluster(a.clusters[h], b.clusters[h])
  }

  ghost predicate SameCluster(a: Cluster, b: Cluster) {
    && a.name == b.name && |a.endPoints| == |b.endPoints|
    && forall i :: 0 <= i < |a.endPoints| ==> b.endPoints[i] == a.endPoints[i].(services := b.endPoints[i].services)
  }

  /** A document that is no edit is answered with an error, and nothing at all changes. */
  lemma NoEditNoChange(plane: Plane, call: Call, world: World)
    requires call.request.EditOne? && !IsEdit(call.request.content, world.reader)
    ensures Step(plane, call, world) == (plane, Error)
  {
    EditIsRead(call.request.content, world.reader, call.request.editJunk);
  }

  lemma EditedCluster(clusters: seq<Cluster>, edit: ServiceEdit)
    requires EditClusters(clusters, edit).Some?
    ensures SameButEndPointServices(ProxyConfig(clusters, []), ProxyConfig(EditClusters(clusters, edit).value, []))
  {
  }

  lemma EditServiceKeepsTheRest(plane: Plane, edit: ServiceEdit, libraries: seq<Library>, env: Env, engine: Engine)
    ensures var after := EditService(plane, edit, libraries, env, engine).0.store;
            && after.protocol == plane.store.protocol && after.gateway == plane.store.gateway
            && (after.proxy == plane.store.proxy
                || (EditClusters(plane.store.proxy.clusters, edit).Some?
                    && after.proxy ==
                       plane.store.proxy.(clusters := EditClusters(plane.store.proxy.clusters, edit).value)))
  {
  }

  /** An edit request, whatever its answer, changes services of proxy endpoints and nothing else that is stored. */
  lemma EditKeepsTheRest(plane: Plane, call: Call, world: World)
    requires call.request.EditOne?
    ensures var after := Step(plane, call, world).0.store;
            && after.protocol == plane.store.protocol && after.gateway == plane.store.gateway
            && SameButEndPointServices(plane.store.proxy, after.proxy)
  {
    var edit := EditFrom(call.request.content, world.reader, call.request.editJunk);
    if edit.Some? {
      EditServiceKeepsTheRest(plane, edit.value, world.libraries, call.env, call.engine);
      if EditClusters(plane.store.proxy.clusters, edit.value).Some? {
        EditedCluster(plane.store.proxy.clusters, edit.value);
      }
    }
  }

  /**
    A configuration request with nothing to load, or whose protocol section
    throws, leaves all three stored sections; the first still re-applies them.
   */
  lemma RejectedLoadKeepsTheStore(plane: Plane, call: Call, world: World)
    requires call.request.Configure?
    requires NothingToLoad(call.request.content)
             || ProtocolThrows(FirstChild(call.request.content.document, "clickhouse-proxy-v2").value, world.reader)
    ensures Step(plane, call, world).0.store == plane.store
    ensures NothingToLoad(call.request.content) ==>
              Step(plane, call, world) == Update(plane, world.libraries, call.env, call.engine)
    ensures !NothingToLoad(call.request.content) ==> Step(plane, call, world) == (plane, Error)
  {
    SectionsAreAtomic(plane.store, call.request.content, world.reader, call.request.junk);
  }

  function Stored(plane: Plane): seq<EndPoint> {
    EndPoints(plane.store.proxy.clusters)
  }

  // ----- One application -----

  /** The last of the first n endpoints with that name. */
  function LastNamed(ps: seq<EndPoint>, n: nat, name: string): (j: Option<nat>)
    requires n <= |ps|
    ensures j.Some? ==> j.value < n && ps[j.value].name == name
    ensures j.Some? ==> forall i :: j.value < i < n ==> ps[i].name != name
    ensures j.None? ==> forall i :: 0 <= i < n ==> ps[i].name != name
  {
    if n == 0 then None else if ps[n - 1].name == name then Some(n - 1) else LastNamed(ps, n - 1, name)
  }

  /** The socket `after` is the socket `before` brought in step with endpoint p. */
  ghost predicate InStep(before: SocketView, after: SocketView, p: EndPoint, engine: Engine) {
    && after.port == before.port
    && after.servers == Targets(p)
    && (engine.accepts(TargetOf(p)) ==> after.config == Some(TargetOf(p)))
  }

  /** In step means: every service and the configuration, field by field. */
  lemma InStepFieldByField(before: SocketView, after: SocketView, p: EndPoint, engine: Engine)
    ensures InStep(before, after, p, engine) <==>
            && after.port == before.port && AllCarry(after.servers, p.services, p.readWrite)
            && (engine.accepts(TargetOf(p)) ==> after.config.Some? && Configures(after.config.value, p))
  {
    OneCarries(p, after.servers, if after.config.Some? then after.config.value else TargetOf(p));
  }

  lemma {:induction false} ApplyAllAt(live: Live, rs: seq<ResolvedProxy>, ps: seq<EndPoint>, n: nat, engine: Engine,
                                      name: string)
    requires n <= |rs| == |ps| && forall i :: 0 <= i < |ps| ==> Resolves(rs[i], ps[i])
    ensures var after := ApplyAll(live, rs[..n], engine);
            var j := LastNamed(ps, n, name);
            && (name in after <==> name in live)
            && (name in live && j.None? ==> after[name] == live[name])
            && (name in live && j.Some? ==> InStep(live[name], after[name], ps[j.value], engine))
  {
    if n > 0 {
      ApplyAllAt(live, rs, ps, n - 1, engine, name);
      assert rs[..n][..n - 1] == rs[..n - 1];
    }
  }

  /**
    An update answered ok brings every tracked socket in step with the last
    stored endpoint of its name, leaves the tracked sockets whose name is not
    stored as they were, and tracks the same names as before.  One that is not
    answered ok changes no socket.
   */
  lemma UpdateOutcome(plane: Plane, libraries: seq<Library>, env: Env, engine: Engine, name: string)
    ensures var (after, answer) := Update(plane, libraries, env, engine);
            after.store == plane.store && Outcome(plane.live, after, answer, engine, name)
  {
    var ps := Stored(plane);
    var rs := ResolveAll(ps, libraries, env, plane.cache).1;
    ResolveAllMeaning(ps, libraries, env, plane.cache);
    if rs.Some? {
      ApplyAllAt(plane.live, rs.value, ps, |ps|, engine, name);
      assert rs.value[..|ps|] == rs.value;
    }
  }

  /** The last of the first n endpoints of that name whose configuration the socket accepts. */
  function LastAccepted(ps: seq<EndPoint>, n: nat, engine: Engine, name: string): (j: Option<nat>)
    requires n <= |ps|
    ensures j.Some? ==> j.value < n && ps[j.value].name == name && engine.accepts(TargetOf(ps[j.value]))
    ensures forall i :: (if j.Some? then j.value + 1 else 0) <= i < n ==>
                          !(ps[i].name == name && engine.accepts(TargetOf(ps[i])))
  {
    if n == 0 then None
    else if ps[n - 1].name == name && engine.accepts(TargetOf(ps[n - 1])) then Some(n - 1)
    else LastAccepted(ps, n - 1, engine, name)
  }

  lemma {:induction false} AcceptedAt(live: Live, rs: seq<ResolvedProxy>, ps: seq<EndPoint>, n: nat, engine: Engine,
                                      name: string)
    requires n <= |rs| == |ps| && forall i :: 0 <= i < |ps| ==> Resolves(rs[i], ps[i])
    requires name in live
    ensures name in ApplyAll(live, rs[..n], engine)
    ensures var j := LastAccepted(ps, n, engine, name);
            ApplyAll(live, rs[..n], engine)[name].config ==
            if j.Some? then Some(TargetOf(ps[j.value])) else live[name].config
  {
    if n > 0 {
      AcceptedAt(live, rs, ps, n - 1, engine, name);
      assert rs[..n][..n - 1] == rs[..n - 1];
      assert rs[n - 1].name == ps[n - 1].name && TargetConfigOf(rs[n - 1]) == TargetOf(ps[n - 1]);
    }
  }

  /**
    After an ok update the configuration of a tracked socket is that of the last
    stored endpoint of its name the socket accepted, name, port and services
    field by field; when it accepted none, it is as it was.
   */
  lemma UpdateConfigures(plane: Plane, libraries: seq<Library>, env: Env, engine: Engine, name: string)
    requires name in plane.live && Update(plane, libraries, env, engine).1 == Ok
    ensures var after := Update(plane, libraries, env, engine).0;
            var j := LastAccepted(Stored(plane), |Stored(plane)|, engine, name);
            && name in after.live
            && (j.None? ==> after.live[name].config == plane.live[name].config)
            && (j.Some? ==>
                  after.live[name].config.Some? && Configures(after.live[name].config.value, Stored(plane)[j.value]))
  {
    var ps := Stored(plane);
    var rs := ResolveAll(ps, libraries, env, plane.cache).1.value;
    ResolveAllMeaning(ps, libraries, env, plane.cache);
    AcceptedAt(plane.live, rs, ps, |ps|, engine, name);
    assert rs[..|ps|] == rs;
    var j := LastAccepted(ps, |ps|, engine, name);
    if j.Some? {
      OneCarries(ps[j.value], [], TargetOf(ps[j.value]));
    }
  }

  ghost predicate Outcome(live: Live, after: Plane, answer: Answer, engine: Engine, name: string) {
    var j := LastNamed(Stored(after), |Stored(after)|, name);
    && (answer != Ok ==> after.live == live)
    && (name in after.live <==> name in live)
    && (answer == Ok && name in live && j.None? ==> after.live[name] == live[name])
    && (answer == Ok && name in live && j.Some? ==>
        InStep(live[name], after.live[name], Stored(after)[j.value], engine))
  }

  /** The same holds of every request. */
  lemma StepOutcome(plane: Plane, call: Call, world: World, name: string)
    ensures var (after, answer) := Step(plane, call, world);
            Outcome(plane.live, after, answer, call.engine, name)
  {
    match call.request
    case Configure(content, junk) =>
      var loaded := plane.(store := Load(plane.store, content, world.reader, junk).0);
      UpdateOutcome(loaded, world.libraries, call.env, call.engine, name);
    case EditOne(content, junk) =>
      var edit := EditFrom(content, world.reader, junk);
      if edit.Some? && EditClusters(plane.store.proxy.clusters, edit.value).Some? {
        var clusters := EditClusters(plane.store.proxy.clusters, edit.value).value;
        UpdateOutcome(plane.(store := plane.store.(proxy := plane.store.proxy.(clusters := clusters))),
                      world.libraries, call.env, call.engine, name);
      }
  }

  // ----- Whole runs -----

  /** The states a run of calls goes through, and the answers given. */
  ghost predicate IsRun(planes: seq<Plane>, answers: seq<Answer>, calls: seq<Call>, world: World) {
    && |planes| == |calls| + 1 && |answers| == |calls|
    && forall k :: 0 <= k < |calls| ==> (planes[k + 1], answers[k]) == Step(planes[k], calls[k], world)
  }

  ghost predicate OutcomeAt(planes: seq<Plane>, answers: seq<Answer>, calls: seq<Call>, k: nat, name: string)
    requires k < |calls| == |answers| && |planes| == |calls| + 1
  {
    Outcome(planes[k].live, planes[k + 1], answers[k], calls[k].engine, name)
  }

  ghost predicate IsChain(planes: seq<Plane>, answers: seq<Answer>, calls: seq<Call>, name: string) {
    && |planes| == |calls| + 1 && |answers| == |calls|
    && forall k :: 0 <= k < |calls| ==> OutcomeAt(planes, answers, calls, k, name)
  }

  lemma RunIsChain(planes: seq<Plane>, answers: seq<Answer>, calls: seq<Call>, world: World, name: string)
    requires IsRun(planes, answers, calls, world)
    ensures IsChain(planes, answers, calls, name)
  {
    forall k | 0 <= k < |calls|
      ensures OutcomeAt(planes, answers, calls, k, name)
    {
      StepOutcome(planes[k], calls[k], world, name);
    }
  }

  predicate AppliedAt(planes: seq<Plane>, answers: seq<Answer>, k: nat, name: string)
    requires k < |answers| && |planes| == |answers| + 1
  {
    answers[k] == Ok && LastNamed(Stored(planes[k + 1]), |Stored(planes[k + 1])|, name).Some?
  }

  /** The last of the first n calls that was answered ok with an endpoint of that name stored. */
  function LastApplied(planes: seq<Plane>, answers: seq<Answer>, n: nat, name: string): (k: Option<nat>)
    requires n <= |answers| && |planes| == |answers| + 1
    ensures k.Some? ==> k.value < n && AppliedAt(planes, answers, k.value, name)
    ensures k.Some? ==> forall i :: k.value < i < n ==> !AppliedAt(planes, answers, i, name)
    ensures k.None? ==> forall i :: 0 <= i < n ==> !AppliedAt(planes, answers, i, name)
  {
    if n == 0 then None
    else if AppliedAt(planes, answers, n - 1, name) then Some(n - 1)
    else LastApplied(planes, answers, n - 1, name)
  }

  function LastEndPoint(plane: Plane, name: string): EndPoint
    requires LastNamed(Stored(plane), |Stored(plane)|, name).Some?
  {
    Stored(plane)[LastNamed(Stored(plane), |Stored(plane)|, name).value]
  }

  lemma {:induction false} ChainReconciles(planes: seq<Plane>, answers: seq<Answer>, calls: seq<Call>, n: nat,
                                           name: string)
    requires IsChain(planes, answers, calls, name) && n <= |calls|
    ensures var live := planes[n].live;
            var k := LastApplied(planes, answers, n, name);
            && (name in live <==> name in planes[0].live)
            && (name in live && k.None? ==> live[name] == planes[0].live[name])
            && (name in live && k.Some? ==>
                  InStep(planes[0].live[name], live[name], LastEndPoint(planes[k.value + 1], name),
                         calls[k.value].engine))
  {
    if n > 0 {
      ChainReconciles(planes, answers, calls, n - 1, name);
      assert OutcomeAt(planes, answers, calls, n - 1, name);
    }
  }

  /**
    After any run, a tracked socket balances over exactly the services of the
    last endpoint of its name in the configuration stored when a call was last
    answered ok with that name stored; if there was no such call, nothing about
    the socket has changed.  The tracked names are those of the beginning.
   */
  lemma Reconciliation(planes: seq<Plane>, answers: seq<Answer>, calls: seq<Call>, world: World, n: nat, name: string)
    requires IsRun(planes, answers, calls, world) && n <= |calls|
    ensures var live := planes[n].live;
            var k := LastApplied(planes, answers, n, name);
            && (name in live <==> name in planes[0].live)
            && (name in live && k.None? ==> live[name] == planes[0].live[name])
            && (name in live && k.Some? ==>
                  InStep(planes[0].live[name], live[name], LastEndPoint(planes[k.value + 1], name),
                         calls[k.value].engine))
  {
    RunIsChain(planes, answers, calls, world, name);
    ChainReconciles(planes, answers, calls, n, name);
  }

  lemma ChainEndsInStep(planes: seq<Plane>, answers: seq<Answer>, calls: seq<Call>, name: string)
    requires IsChain(planes, answers, calls, name) && calls != [] && answers[|calls| - 1] == Ok
    requires name in planes[0].live && Names(Stored(planes[|calls|]), name)
    ensures var after := planes[|calls|];
            && name in after.live
            && LastNamed(Stored(after), |Stored(after)|, name).Some?
            && InStep(planes[0].live[name], after.live[name], LastEndPoint(after, name), calls[|calls| - 1].engine)
  {
    ChainReconciles(planes, answers, calls, |calls|, name);
    assert AppliedAt(planes, answers, |calls| - 1, name);
  }

  /**
    When the last call of a run was answered ok, every tracked socket whose name
    is stored is in step with what is stored.
   */
  lemma LastOkMeansInStep(planes: seq<Plane>, answers: seq<Answer>, calls: seq<Call>, world: World, name: string)
    requires IsRun(planes, answers, calls, world) && calls != [] && answers[|calls| - 1] == Ok
    requires name in planes[0].live && Names(Stored(planes[|calls|]), name)
    ensures var after := planes[|calls|];
            && name in after.live
            && LastNamed(Stored(after), |Stored(after)|, name).Some?
            && InStep(planes[0].live[name], after.live[name], LastEndPoint(after, name), calls[|calls| - 1].engine)
  {
    RunIsChain(planes, answers, calls, world, name);
    ChainEndsInStep(planes, answers, calls, name);
  }

  lemma {:induction false} ChainIsolates(planes: seq<Plane>, answers: seq<Answer>, calls: seq<Call>, m: nat, n: nat)
    requires IsChain(planes, answers, calls, "") && m <= n <= |calls|
    requires forall k :: m <= k < n ==> answers[k] != Ok
    ensures planes[n].live == planes[m].live
  {
    if m < n {
      ChainIsolates(planes, answers, calls, m, n - 1);
      assert OutcomeAt(planes, answers, calls, n - 1, "");
    }
  }

  /** Calls not answered ok change no live socket, however many follow each other. */
  lemma FailuresAreIsolated(planes: seq<Plane>, answers: seq<Answer>, calls: seq<Call>, world: World, m: nat, n: nat)
    requires IsRun(planes, answers, calls, world) && m <= n <= |calls|
    requires forall k :: m <= k < n ==> answers[k] != Ok
    ensures planes[n].live == planes[m].live
  {
    RunIsChain(planes, answers, calls, world, "");
    ChainIsolates(planes, answers, calls, m, n);
  }
}
