/** What startup leaves behind, whatever position it fails at (src/proxy_server.h, initProxyServers). */
module Startup {
  import opened Wrappers
  import opened ConfigTypes
  import opened PipelineFactory
  import opened Resolution
  import opened Sockets
  import opened ConfigSingleton
  import opened ProxyServer

  /** The first position whose start fails, or the number of endpoints. */
  function FirstFailure(rs: seq<ResolvedProxy>, engine: Engine, n: nat): (f: nat)
    requires n <= |rs|
    ensures f <= n
    ensures forall i :: 0 <= i < f ==> StartCode(rs[i], i, engine) == 0
    ensures f < n ==> StartCode(rs[f], f, engine) < 0
  {
    if n == 0 then 0
    else
      var f := FirstFailure(rs, engine, n - 1);
      if f < n - 1 || StartCode(rs[n - 1], n - 1, engine) < 0 then f else n
  }

  predicate Tracked(r: ResolvedProxy) {
    r.pipelineName != LIBUV_PIPELINE
  }

  /** The last of the first n endpoints that is tracked under that name. */
  function LastTracked(rs: seq<ResolvedProxy>, n: nat, name: string): (j: Option<nat>)
    requires n <= |rs|
    ensures j.Some? ==> j.value < n && Tracked(rs[j.value]) && rs[j.value].name == name
    ensures j.Some? ==> forall i :: j.value < i < n ==> !(Tracked(rs[i]) && rs[i].name == name)
    ensures j.None? ==> forall i :: 0 <= i < n ==> !(Tracked(rs[i]) && rs[i].name == name)
  {
    if n == 0 then None
    else if Tracked(rs[n - 1]) && rs[n - 1].name == name then Some(n - 1)
    else LastTracked(rs, n - 1, name)
  }

  lemma {:induction false} AllStarted(live: Live, rs: seq<ResolvedProxy>, n: nat, engine: Engine)
    requires n <= |rs| && forall i :: 0 <= i < n ==> StartCode(rs[i], i, engine) == 0
    ensures var (after, code, ports) := InitUpTo(live, rs, n, engine);
            code == 0 && |ports| == n && forall i :: 0 <= i < n ==> ports[i] == rs[i].proxyPort
  {
    if n > 0 {
      AllStarted(live, rs, n - 1, engine);
    }
  }

  /** What one name is mapped to after n endpoints have started. */
  lemma {:induction false} MappedTo(live: Live, rs: seq<ResolvedProxy>, n: nat, engine: Engine, name: string)
    requires n <= |rs| && forall i :: 0 <= i < n ==> StartCode(rs[i], i, engine) == 0
    ensures var after := InitUpTo(live, rs, n, engine).0;
            var j := LastTracked(rs, n, name);
            if j.Some? then name in after && after[name] == Started(rs[j.value], j.value, engine)
            else (name in after <==> name in live) && (name in live ==> after[name] == live[name])
  {
    if n > 0 {
      AllStarted(live, rs, n - 1, engine);
      MappedTo(live, rs, n - 1, engine, name);
    }
  }

  /** What a name is mapped to when startup fails at f, or succeeds (f == |rs|). */
  ghost predicate MappedAfter(live: Live, rs: seq<ResolvedProxy>, f: nat, engine: Engine, name: string, after: Live)
    requires f <= |rs|
  {
    var j := LastTracked(rs, f, name);
    if f < |rs| && Tracked(rs[f]) && rs[f].name == name then name !in after
    else if j.Some? then name in after && after[name] == Started(rs[j.value], j.value, engine)
    else (name in after <==> name in live) && (name in live ==> after[name] == live[name])
  }

  /**
    Startup stops at the first failure f, with its code.  A name is mapped to
    the socket of its last tracked endpoint before f, or keeps what it had; the
    name of a failing tracked endpoint is mapped to nothing.  A socket has been
    created for every endpoint up to and including f.
   */
  lemma StartupStopsAtFirstFailure(live: Live, rs: seq<ResolvedProxy>, engine: Engine)
    ensures var f := FirstFailure(rs, engine, |rs|);
            var (after, code, ports) := InitUpTo(live, rs, |rs|, engine);
            && code == (if f == |rs| then 0 else StartCode(rs[f], f, engine))
            && |ports| == (if f == |rs| then f else f + 1)
            && (forall i :: 0 <= i < |ports| ==> ports[i] == rs[i].proxyPort)
            && forall name :: MappedAfter(live, rs, f, engine, name, after)
  {
    var f := FirstFailure(rs, engine, |rs|);
    AllStarted(live, rs, f, engine);
    forall name
      ensures MappedAfter(live, rs, f, engine, name, InitUpTo(live, rs, |rs|, engine).0)
    {
      MappedTo(live, rs, f, engine, name);
      if f < |rs| {
        InitStops(live, rs, f + 1, |rs|, engine);
      }
    }
    if f < |rs| {
      InitStops(live, rs, f + 1, |rs|, engine);
    }
  }

  /**
    With distinct names and nothing mapped before, a failure at f leaves exactly
    the tracked endpoints before f, each under its own name with its own
    resolved services as configuration; without a failure, all of them.
   */
  lemma StartupWithDistinctNames(rs: seq<ResolvedProxy>, engine: Engine)
    requires forall i, j :: 0 <= i < j < |rs| ==> rs[i].name != rs[j].name
    ensures var f := FirstFailure(rs, engine, |rs|);
            var after := InitUpTo(map[], rs, |rs|, engine).0;
            && (forall i :: 0 <= i < |rs| ==> (rs[i].name in after <==> i < f && Tracked(rs[i])))
            && (forall i :: 0 <= i < f && Tracked(rs[i]) ==> after[rs[i].name] == Started(rs[i], i, engine))
            && forall name :: name in after ==> exists i :: 0 <= i < f && rs[i].name == name
  {
    StartupStopsAtFirstFailure(map[], rs, engine);
    var f := FirstFailure(rs, engine, |rs|);
    var after := InitUpTo(map[], rs, |rs|, engine).0;
    forall i | 0 <= i < |rs|
      ensures rs[i].name in after <==> i < f && Tracked(rs[i])
      ensures i < f && Tracked(rs[i]) ==> after[rs[i].name] == Started(rs[i], i, engine)
    {
      assert MappedAfter(map[], rs, f, engine, rs[i].name, after);
    }
    forall name | name in after
      ensures exists i :: 0 <= i < f && rs[i].name == name
    {
      assert MappedAfter(map[], rs, f, engine, name, after);
    }
  }

  // ----- From the stored endpoints -----

  /** Every step of the i-th start succeeds, with this endpoint's configuration. */
  predicate Starts(p: EndPoint, i: nat, engine: Engine) {
    engine.setPipeline(i) && engine.setHandler(i) && engine.accepts(TargetOf(p)) && engine.start(i)
  }

  /** The code of a start, and what a started socket is configured with, from the endpoint it was resolved from. */
  lemma StartIsTheEndPoints(r: ResolvedProxy, p: EndPoint, i: nat, env: Env, engine: Engine)
    requires Spells(r, p, env)
    ensures StartCode(r, i, engine) ==
            if Starts(p, i, engine) then 0
            else if engine.setPipeline(i) && engine.setHandler(i) && engine.accepts(TargetOf(p)) then -3 else -2
    ensures var view := Started(r, i, engine);
            && view.port == p.proxyPort && view.servers == engine.initial(i)
            && view.config.Some? && Configures(view.config.value, p)
  {
    OneCarries(p, r.services, TargetConfigOf(r));
  }

  /** The number of endpoints before the first that does not start. */
  function FirstRefused(ps: seq<EndPoint>, engine: Engine, i: nat): (f: nat)
    requires i <= |ps|
    ensures i <= f <= |ps|
    ensures forall k :: i <= k < f ==> Starts(ps[k], k, engine)
    ensures f < |ps| ==> !Starts(ps[f], f, engine)
    decreases |ps| - i
  {
    if i == |ps| || !Starts(ps[i], i, engine) then i else FirstRefused(ps, engine, i + 1)
  }

  predicate TrackedAt(ps: seq<EndPoint>, j: nat, name: string)
    requires j < |ps|
  {
    ps[j].name == name && ps[j].pipeline != "ClickHouseLibuvPipeline"
  }

  /** With the resolved endpoints at hand. */
  lemma InitConfigures(live: Live, rs: seq<ResolvedProxy>, ps: seq<EndPoint>, env: Env, engine: Engine)
    requires |rs| == |ps| && forall i :: 0 <= i < |ps| ==> Spells(rs[i], ps[i], env)
    ensures FirstFailure(rs, engine, |rs|) == FirstRefused(ps, engine, 0)
    ensures forall i :: 0 <= i < |ps| ==> (StartCode(rs[i], i, engine) == 0 <==> Starts(ps[i], i, engine))
  {
    forall i | 0 <= i < |ps|
      ensures StartCode(rs[i], i, engine) == 0 <==> Starts(ps[i], i, engine)
      ensures StartCode(rs[i], i, engine) <= 0
    {
      StartIsTheEndPoints(rs[i], ps[i], i, env, engine);
    }
  }

  /**
    Startup, from the stored endpoints: it returns 0 exactly when every endpoint
    starts, and otherwise the code of the first step of the first that does not.
   */
  lemma BootCodeIs(plane: Plane, libraries: seq<Library>, env: Env, engine: Engine)
    requires Boot(plane, libraries, env, engine).1.Some?
    ensures var ps, f := EndPoints(plane.store.proxy.clusters),
            FirstRefused(EndPoints(plane.store.proxy.clusters), engine, 0);
            Boot(plane, libraries, env, engine).1 ==
            Some(if f == |ps| then 0
                 else if engine.setPipeline(f) && engine.setHandler(f) && engine.accepts(TargetOf(ps[f])) then -3
                   else -2)
    ensures Boot(plane, libraries, env, engine).0.store == plane.store
  {
    var ps := EndPoints(plane.store.proxy.clusters);
    var rs := ResolveAll(ps, libraries, env, plane.cache).1.value;
    ResolvedIsSpelled(ps, libraries, env, plane.cache);
    InitConfigures(plane.live, rs, ps, env, engine);
    StartupStopsAtFirstFailure(plane.live, rs, engine);
    var f := FirstRefused(ps, engine, 0);
    if f < |ps| {
      StartIsTheEndPoints(rs[f], ps[f], f, env, engine);
    }
  }

  /**
    After a startup that met the endpoints before f, a name whose last tracked
    one among them is the j-th, and is not that of the failing one, is mapped to
    a socket on that endpoint's port, configured with its name, port and
    services, field by field.
   */
  lemma BootConfigures(plane: Plane, libraries: seq<Library>, env: Env, engine: Engine, j: nat)
    requires Boot(plane, libraries, env, engine).1.Some?
    requires var ps := EndPoints(plane.store.proxy.clusters);
             var f := FirstRefused(ps, engine, 0);
             && j < f && TrackedAt(ps, j, ps[j].name)
             && (forall i :: j < i < f ==> !TrackedAt(ps, i, ps[j].name))
             && (f < |ps| ==> !TrackedAt(ps, f, ps[j].name))
    ensures var p, live := EndPoints(plane.store.proxy.clusters)[j], Boot(plane, libraries, env, engine).0.live;
            && p.name in live
            && live[p.name].port == p.proxyPort && live[p.name].servers == engine.initial(j)
            && live[p.name].config.Some? && Configures(live[p.name].config.value, p)
  {
    var ps := EndPoints(plane.store.proxy.clusters);
    var rs := ResolveAll(ps, libraries, env, plane.cache).1.value;
    ResolvedIsSpelled(ps, libraries, env, plane.cache);
    InitConfigures(plane.live, rs, ps, env, engine);
    StartupStopsAtFirstFailure(plane.live, rs, engine);
    var f := FirstRefused(ps, engine, 0);
    assert MappedAfter(plane.live, rs, f, engine, ps[j].name, Boot(plane, libraries, env, engine).0.live);
    LastTrackedIs(rs, ps, env, f, j);
    StartIsTheEndPoints(rs[j], ps[j], j, env, engine);
  }

  lemma LastTrackedIs(rs: seq<ResolvedProxy>, ps: seq<EndPoint>, env: Env, f: nat, j: nat)
    requires |rs| == |ps| && (forall i :: 0 <= i < |ps| ==> Spells(rs[i], ps[i], env)) && j < f <= |ps|
    requires TrackedAt(ps, j, ps[j].name) && forall i :: j < i < f ==> !TrackedAt(ps, i, ps[j].name)
    ensures LastTracked(rs, f, ps[j].name) == Some(j)
    ensures f < |ps| ==> (Tracked(rs[f]) && rs[f].name == ps[j].name <==> TrackedAt(ps, f, ps[j].name))
  {
    assert forall i :: 0 <= i < |ps| ==> Spells(rs[i], ps[i], env);
    assert Spells(rs[j], ps[j], env);
  }

  /**
    Whatever is stored, including any junk in a port no document mentioned: the
    sockets startup creates listen on ports between 1 and 65535 only.
   */
  lemma PortsAreSafe(plane: Plane, libraries: seq<Library>, env: Env, engine: Engine)
    ensures forall port :: port in Boot(plane, libraries, env, engine).2 ==> ValidPort(port)
  {
    var ps := EndPoints(plane.store.proxy.clusters);
    var rs := ResolveAll(ps, libraries, env, plane.cache).1;
    ResolveAllMeaning(ps, libraries, env, plane.cache);
    if rs.Some? {
      StartupStopsAtFirstFailure(plane.live, rs.value, engine);
      assert forall i :: 0 <= i < |rs.value| ==> Resolves(rs.value[i], ps[i]);
    }
  }
}
