/** What edits of single services add up to, and when a live socket shows them. */
module Conservation {
  import opened Wrappers
  import opened Xml
  import opened ConfigTypes
  import opened PipelineFactory
  import opened Resolution
  import opened ConfigLoad
  import opened Sockets
  import opened ConfigSingleton
  import opened ProxyServer
  import opened HotReload
  import ProxyParser
  import ProtocolParser

  // ----- Deleting by name -----

  /** The positions among the first n that delete keeps, in order. */
  function KeptPositions(services: seq<Service>, name: string, n: nat): seq<nat>
    requires n <= |services|
  {
    if n == 0 then []
    else
      var before := KeptPositions(services, name, n - 1);
      if services[n - 1].name == name then before else before + [n - 1]
  }

  /** They are exactly the positions of the other names. */
  lemma {:induction false} KeptExactly(services: seq<Service>, name: string, n: nat)
    requires n <= |services|
    ensures forall p :: p in KeptPositions(services, name, n) <==> 0 <= p < n && services[p].name != name
    ensures Increasing(KeptPositions(services, name, n))
  {
    if n > 0 {
      KeptExactly(services, name, n - 1);
      var before := KeptPositions(services, name, n - 1);
      assert forall i :: 0 <= i < |before| ==> before[i] in before;
    }
  }

  ghost predicate Increasing(positions: seq<nat>) {
    forall i, j :: 0 <= i < j < |positions| ==> positions[i] < positions[j]
  }

  /** The list holds the services at these positions, in this order. */
  ghost predicate At(services: seq<Service>, positions: seq<nat>, list: seq<Service>) {
    && |list| == |positions|
    && forall i :: 0 <= i < |positions| ==> positions[i] < |services| && list[i] == services[positions[i]]
  }

  lemma AtOneMore(services: seq<Service>, positions: seq<nat>, list: seq<Service>, p: nat)
    requires At(services, positions, list) && p < |services|
    ensures At(services, positions + [p], list + [services[p]])
  {
  }

  /** A delete removes all and only the services of that name, and keeps the others in order. */
  lemma {:induction false} DeleteKeepsTheOthersInOrder(services: seq<Service>, name: string, n: nat)
    requires n <= |services|
    ensures At(services, KeptPositions(services, name, n), RemoveNamedUpTo(services, name, n))
    ensures forall p :: p in KeptPositions(services, name, n) <==> 0 <= p < n && services[p].name != name
    ensures Increasing(KeptPositions(services, name, n))
  {
    KeptExactly(services, name, n);
    if n > 0 {
      DeleteKeepsTheOthersInOrder(services, name, n - 1);
      AtOneMore(services, KeptPositions(services, name, n - 1), RemoveNamedUpTo(services, name, n - 1), n - 1);
    }
  }

  // ----- One edit -----

  /** Editing changes services only. */
  ghost predicate SameButServices(ps: seq<EndPoint>, qs: seq<EndPoint>) {
    |ps| == |qs| && forall i :: 0 <= i < |ps| ==> qs[i] == ps[i].(services := qs[i].services)
  }

  lemma {:induction false} LastNamedSame(ps: seq<EndPoint>, qs: seq<EndPoint>, n: nat, name: string)
    requires SameButServices(ps, qs) && n <= |ps|
    ensures LastNamed(ps, n, name) == LastNamed(qs, n, name)
  {
    if n > 0 {
      LastNamedSame(ps, qs, n - 1, name);
    }
  }

  /** What is stored after an edit request, whatever its answer. */
  lemma EditIsStored(plane: Plane, call: Call, world: World)
    requires call.request.EditOne?
    ensures var edit := EditFrom(call.request.content, world.reader, call.request.editJunk);
            Stored(Step(plane, call, world).0) ==
            if edit.None? then Stored(plane) else EditEndPoints(Stored(plane), edit.value)
  {
    var edit := EditFrom(call.request.content, world.reader, call.request.editJunk);
    if edit.Some? {
      EditIsAtFirst(plane.store.proxy.clusters, edit.value);
      NotNamed(Stored(plane), edit.value);
    }
  }

  lemma NotNamed(ps: seq<EndPoint>, edit: ServiceEdit)
    ensures !Names(ps, edit.name) ==> EditEndPoints(ps, edit) == ps
    ensures SameButServices(ps, EditEndPoints(ps, edit))
  {
  }

  /** Every tracked socket whose name is stored balances over the services of its last endpoint. */
  ghost predicate Agreeing(plane: Plane) {
    forall name :: name in plane.live && LastNamed(Stored(plane), |Stored(plane)|, name).Some? ==>
      plane.live[name].servers == Targets(LastEndPoint(plane, name))
  }

  /** Every request answered ok leaves an agreeing state, whatever state it met. */
  lemma OkMeansAgreeing(plane: Plane, call: Call, world: World)
    requires Step(plane, call, world).1 == Ok
    ensures Agreeing(Step(plane, call, world).0)
  {
    var after := Step(plane, call, world).0;
    forall name | name in after.live && LastNamed(Stored(after), |Stored(after)|, name).Some?
      ensures after.live[name].servers == Targets(LastEndPoint(after, name))
    {
      StepOutcome(plane, call, world, name);
    }
  }

  /**
    An edit answered ok in an agreeing state.  It shows on the socket of its
    endpoint name exactly when that name is stored once; when the name is stored
    several times the first endpoint is edited and the last keeps winning, so
    the socket's list stays.  Every other socket's list stays in any case.
   */
  lemma OkEdit(plane: Plane, edit: ServiceEdit, libraries: seq<Library>, env: Env, engine: Engine, name: string)
    requires Agreeing(plane) && name in plane.live
    requires EditService(plane, edit, libraries, env, engine).1 == Ok
    ensures var ps := Stored(plane);
            var k := FirstNamed(ps, edit.name);
            var after := EditService(plane, edit, libraries, env, engine).0;
            && k < |ps| && LastNamed(ps, |ps|, edit.name).Some? && name in after.live
            && after.live[name].servers ==
               if name == edit.name && LastNamed(ps, |ps|, name) == Some(k)
               then ResolveServices(EditServices(ps[k].services, edit), ps[k].readWrite)
               else plane.live[name].servers
  {
    var ps := Stored(plane);
    var k := FirstNamed(ps, edit.name);
    EditIsAtFirst(plane.store.proxy.clusters, edit);
    var clusters := EditClusters(plane.store.proxy.clusters, edit).value;
    var edited := plane.(store := plane.store.(proxy := plane.store.proxy.(clusters := clusters)));
    assert Stored(edited) == EditEndPoints(ps, edit);
    NotNamed(ps, edit);
    LastNamedSame(ps, Stored(edited), |ps|, name);
    LastNamedSame(ps, Stored(edited), |ps|, edit.name);
    UpdateOutcome(edited, libraries, env, engine, name);
  }

  lemma ResolveAppend(ss: seq<Service>, s: Service, readWrite: bool)
    ensures ResolveServices(ss + [s], readWrite) == ResolveServices(ss, readWrite) + [ResolveService(s, readWrite)]
  {
  }

  /**
    An add answered ok extends the tracked socket's list by exactly the resolved
    service, at its end, if and only if the endpoint name is stored once.
   */
  lemma OkAddShowsExactlyWhenUnique(plane: Plane, edit: ServiceEdit, libraries: seq<Library>, env: Env, engine: Engine)
    requires Agreeing(plane) && edit.name in plane.live && edit.operation == "add"
    requires EditService(plane, edit, libraries, env, engine).1 == Ok
    ensures var ps := Stored(plane);
            var k := FirstNamed(ps, edit.name);
            var after := EditService(plane, edit, libraries, env, engine).0;
            && k < |ps| && edit.name in after.live
            && (after.live[edit.name].servers ==
                plane.live[edit.name].servers + [ResolveService(edit.service, ps[k].readWrite)]
                <==> forall i :: k < i < |ps| ==> ps[i].name != edit.name)
  {
    var ps := Stored(plane);
    var k := FirstNamed(ps, edit.name);
    OkEdit(plane, edit, libraries, env, engine, edit.name);
    ResolveAppend(ps[k].services, edit.service, ps[k].readWrite);
    var j := LastNamed(ps, |ps|, edit.name).value;
    assert plane.live[edit.name].servers == Targets(ps[j]);
    if j != k {
      assert ps[j].name == edit.name && k < j;
      var servers := plane.live[edit.name].servers;
      assert |servers| != |servers + [ResolveService(edit.service, ps[k].readWrite)]|;
    }
  }

  // ----- Whole runs of edits -----

  function EditOf(call: Call, world: World): Option<ServiceEdit> {
    if call.request.EditOne? then EditFrom(call.request.content, world.reader, call.request.editJunk) else None
  }

  /** The endpoints of a document whose proxy section is taken over; None: what is stored stays. */
  function TakenOver(call: Call, world: World): Option<seq<EndPoint>> {
    if call.request.EditOne? || !call.request.content.Parsed? then None
    else
      var root := FirstChild(call.request.content.document, "clickhouse-proxy-v2");
      if root.None? || FirstStop(ProtocolParser.Checks(root.value, world.reader)).Throws?
         || !FirstStop(ProxyParser.Checks(root.value, world.reader)).Go? then None
      else Some(EndPoints(ProxyParser.ConfigFrom(root.value, world.reader, call.request.junk).clusters))
  }

  /** The endpoints the first n calls started from: those of the last document taken over, or the first ones. */
  function Base(ps: seq<EndPoint>, calls: seq<Call>, n: nat, world: World): seq<EndPoint>
    requires n <= |calls|
  {
    if n == 0 then ps
    else if TakenOver(calls[n - 1], world).Some? then TakenOver(calls[n - 1], world).value
    else Base(ps, calls, n - 1, world)
  }

  function ServicesAt(ps: seq<EndPoint>, name: string): seq<Service> {
    var k := FirstNamed(ps, name);
    if k < |ps| then ps[k].services else []
  }

  /**
    The fold of the first n calls for one endpoint name: a document taken over
    starts it again, an edit of that name is applied to the outcome of those
    before, any other call leaves it.
   */
  function FoldCalls(ps: seq<EndPoint>, calls: seq<Call>, n: nat, world: World, name: string): seq<Service>
    requires n <= |calls|
  {
    if n == 0 then ServicesAt(ps, name)
    else if TakenOver(calls[n - 1], world).Some? then ServicesAt(TakenOver(calls[n - 1], world).value, name)
    else
      var before := FoldCalls(ps, calls, n - 1, world, name);
      var edit := EditOf(calls[n - 1], world);
      if edit.Some? && edit.value.name == name then EditServices(before, edit.value) else before
  }

  /**
    What has to be stored after n calls: the fold at the first endpoint of every
    name, and the base everywhere else.
   */
  ghost predicate Folded(ps: seq<EndPoint>, calls: seq<Call>, n: nat, world: World, qs: seq<EndPoint>)
    requires n <= |calls|
  {
    var base := Base(ps, calls, n, world);
    && SameButServices(base, qs)
    && forall i :: 0 <= i < |base| ==>
         qs[i].services ==
         if FirstNamed(base, base[i].name) == i then FoldCalls(ps, calls, n, world, base[i].name)
         else base[i].services
  }

  /** Endpoints that differ in services only have the same first endpoint of every name. */
  lemma FirstNamedSame(ps: seq<EndPoint>, qs: seq<EndPoint>, name: string)
    requires SameButServices(ps, qs)
    ensures FirstNamed(ps, name) == FirstNamed(qs, name)
  {
    var k := FirstNamed(ps, name);
    if k < |ps| {
      FirstNamedIs(qs, name, k);
    }
  }

  lemma LoadedIsStored(plane: Plane, call: Call, world: World)
    requires call.request.Configure?
    ensures Stored(Step(plane, call, world).0) ==
            if TakenOver(call, world).Some? then TakenOver(call, world).value else Stored(plane)
  {
  }

  lemma FoldStarts(ps: seq<EndPoint>, calls: seq<Call>, world: World)
    ensures Folded(ps, calls, 0, world, ps)
  {
  }

  lemma FoldRestarts(ps: seq<EndPoint>, calls: seq<Call>, n: nat, world: World)
    requires 0 < n <= |calls| && TakenOver(calls[n - 1], world).Some?
    ensures Folded(ps, calls, n, world, TakenOver(calls[n - 1], world).value)
  {
  }

  lemma FoldStays(ps: seq<EndPoint>, calls: seq<Call>, n: nat, world: World, qs: seq<EndPoint>)
    requires 0 < n <= |calls| && TakenOver(calls[n - 1], world).None? && EditOf(calls[n - 1], world).None?
    requires Folded(ps, calls, n - 1, world, qs)
    ensures Folded(ps, calls, n, world, qs)
  {
    assert Base(ps, calls, n, world) == Base(ps, calls, n - 1, world);
    assert forall name :: FoldCalls(ps, calls, n, world, name) == FoldCalls(ps, calls, n - 1, world, name);
  }

  lemma FoldGrows(ps: seq<EndPoint>, calls: seq<Call>, n: nat, world: World, qs: seq<EndPoint>)
    requires 0 < n <= |calls| && EditOf(calls[n - 1], world).Some? && Folded(ps, calls, n - 1, world, qs)
    ensures Folded(ps, calls, n, world, EditEndPoints(qs, EditOf(calls[n - 1], world).value))
  {
    var edit := EditOf(calls[n - 1], world).value;
    var base := Base(ps, calls, n - 1, world);
    assert base == Base(ps, calls, n, world);
    NotNamed(qs, edit);
    FirstNamedSame(base, qs, edit.name);
    forall i | 0 <= i < |base|
      ensures EditEndPoints(qs, edit)[i].services ==
              if FirstNamed(base, base[i].name) == i then FoldCalls(ps, calls, n, world, base[i].name)
              else base[i].services
    {
      EditAt(base, qs, edit, i);
      assert FoldCalls(ps, calls, n, world, base[i].name) ==
             var before := FoldCalls(ps, calls, n - 1, world, base[i].name);
             if edit.name == base[i].name then EditServices(before, edit) else before;
    }
  }

  /** An edit, seen at one position. */
  lemma EditAt(base: seq<EndPoint>, qs: seq<EndPoint>, edit: ServiceEdit, i: nat)
    requires SameButServices(base, qs) && i < |base|
    ensures |EditEndPoints(qs, edit)| == |qs|
    ensures EditEndPoints(qs, edit)[i].services ==
            if base[i].name == edit.name && FirstNamed(base, base[i].name) == i
            then EditServices(qs[i].services, edit) else qs[i].services
  {
    FirstNamedSame(base, qs, edit.name);
    assert qs[i].name == base[i].name;
  }

  lemma StepFolds(planes: seq<Plane>, answers: seq<Answer>, calls: seq<Call>, world: World, n: nat)
    requires IsRun(planes, answers, calls, world) && 0 < n <= |calls|
    requires Folded(Stored(planes[0]), calls, n - 1, world, Stored(planes[n - 1]))
    ensures Folded(Stored(planes[0]), calls, n, world, Stored(planes[n]))
  {
    var ps, call := Stored(planes[0]), calls[n - 1];
    assert (planes[n - 1 + 1], answers[n - 1]) == Step(planes[n - 1], calls[n - 1], world);
    if call.request.Configure? {
      LoadedIsStored(planes[n - 1], call, world);
      if TakenOver(call, world).Some? {
        FoldRestarts(ps, calls, n, world);
      } else {
        FoldStays(ps, calls, n, world, Stored(planes[n - 1]));
      }
    } else {
      EditIsStored(planes[n - 1], call, world);
      if EditOf(call, world).Some? {
        FoldGrows(ps, calls, n, world, Stored(planes[n - 1]));
      } else {
        FoldStays(ps, calls, n, world, Stored(planes[n - 1]));
      }
    }
  }

  /**
    Over any run of requests, and whatever they were answered, the stored
    endpoints are those of the last document taken over, with nothing changed
    but the services of the first endpoint of each name, which are the fold of
    the edits addressed to that name since: no edit is lost, none lands
    elsewhere, and a rejected document takes nothing back.
   */
  lemma {:induction false} NoEditIsLost(planes: seq<Plane>, answers: seq<Answer>, calls: seq<Call>, world: World,
                                        n: nat)
    requires IsRun(planes, answers, calls, world) && n <= |calls|
    ensures Folded(Stored(planes[0]), calls, n, world, Stored(planes[n]))
  {
    if n == 0 {
      FoldStarts(Stored(planes[0]), calls, world);
    } else {
      NoEditIsLost(planes, answers, calls, world, n - 1);
      StepFolds(planes, answers, calls, world, n);
    }
  }

  /**
    After any run whose last call was answered ok, a tracked socket balances over
    the services of the last base endpoint of its name: the fold of the edits
    when that name is stored once, and what the document said, with no edit
    showing, when it is stored several times.
   */
  lemma ListIsFoldOfEdits(planes: seq<Plane>, answers: seq<Answer>, calls: seq<Call>, world: World, name: string)
    requires IsRun(planes, answers, calls, world) && calls != [] && answers[|calls| - 1] == Ok
    requires name in planes[0].live && Names(Base(Stored(planes[0]), calls, |calls|, world), name)
    ensures var base := Base(Stored(planes[0]), calls, |calls|, world);
            var j := LastNamed(base, |base|, name);
            && j.Some? && name in planes[|calls|].live
            && planes[|calls|].live[name].servers ==
               ResolveServices(if FirstNamed(base, name) == j.value
                               then FoldCalls(Stored(planes[0]), calls, |calls|, world, name)
                               else base[j.value].services,
                               base[j.value].readWrite)
  {
    var base, after := Base(Stored(planes[0]), calls, |calls|, world), planes[|calls|];
    NoEditIsLost(planes, answers, calls, world, |calls|);
    LastNamedSame(base, Stored(after), |base|, name);
    var k :| 0 <= k < |base| && base[k].name == name;
    assert Stored(after)[k].name == name;
    LastOkMeansInStep(planes, answers, calls, world, name);
  }
}
