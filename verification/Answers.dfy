/** When the requests of a run are answered ok, and which configurations no edit is ever answered ok over. */
module Answers {
  import opened Wrappers
  import opened Xml
  import opened ConfigTypes
  import opened PipelineFactory
  import opened Resolution
  import opened ConfigLoad
  import opened Sockets
  import opened ConfigSingleton
  import opened ProxyServer
  import opened HotReload
  import opened Conservation
  import GatewayParser

  ghost predicate AllResolvable(ps: seq<EndPoint>, libraries: seq<Library>, env: Env, cache: Cache) {
    forall i :: 0 <= i < |ps| ==> Resolvable(ps, i, libraries, env, cache)
  }

  /** An update is answered ok exactly when every stored endpoint can be resolved, and with an error otherwise. */
  lemma UpdateOkExactly(plane: Plane, libraries: seq<Library>, env: Env, engine: Engine)
    ensures Update(plane, libraries, env, engine).1 ==
            if AllResolvable(Stored(plane), libraries, env, plane.cache) then Ok else Error
  {
    ResolvesExactlyWhen(Stored(plane), |Stored(plane)|, libraries, env, plane.cache);
  }

  /** Services do not decide whether endpoints can be resolved. */
  lemma SameResolvable(ps: seq<EndPoint>, qs: seq<EndPoint>, libraries: seq<Library>, env: Env, cache: Cache)
    requires SameButServices(ps, qs)
    ensures AllResolvable(ps, libraries, env, cache) <==> AllResolvable(qs, libraries, env, cache)
  {
    assert Plugins(ps) == Plugins(qs);
    assert forall i :: 0 <= i < |ps| ==>
      (Resolvable(ps, i, libraries, env, cache) <==> Resolvable(qs, i, libraries, env, cache));
  }

  predicate ValidOperation(edit: ServiceEdit) {
    edit.operation == "add" || edit.operation == "delete"
  }

  /**
    An edit is answered ok exactly when it is an add or a delete, its name is
    stored, and what was stored before can be resolved.
   */
  lemma EditOkExactly(plane: Plane, edit: ServiceEdit, libraries: seq<Library>, env: Env, engine: Engine)
    ensures EditService(plane, edit, libraries, env, engine).1 == Ok <==>
            ValidOperation(edit) && Names(Stored(plane), edit.name)
            && AllResolvable(Stored(plane), libraries, env, plane.cache)
  {
    var ps, clusters := Stored(plane), EditClusters(plane.store.proxy.clusters, edit);
    EditIsAtFirst(plane.store.proxy.clusters, edit);
    if clusters.Some? {
      var edited := plane.(store := plane.store.(proxy := plane.store.proxy.(clusters := clusters.value)));
      UpdateOkExactly(edited, libraries, env, engine);
      NotNamed(ps, edit);
      SameResolvable(ps, Stored(edited), libraries, env, plane.cache);
    }
  }

  /** The gateway section of this content is reached and ends this way. */
  ghost predicate GatewayBreaks(content: Content, reader: Reader, st: Status) {
    && !NothingToLoad(content)
    && var root := FirstChild(content.document, "clickhouse-proxy-v2").value;
       && !ProtocolThrows(root, reader) && FirstChild(root, "api-gateway-server-config").Some?
       && GatewayParser.FirstEndPointBreaks(GatewayParser.EndPointsOf(root), reader, st)
  }

  /** Loading this content returns: neither the protocol nor the gateway section throws, crashes or hangs. */
  ghost predicate LoadReturns(content: Content, reader: Reader) {
    NothingToLoad(content) ||
    (!ProtocolThrows(FirstChild(content.document, "clickhouse-proxy-v2").value, reader)
     && !GatewayBreaks(content, reader, Throws) && !GatewayBreaks(content, reader, Undefined)
     && !GatewayBreaks(content, reader, Hangs))
  }

  lemma LoadEnds(store: Store, content: Content, reader: Reader, junk: Junk)
    ensures var st := Load(store, content, reader, junk).1;
            && (st.Go? || st.Fail? <==> LoadReturns(content, reader))
            && (st.Undefined? || st.Hangs? <==>
                GatewayBreaks(content, reader, Undefined) || GatewayBreaks(content, reader, Hangs))
  {
    SectionsAreAtomic(store, content, reader, junk);
    if !NothingToLoad(content) {
      var root := FirstChild(content.document, "clickhouse-proxy-v2").value;
      if !ProtocolThrows(root, reader) {
        GatewayEnds(root, content, reader);
      }
    }
  }

  lemma GatewayEnds(root: Element, content: Content, reader: Reader)
    requires !NothingToLoad(content) && root == FirstChild(content.document, "clickhouse-proxy-v2").value
    requires !ProtocolThrows(root, reader)
    ensures var st := FirstStop(GatewayParser.Checks(root, reader));
            && (st.Throws? <==> GatewayBreaks(content, reader, Throws))
            && (st.Undefined? <==> GatewayBreaks(content, reader, Undefined))
            && (st.Hangs? <==> GatewayBreaks(content, reader, Hangs))
  {
    GatewayParser.SectionBreaksExactly(root, reader, Throws);
    GatewayParser.SectionBreaksExactly(root, reader, Undefined);
    GatewayParser.SectionBreaksExactly(root, reader, Hangs);
  }

  /** The endpoint name an edit document is about. */
  function EditedName(document: Element): string {
    var endPoint := FirstChild(document, "end_point");
    if endPoint.None? then "" else AttributeOrEmpty(endPoint.value, "name")
  }

  /**
    Every request, from its document on: a configuration request is answered ok
    exactly when loading returns and everything stored then can be resolved; an
    edit exactly when its document is one, its name is stored and everything
    stored can be resolved.  No answer at all comes from a gateway section that
    crashes or hangs, and from nothing else.
   */
  lemma StepOkExactly(plane: Plane, call: Call, world: World)
    ensures Step(plane, call, world).1 == Ok <==>
            match call.request
            case Configure(content, junk) =>
              LoadReturns(content, world.reader)
              && AllResolvable(if TakenOver(call, world).Some? then TakenOver(call, world).value else Stored(plane),
                               world.libraries, call.env, plane.cache)
            case EditOne(content, junk) =>
              IsEdit(content, world.reader) && Names(Stored(plane), EditedName(content.document))
              && AllResolvable(Stored(plane), world.libraries, call.env, plane.cache)
    ensures Step(plane, call, world).1 == NoAnswer <==>
            call.request.Configure? &&
            (GatewayBreaks(call.request.content, world.reader, Undefined)
             || GatewayBreaks(call.request.content, world.reader, Hangs))
  {
    match call.request
    case Configure(content, junk) =>
      var loaded := plane.(store := Load(plane.store, content, world.reader, junk).0);
      UpdateOkExactly(loaded, world.libraries, call.env, call.engine);
      LoadEnds(plane.store, content, world.reader, junk);
      LoadedIsStored(plane, call, world);
    case EditOne(content, junk) =>
      var edit := EditFrom(content, world.reader, junk);
      EditIsRead(content, world.reader, junk);
      if edit.Some? {
        EditOkExactly(plane, edit.value, world.libraries, call.env, call.engine);
        EditAnswers(plane, edit.value, world.libraries, call.env, call.engine);
      }
  }

  lemma EditAnswers(plane: Plane, edit: ServiceEdit, libraries: seq<Library>, env: Env, engine: Engine)
    ensures EditService(plane, edit, libraries, env, engine).1 != NoAnswer
  {
  }

  /** Nothing to edit, or an endpoint with an invalid port or without a library. */
  predicate Blocked(ps: seq<EndPoint>, libraries: seq<Library>) {
    ps == [] || exists i :: 0 <= i < |ps| && !CanResolve(ps[i], libraries)
  }

  predicate CanResolve(p: EndPoint, libraries: seq<Library>) {
    ValidPort(p.proxyPort) && LibraryOf(p, libraries).Some?
  }

  /** No edit is answered ok, whatever it says and whatever linker, handlers and sockets do. */
  ghost predicate NoEditIsOk(plane: Plane, libraries: seq<Library>) {
    forall edit, env, engine :: EditService(plane, edit, libraries, env, engine).1 != Ok
  }

  lemma BlockedExactly(plane: Plane, libraries: seq<Library>, engine: Engine)
    ensures Blocked(Stored(plane), libraries) <==> NoEditIsOk(plane, libraries)
  {
    var ps := Stored(plane);
    if Blocked(ps, libraries) {
      forall edit, env, engine
        ensures EditService(plane, edit, libraries, env, engine).1 != Ok
      {
        EditOkExactly(plane, edit, libraries, env, engine);
        if ps != [] {
          var i :| 0 <= i < |ps| && !CanResolve(ps[i], libraries);
          assert !Resolvable(ps, i, libraries, env, plane.cache);
        }
      }
    } else {
      SomeEditIsOk(plane, libraries, engine);
    }
  }

  /**
    Over endpoints that can be resolved, an add to the first one is answered ok
    when every library opens and every handler is known.
   */
  lemma SomeEditIsOk(plane: Plane, libraries: seq<Library>, engine: Engine)
    requires !Blocked(Stored(plane), libraries)
    ensures !NoEditIsOk(plane, libraries)
  {
    var ps := Stored(plane);
    var env := Env(Linker(_ => true, (_, _) => Some(1)), _ => Some(1));
    var edit := ServiceEdit(ps[0].name, "add", Service("", "", 0, 0, ""));
    assert Names(ps, edit.name);
    forall i | 0 <= i < |ps|
      ensures Resolvable(ps, i, libraries, env, plane.cache)
    {
      assert CanResolve(ps[i], libraries);
    }
    EditOkExactly(plane, edit, libraries, env, engine);
    assert EditService(plane, edit, libraries, env, engine).1 == Ok;
  }

  lemma SameBlocked(ps: seq<EndPoint>, qs: seq<EndPoint>, libraries: seq<Library>)
    requires SameButServices(ps, qs)
    ensures Blocked(ps, libraries) <==> Blocked(qs, libraries)
  {
    assert forall i :: 0 <= i < |ps| ==> (CanResolve(ps[i], libraries) <==> CanResolve(qs[i], libraries));
  }

  /**
    At any point of any run, no edit can be answered ok if and only if the last
    document taken over, or what was stored at the start, has no endpoint, or
    one with an invalid port, such as a port the document did not mention, or
    one whose plugin no library provides.  Edits themselves change nothing of that.
   */
  lemma RunIsBlockedExactly(planes: seq<Plane>, answers: seq<Answer>, calls: seq<Call>, world: World, n: nat,
                            engine: Engine)
    requires IsRun(planes, answers, calls, world) && n <= |calls|
    ensures Blocked(Base(Stored(planes[0]), calls, n, world), world.libraries) <==>
            NoEditIsOk(planes[n], world.libraries)
  {
    NoEditIsLost(planes, answers, calls, world, n);
    SameBlocked(Base(Stored(planes[0]), calls, n, world), Stored(planes[n]), world.libraries);
    BlockedExactly(planes[n], world.libraries, engine);
  }

  /**
    Which edit requests of a run are answered ok: those that can be read, whose
    name the base has, while every endpoint of the base can be resolved.
   */
  lemma EditAnsweredOkExactly(planes: seq<Plane>, answers: seq<Answer>, calls: seq<Call>, world: World, k: nat)
    requires IsRun(planes, answers, calls, world) && k < |calls| && calls[k].request.EditOne?
    ensures var base, content := Base(Stored(planes[0]), calls, k, world), calls[k].request.content;
            answers[k] == Ok <==>
            IsEdit(content, world.reader) && Names(base, EditedName(content.document))
            && AllResolvable(base, world.libraries, calls[k].env, planes[k].cache)
  {
    var base := Base(Stored(planes[0]), calls, k, world);
    NoEditIsLost(planes, answers, calls, world, k);
    SameResolvable(base, Stored(planes[k]), world.libraries, calls[k].env, planes[k].cache);
    assert forall i :: 0 <= i < |base| ==> base[i].name == Stored(planes[k])[i].name;
    assert (planes[k + 1], answers[k]) == Step(planes[k], calls[k], world);
    StepOkExactly(planes[k], calls[k], world);
  }

  lemma BlockedEdit(planes: seq<Plane>, answers: seq<Answer>, calls: seq<Call>, world: World, k: nat)
    requires IsRun(planes, answers, calls, world) && k < |calls| && calls[k].request.EditOne?
    requires Blocked(Base(Stored(planes[0]), calls, k, world), world.libraries)
    ensures answers[k] != Ok
  {
    var base := Base(Stored(planes[0]), calls, k, world);
    EditAnsweredOkExactly(planes, answers, calls, world, k);
    if base != [] {
      var i :| 0 <= i < |base| && !CanResolve(base[i], world.libraries);
      assert !Resolvable(base, i, world.libraries, calls[k].env, planes[k].cache);
    }
  }

  lemma {:induction false} BaseOfEdits(ps: seq<EndPoint>, calls: seq<Call>, n: nat, world: World)
    requires n <= |calls| && forall k :: 0 <= k < n ==> calls[k].request.EditOne?
    ensures Base(ps, calls, n, world) == ps
  {
    if n > 0 {
      BaseOfEdits(ps, calls, n - 1, world);
    }
  }

  /**
    Over a blocked configuration any number of edit requests is stored and none
    is answered ok, so no socket changes.
   */
  lemma BlockedEditsChangeNoSocket(planes: seq<Plane>, answers: seq<Answer>, calls: seq<Call>, world: World, n: nat)
    requires IsRun(planes, answers, calls, world) && n <= |calls|
             && forall k :: 0 <= k < n ==> calls[k].request.EditOne?
    requires Blocked(Stored(planes[0]), world.libraries)
    ensures planes[n].live == planes[0].live && forall k :: 0 <= k < n ==> answers[k] != Ok
  {
    forall k | 0 <= k < n
      ensures answers[k] != Ok
    {
      BaseOfEdits(Stored(planes[0]), calls, k, world);
      BlockedEdit(planes, answers, calls, world, k);
    }
    FailuresAreIsolated(planes, answers, calls, world, 0, n);
  }
}
