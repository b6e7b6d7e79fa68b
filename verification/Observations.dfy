/** Which server lists a concurrent picker can meet while requests are served. */
module Observations {
  import opened ConfigTypes
  import opened PipelineFactory
  import opened Resolution
  import opened ConfigLoad
  import opened Sockets
  import opened ConfigSingleton
  import opened ProxyServer
  import opened HotReload

  /** The list is a prefix, possibly all, of what one of these endpoints of that name balances over. */
  ghost predicate PrefixOfNew(list: seq<ResolvedService>, ps: seq<EndPoint>, name: string) {
    exists j :: 0 <= j < |ps| && ps[j].name == name && list <= Targets(ps[j])
  }

  /** The history went on with such lists only, and if it went on at all it ends with the final list. */
  ghost predicate Continues(before: SocketView, after: SocketView, ps: seq<EndPoint>, name: string) {
    && before.history <= after.history
    && (forall i :: |before.history| <= i < |after.history| ==> PrefixOfNew(after.history[i], ps, name))
    && (if |after.history| == |before.history| then after == before
        else after.history[|after.history| - 1] == after.servers)
  }

  lemma AppliedContinues(v: SocketView, r: ResolvedProxy, ps: seq<EndPoint>, j: nat, engine: Engine)
    requires j < |ps| && Resolves(r, ps[j])
    ensures Continues(v, Applied(v, r, engine), ps, r.name)
  {
    var after := Applied(v, r, engine);
    var lists := Prefixes(r.services);
    forall i | |v.history| <= i < |after.history|
      ensures PrefixOfNew(after.history[i], ps, r.name)
    {
      assert after.history[i] == lists[i - |v.history|];
      assert ps[j].name == r.name && after.history[i] <= Targets(ps[j]);
    }
    assert lists[|lists| - 1] == r.services;
  }

  lemma ContinuesTwice(a: SocketView, b: SocketView, c: SocketView, ps: seq<EndPoint>, name: string)
    requires Continues(a, b, ps, name) && Continues(b, c, ps, name)
    ensures Continues(a, c, ps, name)
  {
    forall i | |a.history| <= i < |c.history|
      ensures PrefixOfNew(c.history[i], ps, name)
    {
      if i < |b.history| {
        assert c.history[i] == b.history[i];
      }
    }
  }

  lemma {:induction false} ApplyAllContinues(live: Live, rs: seq<ResolvedProxy>, ps: seq<EndPoint>, n: nat,
                                             engine: Engine, name: string)
    requires n <= |rs| == |ps| && forall i :: 0 <= i < |ps| ==> Resolves(rs[i], ps[i])
    requires name in live
    ensures name in ApplyAll(live, rs[..n], engine)
    ensures Continues(live[name], ApplyAll(live, rs[..n], engine)[name], ps, name)
  {
    if n > 0 {
      ApplyAllContinues(live, rs, ps, n - 1, engine, name);
      assert rs[..n][..n - 1] == rs[..n - 1];
      var before := ApplyAll(live, rs[..n - 1], engine);
      if rs[n - 1].name == name {
        AppliedContinues(before[name], rs[n - 1], ps, n - 1, engine);
        ContinuesTwice(live[name], before[name], Applied(before[name], rs[n - 1], engine), ps, name);
      }
    }
  }

  /**
    During one update a picker meets, on any socket, only the list from before
    the update and prefixes of the new list, and at the end the new list.
   */
  lemma UpdateIsNeverMixed(plane: Plane, libraries: seq<Library>, env: Env, engine: Engine, name: string)
    requires name in plane.live
    ensures var after := Update(plane, libraries, env, engine).0;
            name in after.live && Continues(plane.live[name], after.live[name], Stored(plane), name)
  {
    var ps := Stored(plane);
    var rs := ResolveAll(ps, libraries, env, plane.cache).1;
    ResolveAllMeaning(ps, libraries, env, plane.cache);
    if rs.Some? {
      ApplyAllContinues(plane.live, rs.value, ps, |ps|, engine, name);
      assert rs.value[..|ps|] == rs.value;
    }
  }

  ghost predicate NeverMixed(live: Live, after: Plane, name: string) {
    name in live ==> name in after.live && Continues(live[name], after.live[name], Stored(after), name)
  }

  lemma StepIsNeverMixed(plane: Plane, call: Call, world: World, name: string)
    ensures NeverMixed(plane.live, Step(plane, call, world).0, name)
  {
    if name in plane.live {
      match call.request
      case Configure(content, junk) =>
        var loaded := plane.(store := Load(plane.store, content, world.reader, junk).0);
        UpdateIsNeverMixed(loaded, world.libraries, call.env, call.engine, name);
      case EditOne(content, junk) =>
        var edit := EditFrom(content, world.reader, junk);
        if edit.Some? && EditClusters(plane.store.proxy.clusters, edit.value).Some? {
          var clusters := EditClusters(plane.store.proxy.clusters, edit.value).value;
          var edited := plane.(store := plane.store.(proxy := plane.store.proxy.(clusters := clusters)));
          UpdateIsNeverMixed(edited, world.libraries, call.env, call.engine, name);
        }
    }
  }

  /** Some call answered before n stored an endpoint of that name the list is a prefix of. */
  ghost predicate FromSomeConfig(list: seq<ResolvedService>, planes: seq<Plane>, n: nat, name: string)
    requires n < |planes|
  {
    exists k :: 0 < k <= n && PrefixOfNew(list, Stored(planes[k]), name)
  }

  /** Since the start, only such lists have been added to the history. */
  ghost predicate MetFrom(start: SocketView, now: SocketView, planes: seq<Plane>, n: nat, name: string)
    requires n < |planes|
  {
    && start.history <= now.history
    && forall i :: |start.history| <= i < |now.history| ==> FromSomeConfig(now.history[i], planes, n, name)
  }

  lemma FromOneMore(list: seq<ResolvedService>, planes: seq<Plane>, n: nat, name: string)
    requires 0 < n < |planes|
    requires FromSomeConfig(list, planes, n - 1, name) || PrefixOfNew(list, Stored(planes[n]), name)
    ensures FromSomeConfig(list, planes, n, name)
  {
  }

  lemma MetOneMore(start: SocketView, before: SocketView, after: SocketView, planes: seq<Plane>, n: nat, name: string)
    requires 0 < n < |planes| && MetFrom(start, before, planes, n - 1, name)
    requires Continues(before, after, Stored(planes[n]), name)
    ensures MetFrom(start, after, planes, n, name)
  {
    forall i | |start.history| <= i < |after.history|
      ensures FromSomeConfig(after.history[i], planes, n, name)
    {
      if i < |before.history| {
        assert after.history[i] == before.history[i];
      }
      FromOneMore(after.history[i], planes, n, name);
    }
  }

  /** No call of the run shows anything mixed. */
  ghost predicate NeverMixedChain(planes: seq<Plane>, name: string) {
    forall k :: 0 <= k < |planes| - 1 ==> NeverMixedAt(planes, k, name)
  }

  ghost predicate NeverMixedAt(planes: seq<Plane>, k: nat, name: string)
    requires k + 1 < |planes|
  {
    NeverMixed(planes[k].live, planes[k + 1], name)
  }

  lemma RunIsNeverMixedChain(planes: seq<Plane>, answers: seq<Answer>, calls: seq<Call>, world: World, name: string)
    requires IsRun(planes, answers, calls, world)
    ensures NeverMixedChain(planes, name)
  {
    forall k | 0 <= k < |planes| - 1
      ensures NeverMixedAt(planes, k, name)
    {
      StepIsNeverMixed(planes[k], calls[k], world, name);
    }
  }

  lemma {:induction false} ChainIsNeverMixed(planes: seq<Plane>, n: nat, name: string)
    requires NeverMixedChain(planes, name) && n < |planes| && name in planes[0].live
    ensures name in planes[n].live && MetFrom(planes[0].live[name], planes[n].live[name], planes, n, name)
  {
    if n > 0 {
      ChainIsNeverMixed(planes, n - 1, name);
      assert NeverMixedAt(planes, n - 1, name);
      MetOneMore(planes[0].live[name], planes[n - 1].live[name], planes[n].live[name], planes, n, name);
    }
  }

  /**
    Over any run, every list a picker ever meets on a socket was there at the
    start or is a prefix of one configuration's list.
   */
  lemma RunIsNeverMixed(planes: seq<Plane>, answers: seq<Answer>, calls: seq<Call>, world: World, n: nat, name: string)
    requires IsRun(planes, answers, calls, world) && n <= |calls| && name in planes[0].live
    ensures name in planes[n].live && MetFrom(planes[0].live[name], planes[n].live[name], planes, n, name)
  {
    RunIsNeverMixedChain(planes, answers, calls, world, name);
    ChainIsNeverMixed(planes, n, name);
  }

  // ----- When the rebuild looks atomic -----

  /** Every list met since is the one from before or the one from after. */
  ghost predicate LooksAtomic(before: SocketView, after: SocketView) {
    forall i :: |before.history| <= i < |after.history| ==>
      after.history[i] == before.servers || after.history[i] == after.servers
  }

  /** One rebuild looks atomic exactly when its new list is empty, or it puts a single service into an empty list. */
  lemma RebuildLooksAtomicExactly(v: SocketView, r: ResolvedProxy, engine: Engine)
    ensures LooksAtomic(v, Applied(v, r, engine)) <==>
            r.services == [] || (|r.services| == 1 && v.servers == [])
  {
    var after := Applied(v, r, engine);
    var lists, n := Prefixes(r.services), |v.history|;
    assert forall k :: 0 <= k < |lists| ==> after.history[n + k] == lists[k];
    assert lists[0] == [] && lists[|r.services|] == r.services;
    if LooksAtomic(v, after) && |r.services| > 1 {
      assert after.history[n] == [] && after.history[n + 1] == lists[1];
      assert |lists[1]| == 1;
    }
  }

  /** The lists one update passes through on a socket: for each of the first n endpoints of its name, all prefixes. */
  function NewLists(ps: seq<EndPoint>, n: nat, name: string): seq<seq<ResolvedService>>
    requires n <= |ps|
  {
    if n == 0 then []
    else NewLists(ps, n - 1, name) + if ps[n - 1].name == name then Prefixes(Targets(ps[n - 1])) else []
  }

  lemma {:induction false} NewListsAre(ps: seq<EndPoint>, n: nat, name: string, list: seq<ResolvedService>)
    requires n <= |ps|
    ensures list in NewLists(ps, n, name) <==> exists j :: 0 <= j < n && ps[j].name == name && list <= Targets(ps[j])
  {
    if n > 0 {
      NewListsAre(ps, n - 1, name, list);
      PrefixesAre(Targets(ps[n - 1]), list);
    }
  }

  lemma PrefixesAre(services: seq<ResolvedService>, list: seq<ResolvedService>)
    ensures list in Prefixes(services) <==> list <= services
  {
    if list <= services {
      assert Prefixes(services)[|list|] == list;
    }
  }

  lemma {:induction false} HistoryGrowsBy(live: Live, rs: seq<ResolvedProxy>, ps: seq<EndPoint>, n: nat,
                                          engine: Engine, name: string)
    requires n <= |rs| == |ps| && forall i :: 0 <= i < |ps| ==> Resolves(rs[i], ps[i])
    requires name in live
    ensures name in ApplyAll(live, rs[..n], engine)
    ensures ApplyAll(live, rs[..n], engine)[name].history == live[name].history + NewLists(ps, n, name)
  {
    if n > 0 {
      HistoryGrowsBy(live, rs, ps, n - 1, engine, name);
      assert rs[..n][..n - 1] == rs[..n - 1];
    }
  }

  /**
    What a picker meets during an ok update, exactly: the prefixes of the lists
    of all stored endpoints of the socket's name.
   */
  lemma PickerMeetsExactly(plane: Plane, libraries: seq<Library>, env: Env, engine: Engine, name: string,
                           list: seq<ResolvedService>)
    requires name in plane.live && Update(plane, libraries, env, engine).1 == Ok
    ensures var after := Update(plane, libraries, env, engine).0;
            && name in after.live
            && plane.live[name].history <= after.live[name].history
            && (list in after.live[name].history[|plane.live[name].history|..] <==>
                PrefixOfNew(list, Stored(plane), name))
  {
    var ps := Stored(plane);
    var rs := ResolveAll(ps, libraries, env, plane.cache).1.value;
    ResolveAllMeaning(ps, libraries, env, plane.cache);
    HistoryGrowsBy(plane.live, rs, ps, |ps|, engine, name);
    assert rs[..|ps|] == rs;
    NewListsAre(ps, |ps|, name, list);
  }

  /** Endpoint lists an update can pass through without showing anything but the old and the new list. */
  ghost predicate Unnoticed(ps: seq<EndPoint>, name: string, was: seq<ResolvedService>, becomes: seq<ResolvedService>) {
    && (was == [] || becomes == [])
    && forall j :: 0 <= j < |ps| && ps[j].name == name ==>
         Targets(ps[j]) == [] || (|Targets(ps[j])| == 1 && (Targets(ps[j]) == was || Targets(ps[j]) == becomes))
  }

  /**
    An ok update looks atomic on a tracked socket exactly when the old or the
    new list is empty and every stored endpoint of its name has no service, or
    a single one that is all of the old or the new list.
   */
  lemma UpdateLooksAtomicExactly(plane: Plane, libraries: seq<Library>, env: Env, engine: Engine, name: string)
    requires name in plane.live && Names(Stored(plane), name) && Update(plane, libraries, env, engine).1 == Ok
    ensures var after := Update(plane, libraries, env, engine).0;
            && name in after.live
            && (LooksAtomic(plane.live[name], after.live[name]) <==>
                Unnoticed(Stored(plane), name, plane.live[name].servers, Targets(LastEndPoint(plane, name))))
  {
    var ps := Stored(plane);
    var after := Update(plane, libraries, env, engine).0;
    UpdateOutcome(plane, libraries, env, engine, name);
    PickerMeetsExactly(plane, libraries, env, engine, name, []);
    var before, now := plane.live[name], after.live[name];
    var met := now.history[|before.history|..];
    assert forall i :: |before.history| <= i < |now.history| ==> now.history[i] == met[i - |before.history|];
    assert now.servers == Targets(LastEndPoint(plane, name));
    if LooksAtomic(before, now) {
      forall list | PrefixOfNew(list, ps, name)
        ensures list == before.servers || list == now.servers
      {
        PickerMeetsExactly(plane, libraries, env, engine, name, list);
      }
      AtomicNeeds(ps, name, before.servers, now.servers);
    }
    if Unnoticed(ps, name, before.servers, now.servers) {
      forall i | |before.history| <= i < |now.history|
        ensures now.history[i] == before.servers || now.history[i] == now.servers
      {
        PickerMeetsExactly(plane, libraries, env, engine, name, now.history[i]);
        assert now.history[i] == met[i - |before.history|];
        OnlyOldOrNew(ps, name, before.servers, now.servers, now.history[i]);
      }
    }
  }

  lemma AtomicNeeds(ps: seq<EndPoint>, name: string, was: seq<ResolvedService>, becomes: seq<ResolvedService>)
    requires Names(ps, name)
    requires forall list :: PrefixOfNew(list, ps, name) ==> list == was || list == becomes
    ensures Unnoticed(ps, name, was, becomes)
  {
    forall j | 0 <= j < |ps| && ps[j].name == name
      ensures was == [] || becomes == []
      ensures Targets(ps[j]) == [] || (|Targets(ps[j])| == 1 && (Targets(ps[j]) == was || Targets(ps[j]) == becomes))
    {
      var t := Targets(ps[j]);
      assert PrefixOfNew([], ps, name) by {
        assert [] <= t;
      }
      assert PrefixOfNew(t, ps, name);
      if t != [] {
        assert PrefixOfNew(t[..1], ps, name);
      }
    }
  }

  lemma OnlyOldOrNew(ps: seq<EndPoint>, name: string, was: seq<ResolvedService>, becomes: seq<ResolvedService>,
                     list: seq<ResolvedService>)
    requires Unnoticed(ps, name, was, becomes) && PrefixOfNew(list, ps, name)
    ensures list == was || list == becomes
  {
    var j :| 0 <= j < |ps| && ps[j].name == name && list <= Targets(ps[j]);
    if |list| == 1 {
      assert list == Targets(ps[j]);
    }
  }

  /** For a name stored once: exactly when the endpoint has no service, or one service and the socket had none. */
  lemma UniqueUpdateLooksAtomicExactly(plane: Plane, libraries: seq<Library>, env: Env, engine: Engine, name: string,
                                       k: nat)
    requires name in plane.live && Update(plane, libraries, env, engine).1 == Ok
    requires var ps := Stored(plane);
             k < |ps| && ps[k].name == name && forall i :: 0 <= i < |ps| && i != k ==> ps[i].name != name
    ensures var after := Update(plane, libraries, env, engine).0;
            var services := Stored(plane)[k].services;
            && name in after.live
            && (LooksAtomic(plane.live[name], after.live[name]) <==>
                services == [] || (|services| == 1 && plane.live[name].servers == []))
  {
    UpdateLooksAtomicExactly(plane, libraries, env, engine, name);
    assert LastEndPoint(plane, name) == Stored(plane)[k];
    assert |Targets(Stored(plane)[k])| == |Stored(plane)[k].services|;
  }
}
