/**
  Several writers (src/config/ConfigSingleton.h:12-16 allows one): which
  interleavings lose a commit, although every edit takes the mutex.
 */
module LostEdits {
  import opened Wrappers
  import opened ConfigTypes
  import opened ProxyServer
  import opened SingleWriter

  // ----- Conditions read off a schedule -----

  predicate Commits(l: Label) {
    l.Set? || l.EndLoad?
  }

  /** The writers whose load is under way. */
  function Open(schedule: seq<Label>): set<nat> {
    if schedule == [] then {}
    else
      var before := Open(schedule[..|schedule| - 1]);
      match schedule[|schedule| - 1]
      case BeginLoad(w, _) => before + {w}
      case EndLoad(w) => before - {w}
      case _ => before
  }

  /** This writer's last Get fell into no load, and nothing has been committed since. */
  predicate Fresh(schedule: seq<Label>, w: nat) {
    schedule != [] &&
    var init, last := schedule[..|schedule| - 1], schedule[|schedule| - 1];
    if last.Get? && last.w == w then Open(init) == {} else !Commits(last) && Fresh(init, w)
  }

  /** This writer's last load began while no other was under way, and no Set and no other load has fallen into it. */
  predicate Alone(schedule: seq<Label>, w: nat) {
    schedule != [] &&
    var init, last := schedule[..|schedule| - 1], schedule[|schedule| - 1];
    if last.BeginLoad? && last.w == w then Open(init) == {} else !last.BeginLoad? && !last.Set? && Alone(init, w)
  }

  /** This step, after those, commits nothing, or it is a fresh Set outside every load, or the end of a lone load. */
  predicate CleanStep(init: seq<Label>, l: Label) {
    && (l.Set? ==> Open(init) == {} && Fresh(init, l.w))
    && (l.EndLoad? ==> Alone(init, l.w))
  }

  predicate Clean(schedule: seq<Label>) {
    schedule == [] ||
    (Clean(schedule[..|schedule| - 1]) && CleanStep(schedule[..|schedule| - 1], schedule[|schedule| - 1]))
  }

  lemma FreshOneMore(init: seq<Label>, l: Label, w: nat)
    ensures Fresh(init + [l], w) <==> if l.Get? && l.w == w then Open(init) == {} else !Commits(l) && Fresh(init, w)
  {
    assert (init + [l])[..|init|] == init;
  }

  lemma AloneOneMore(init: seq<Label>, l: Label, w: nat)
    ensures Alone(init + [l], w) <==>
            if l.BeginLoad? && l.w == w then Open(init) == {} else !l.BeginLoad? && !l.Set? && Alone(init, w)
  {
    assert (init + [l])[..|init|] == init;
  }

  lemma OpenOneMore(init: seq<Label>, l: Label)
    ensures Open(init + [l]) ==
            if l.BeginLoad? then Open(init) + {l.w} else if l.EndLoad? then Open(init) - {l.w} else Open(init)
  {
    assert (init + [l])[..|init|] == init;
  }

  /** One more label. */
  lemma Then(config: ProxyConfig, writers: nat, torn: Torn, schedule: seq<Label>, l: Label)
    requires Run(config, writers, torn, schedule).Some? && Enabled(Run(config, writers, torn, schedule).value, l)
    ensures var s := Run(config, writers, torn, schedule).value;
            Run(config, writers, torn, schedule + [l]) == Some(Next(s, l, torn(|schedule|)))
  {
    assert (schedule + [l])[..|schedule|] == schedule;
  }

  // ----- The schedule tells which loads are under way, and which race -----

  ghost predicate LoadTold(schedule: seq<Label>, writers: seq<Writer>, w: nat) {
    && (w in Open(schedule) <==> w < |writers| && writers[w].Loading?)
    && (w in Open(schedule) ==> (writers[w].raced <==> !Alone(schedule, w)))
  }

  ghost predicate Told(schedule: seq<Label>, s: System) {
    forall w: nat :: LoadTold(schedule, s.writers, w)
  }

  lemma InLoadIsTold(schedule: seq<Label>, s: System)
    requires Told(schedule, s)
    ensures InLoad(s) <==> Open(schedule) != {}
  {
    if Open(schedule) != {} {
      var w :| w in Open(schedule);
      assert LoadTold(schedule, s.writers, w);
    }
    if InLoad(s) {
      var w: nat :| w < |s.writers| && s.writers[w].Loading?;
      assert LoadTold(schedule, s.writers, w);
    }
  }

  lemma StepIsTold(init: seq<Label>, s: System, l: Label, torn: ProxyConfig)
    requires Told(init, s) && Enabled(s, l)
    ensures Told(init + [l], Next(s, l, torn))
  {
    InLoadIsTold(init, s);
    OpenOneMore(init, l);
    forall w: nat
      ensures LoadTold(init + [l], Next(s, l, torn).writers, w)
    {
      AloneOneMore(init, l, w);
      assert LoadTold(init, s.writers, w);
    }
  }

  lemma {:induction false} RunIsTold(config: ProxyConfig, writers: nat, torn: Torn, schedule: seq<Label>)
    requires Run(config, writers, torn, schedule).Some?
    ensures Told(schedule, Run(config, writers, torn, schedule).value)
  {
    if schedule != [] {
      var n := |schedule| - 1;
      RunIsTold(config, writers, torn, schedule[..n]);
      StepIsTold(schedule[..n], Run(config, writers, torn, schedule[..n]).value, schedule[n], torn(n));
      assert schedule[..n] + [schedule[n]] == schedule;
    }
  }

  // ----- Clean schedules lose nothing -----

  /** What a writer holds is in step with what is stored. */
  ghost predicate InStep(stored: ProxyConfig, writer: Writer) {
    match writer
    case Copied(copy, _) => copy == stored
    case Changed(copy, edit) => EditConfig(stored, edit) == Some(copy)
    case _ => true
  }

  ghost predicate StoresFold(config: ProxyConfig, s: System) {
    s.stored == Fold(config, s.commits)
  }

  ghost predicate AllInStep(s: System, schedule: seq<Label>) {
    forall w :: 0 <= w < |s.writers| && Fresh(schedule, w) ==> InStep(s.stored, s.writers[w])
  }

  lemma StoredIsFold(config: ProxyConfig, torn: ProxyConfig, s: System, init: seq<Label>, l: Label)
    requires StoresFold(config, s) && AllInStep(s, init) && Told(init, s) && Enabled(s, l) && CleanStep(init, l)
    ensures StoresFold(config, Next(s, l, torn))
  {
    InLoadIsTold(init, s);
    if l.Set? {
      assert InStep(s.stored, s.writers[l.w]);
      FoldEdit(config, s.commits, s.writers[l.w].edit, s.writers[l.w].copy);
    } else if l.EndLoad? {
      assert LoadTold(init, s.writers, l.w);
      FoldReplace(config, s.commits, s.writers[l.w].config);
    }
  }

  lemma StepKeepsAllInStep(torn: ProxyConfig, s: System, init: seq<Label>, l: Label)
    requires AllInStep(s, init) && Told(init, s) && Enabled(s, l)
    ensures AllInStep(Next(s, l, torn), init + [l])
  {
    var t := Next(s, l, torn);
    InLoadIsTold(init, s);
    forall w | 0 <= w < |t.writers| && Fresh(init + [l], w)
      ensures InStep(t.stored, t.writers[w])
    {
      FreshOneMore(init, l, w);
      if !(l.Get? && l.w == w) {
        assert InStep(s.stored, s.writers[w]);
      }
    }
  }

  /** However many writers: in a clean schedule what is stored is always the fold of all commits. */
  lemma {:induction false} CleanIsLossless(config: ProxyConfig, writers: nat, torn: Torn, schedule: seq<Label>)
    requires Run(config, writers, torn, schedule).Some? && Clean(schedule)
    ensures StoresFold(config, Run(config, writers, torn, schedule).value)
    ensures AllInStep(Run(config, writers, torn, schedule).value, schedule)
  {
    if schedule != [] {
      var n := |schedule| - 1;
      var s := Run(config, writers, torn, schedule[..n]).value;
      CleanIsLossless(config, writers, torn, schedule[..n]);
      RunIsTold(config, writers, torn, schedule[..n]);
      StoredIsFold(config, torn(n), s, schedule[..n], schedule[n]);
      StepKeepsAllInStep(torn(n), s, schedule[..n], schedule[n]);
      assert schedule[..n] + [schedule[n]] == schedule;
    }
  }

  // ----- The same interleaving with other edits, documents and torn values -----

  /** The same step of the same writer; edits and documents may differ. */
  predicate SameStep(l: Label, m: Label) {
    match l
    case Get(w, _) => m.Get? && m.w == w
    case BeginLoad(w, _) => m.BeginLoad? && m.w == w
    case _ => l == m
  }

  ghost predicate SameSteps(schedule: seq<Label>, other: seq<Label>) {
    |schedule| == |other| && forall i :: 0 <= i < |schedule| ==> SameStep(schedule[i], other[i])
  }

  lemma SameInit(schedule: seq<Label>, other: seq<Label>)
    requires SameSteps(schedule, other) && schedule != []
    ensures SameSteps(schedule[..|schedule| - 1], other[..|schedule| - 1])
    ensures SameStep(schedule[|schedule| - 1], other[|schedule| - 1])
  {
  }

  lemma {:induction false} SameOpen(schedule: seq<Label>, other: seq<Label>)
    requires SameSteps(schedule, other)
    ensures Open(schedule) == Open(other)
  {
    if schedule != [] {
      SameInit(schedule, other);
      SameOpen(schedule[..|schedule| - 1], other[..|schedule| - 1]);
    }
  }

  lemma {:induction false} SameFresh(schedule: seq<Label>, other: seq<Label>, w: nat)
    requires SameSteps(schedule, other)
    ensures Fresh(schedule, w) <==> Fresh(other, w)
    ensures Alone(schedule, w) <==> Alone(other, w)
  {
    if schedule != [] {
      SameInit(schedule, other);
      SameOpen(schedule[..|schedule| - 1], other[..|schedule| - 1]);
      SameFresh(schedule[..|schedule| - 1], other[..|schedule| - 1], w);
    }
  }

  lemma SameCleanStep(init: seq<Label>, other: seq<Label>, l: Label, m: Label)
    requires SameSteps(init, other) && SameStep(l, m)
    ensures CleanStep(init, l) <==> CleanStep(other, m)
  {
    if Commits(l) {
      SameOpen(init, other);
      SameFresh(init, other, l.w);
    }
  }

  lemma {:induction false} SameClean(schedule: seq<Label>, other: seq<Label>)
    requires SameSteps(schedule, other)
    ensures Clean(schedule) <==> Clean(other)
  {
    if schedule != [] {
      var n := |schedule| - 1;
      SameInit(schedule, other);
      SameClean(schedule[..n], other[..n]);
      SameCleanStep(schedule[..n], other[..n], schedule[n], other[n]);
    }
  }

  /** No step of the run leaves anything else stored than the fold of the commits. */
  ghost predicate NeverLossy(config: ProxyConfig, writers: nat, torn: Torn, schedule: seq<Label>)
    requires Run(config, writers, torn, schedule).Some?
  {
    && (schedule == [] || NeverLossy(config, writers, torn, schedule[..|schedule| - 1]))
    && StoresFold(config, Run(config, writers, torn, schedule).value)
  }

  lemma {:induction false} CleanIsNeverLossy(config: ProxyConfig, writers: nat, torn: Torn, schedule: seq<Label>)
    requires Run(config, writers, torn, schedule).Some? && Clean(schedule)
    ensures NeverLossy(config, writers, torn, schedule)
  {
    CleanIsLossless(config, writers, torn, schedule);
    if schedule != [] {
      CleanIsNeverLossy(config, writers, torn, schedule[..|schedule| - 1]);
    }
  }

  // ----- The twin: adds to one endpoint, documents that all differ, and a torn value unlike all of them -----

  const X: Service := Service("x", "h", 1, 1, "")
  const FOUND: ServiceEdit := ServiceEdit("a", "add", X)
  const NOT_FOUND: ServiceEdit := ServiceEdit("b", "add", X)

  function Only(services: seq<Service>): EndPoint {
    EndPoint("a", 1, false, services, "", "", "", "")
  }

  /** One endpoint with so many services, in a cluster whose name is so long. */
  function Plain(tag: nat, count: nat): ProxyConfig {
    ProxyConfig([Cluster(seq(tag, _ => 'c'), [Only(seq(count, _ => X))])], [])
  }

  // Tag 0 is torn, tag 1 is what is stored first, the document of the step at position i has tag i + 2.
  const TORN: ProxyConfig := Plain(0, 0)
  const FIRST: ProxyConfig := Plain(1, 0)

  function TagOf(config: ProxyConfig): nat {
    if config.clusters == [] then 0 else |config.clusters[0].name|
  }

  function CountOf(config: ProxyConfig): nat {
    if config.clusters == [] || config.clusters[0].endPoints == [] then 0
    else |config.clusters[0].endPoints[0].services|
  }

  lemma PlainIsInjective(t: nat, c: nat, t': nat, c': nat)
    ensures Plain(t, c) == Plain(t', c') <==> t == t' && c == c'
  {
    assert TagOf(Plain(t, c)) == t && TagOf(Plain(t', c')) == t';
    assert CountOf(Plain(t, c)) == c && CountOf(Plain(t', c')) == c';
  }

  lemma EditPlain(t: nat, c: nat)
    ensures EditConfig(Plain(t, c), FOUND) == Some(Plain(t, c + 1))
    ensures EditConfig(Plain(t, c), NOT_FOUND) == None
  {
    var p, clusters := Only(seq(c, _ => X)), Plain(t, c).clusters;
    assert "a"[0] != "b"[0];
    assert clusters[0].endPoints == [p] && [p][0].name == "a";
    FirstNamedIs([p], "a", 0);
    assert Names(clusters[0].endPoints, "a") && !Names(clusters[0].endPoints, "b");
    assert FirstCluster(clusters, "a", 0) == 0 && FirstCluster(clusters, "b", 0) == 1;
    assert seq(c, _ => X) + [X] == seq(c + 1, _ => X);
    assert EditEndPoints([p], FOUND) == [Only(seq(c + 1, _ => X))];
    assert clusters[0 := EditCluster(clusters[0], FOUND)] == [EditCluster(clusters[0], FOUND)];
  }

  /** The step at position i, with its edit found exactly when the original's is. */
  function TwinStep(s: System, l: Label, i: nat, torn: ProxyConfig): Label {
    match l
    case Get(w, edit) => Get(w, if EditConfig(SeenNow(s, torn), edit).Some? then FOUND else NOT_FOUND)
    case BeginLoad(w, _) => BeginLoad(w, Plain(i + 2, 0))
    case _ => l
  }

  function Twin(config: ProxyConfig, writers: nat, torn: Torn, schedule: seq<Label>): seq<Label>
    requires Run(config, writers, torn, schedule).Some?
  {
    if schedule == [] then []
    else
      var n := |schedule| - 1;
      var s := Run(config, writers, torn, schedule[..n]).value;
      Twin(config, writers, torn, schedule[..n]) + [TwinStep(s, schedule[n], n, torn(n))]
  }

  lemma {:induction false} TwinIsSame(config: ProxyConfig, writers: nat, torn: Torn, schedule: seq<Label>)
    requires Run(config, writers, torn, schedule).Some?
    ensures SameSteps(schedule, Twin(config, writers, torn, schedule))
  {
    if schedule != [] {
      TwinIsSame(config, writers, torn, schedule[..|schedule| - 1]);
    }
  }

  /** A plain configuration, with its two numbers. */
  datatype Version = Version(tag: nat, count: nat) {
    function Config(): ProxyConfig {
      Plain(tag, count)
    }
  }

  ghost predicate IsPlain(config: ProxyConfig) {
    exists v: Version :: config == v.Config()
  }

  lemma PlainIsPlain(tag: nat, count: nat)
    ensures IsPlain(Plain(tag, count))
  {
    assert Plain(tag, count) == Version(tag, count).Config();
  }

  /** The twin's writer is where the original's is. */
  ghost predicate TwinWriter(a: Writer, b: Writer) {
    match a
    case Idle => b.Idle?
    case Copied(copy, edit) =>
      && b.Copied? && IsPlain(b.copy)
      && b.edit == if EditConfig(copy, edit).Some? then FOUND else NOT_FOUND
    case Changed(_, _) => b.Changed? && b.edit == FOUND && IsPlain(b.copy)
    case Loading(_, raced) => b.Loading? && b.raced == raced && IsPlain(b.config)
    case Committed => b.Committed?
    case Resolved(_) => b.Resolved?
  }

  ghost predicate TwinSystem(s: System, t: System) {
    && |t.writers| == |s.writers| && IsPlain(t.stored)
    && forall w :: 0 <= w < |s.writers| ==> TwinWriter(s.writers[w], t.writers[w])
  }

  lemma TwinInLoad(s: System, t: System)
    requires TwinSystem(s, t)
    ensures InLoad(s) <==> InLoad(t)
  {
    assert forall w :: 0 <= w < |s.writers| ==> (s.writers[w].Loading? <==> t.writers[w].Loading?);
  }

  lemma TwinWriterKept(s: System, t: System, l: Label, i: nat, torn: ProxyConfig, w: nat)
    requires TwinSystem(s, t) && Enabled(s, l) && w < |s.writers|
    requires Enabled(t, TwinStep(s, l, i, torn))
    ensures TwinWriter(Next(s, l, torn).writers[w], Next(t, TwinStep(s, l, i, torn), TORN).writers[w])
  {
    TwinInLoad(s, t);
    PlainIsPlain(0, 0);
    assert TwinWriter(s.writers[w], t.writers[w]);
    if l.Change? && l.w == w {
      var v: Version :| t.writers[w].copy == v.Config();
      EditPlain(v.tag, v.count);
      PlainIsPlain(v.tag, v.count + 1);
    } else if l.BeginLoad? && l.w == w {
      PlainIsPlain(i + 2, 0);
    }
  }

  lemma TwinStepKeeps(s: System, t: System, l: Label, i: nat, torn: ProxyConfig)
    requires TwinSystem(s, t) && Enabled(s, l)
    ensures var m := TwinStep(s, l, i, torn);
            Enabled(t, m) && TwinSystem(Next(s, l, torn), Next(t, m, TORN))
  {
    PlainIsPlain(0, 0);
    if !l.Read? {
      assert TwinWriter(s.writers[l.w], t.writers[l.w]);
    }
    forall w | 0 <= w < |s.writers|
      ensures TwinWriter(Next(s, l, torn).writers[w], Next(t, TwinStep(s, l, i, torn), TORN).writers[w])
    {
      TwinWriterKept(s, t, l, i, torn, w);
    }
  }

  /** The run of the twin. */
  function TwinRun(config: ProxyConfig, writers: nat, torn: Torn, schedule: seq<Label>): Option<System>
    requires Run(config, writers, torn, schedule).Some?
  {
    Run(FIRST, writers, Always(TORN), Twin(config, writers, torn, schedule))
  }

  lemma TwinTakesStep(config: ProxyConfig, writers: nat, torn: Torn, schedule: seq<Label>)
    requires schedule != [] && Run(config, writers, torn, schedule).Some?
    requires var n := |schedule| - 1;
             && TwinRun(config, writers, torn, schedule[..n]).Some?
             && var s := Run(config, writers, torn, schedule[..n]).value;
                Enabled(TwinRun(config, writers, torn, schedule[..n]).value, TwinStep(s, schedule[n], n, torn(n)))
    ensures var n := |schedule| - 1;
            var s, t := Run(config, writers, torn, schedule[..n]).value,
              TwinRun(config, writers, torn, schedule[..n]).value;
            TwinRun(config, writers, torn, schedule) == Some(Next(t, TwinStep(s, schedule[n], n, torn(n)), TORN))
  {
    var n := |schedule| - 1;
    var s, twin := Run(config, writers, torn, schedule[..n]).value, Twin(config, writers, torn, schedule[..n]);
    TwinIsSame(config, writers, torn, schedule[..n]);
    Then(FIRST, writers, Always(TORN), twin, TwinStep(s, schedule[n], n, torn(n)));
  }

  /** The twin runs through. */
  lemma {:induction false} TwinRuns(config: ProxyConfig, writers: nat, torn: Torn, schedule: seq<Label>)
    requires Run(config, writers, torn, schedule).Some?
    ensures TwinRun(config, writers, torn, schedule).Some?
    ensures TwinSystem(Run(config, writers, torn, schedule).value, TwinRun(config, writers, torn, schedule).value)
  {
    if schedule == [] {
      PlainIsPlain(1, 0);
    } else {
      var n := |schedule| - 1;
      TwinRuns(config, writers, torn, schedule[..n]);
      TwinStepKeeps(Run(config, writers, torn, schedule[..n]).value,
                    TwinRun(config, writers, torn, schedule[..n]).value, schedule[n], n, torn(n));
      TwinTakesStep(config, writers, torn, schedule);
    }
  }

  // ----- What was stored in the twin never comes back, and what is torn is never stored -----

  /** What the writer got, before it changed it. */
  function CountGot(writer: Writer): int
    requires writer.Copied? || writer.Changed?
  {
    if writer.Copied? then CountOf(writer.copy) else CountOf(writer.copy) - 1
  }

  /** No document under way has that tag. */
  ghost predicate Dead(t: System, tag: nat) {
    forall w :: 0 <= w < |t.writers| && t.writers[w].Loading? ==> TagOf(t.writers[w].config) != tag
  }

  /** A fresh writer got what is stored; another one got something that is not stored any more and never will be. */
  ghost predicate Got(t: System, writer: Writer, isFresh: bool)
    requires writer.Copied? || writer.Changed?
  {
    var tag := TagOf(writer.copy);
    if isFresh then tag == TagOf(t.stored) && CountGot(writer) == CountOf(t.stored)
    else if tag == TagOf(t.stored) then CountGot(writer) < CountOf(t.stored)
    else Dead(t, tag)
  }

  /** The writer's tags are at most n, and a document under way is neither torn nor what is stored. */
  ghost predicate TagsOf(t: System, writer: Writer, n: nat) {
    match writer
    case Loading(config, _) => 0 < TagOf(config) <= n && TagOf(config) != TagOf(t.stored)
    case Copied(copy, _) => TagOf(copy) <= n
    case Changed(copy, _) => TagOf(copy) <= n
    case _ => true
  }

  ghost predicate DistinctLoads(t: System) {
    forall v, w :: 0 <= v < w < |t.writers| && t.writers[v].Loading? && t.writers[w].Loading? ==>
      TagOf(t.writers[v].config) != TagOf(t.writers[w].config)
  }

  ghost predicate Tags(t: System, n: nat) {
    && 0 < TagOf(t.stored) <= n
    && (forall w :: 0 <= w < |t.writers| ==> TagsOf(t, t.writers[w], n))
    && DistinctLoads(t)
  }

  ghost predicate AllGot(t: System, schedule: seq<Label>) {
    forall w :: 0 <= w < |t.writers| && (t.writers[w].Copied? || t.writers[w].Changed?) ==>
      Got(t, t.writers[w], Fresh(schedule, w))
  }

  /** A step of the twin that commits nothing torn; a document has a tag of its own. */
  ghost predicate TidyStep(s: System, t: System, l: Label, n: nat) {
    && TwinSystem(s, t) && Enabled(s, l) && Enabled(t, l) && Tags(t, n)
    && (l.BeginLoad? ==> l.config == Plain(n + 1, 0))
    && (l.Set? ==> !InLoad(t) && Got(t, t.writers[l.w], true))
    && (l.EndLoad? ==> !t.writers[l.w].raced)
  }

  /** A change adds one service and keeps the tag. */
  lemma ChangedPlain(s: System, t: System, l: Label)
    requires TwinSystem(s, t) && l.Change? && Enabled(t, l) && Enabled(s, l)
    ensures var a, b := t.writers[l.w], Next(t, l, TORN).writers[l.w];
            b.Changed? ==> TagOf(b.copy) == TagOf(a.copy) && CountOf(b.copy) == CountOf(a.copy) + 1
  {
    assert TwinWriter(s.writers[l.w], t.writers[l.w]);
    var v: Version :| t.writers[l.w].copy == v.Config();
    EditPlain(v.tag, v.count);
  }

  lemma StepKeepsTagsOf(s: System, t: System, l: Label, n: nat, w: nat)
    requires TidyStep(s, t, l, n) && w < |t.writers|
    ensures TagsOf(Next(t, l, TORN), Next(t, l, TORN).writers[w], n + 1)
  {
    assert TagsOf(t, t.writers[w], n);
    if l.EndLoad? {
      assert TagsOf(t, t.writers[l.w], n);
    } else if l.Change? {
      ChangedPlain(s, t, l);
    }
  }

  lemma StepKeepsTags(s: System, t: System, l: Label, n: nat)
    requires TidyStep(s, t, l, n)
    ensures Tags(Next(t, l, TORN), n + 1)
  {
    var t' := Next(t, l, TORN);
    forall w | 0 <= w < |t'.writers|
      ensures TagsOf(t', t'.writers[w], n + 1)
    {
      StepKeepsTagsOf(s, t, l, n, w);
    }
    if l.EndLoad? {
      assert TagsOf(t, t.writers[l.w], n);
    }
    StepKeepsDistinctLoads(t, l, n);
  }

  lemma StepKeepsDistinctLoads(t: System, l: Label, n: nat)
    requires Enabled(t, l) && Tags(t, n) && (l.BeginLoad? ==> l.config == Plain(n + 1, 0))
    ensures DistinctLoads(Next(t, l, TORN))
  {
    var t' := Next(t, l, TORN);
    forall v, w | 0 <= v < w < |t'.writers| && t'.writers[v].Loading? && t'.writers[w].Loading?
      ensures TagOf(t'.writers[v].config) != TagOf(t'.writers[w].config)
    {
      assert TagsOf(t, t.writers[v], n) && TagsOf(t, t.writers[w], n);
    }
  }

  lemma DeadStays(t: System, l: Label, tag: nat, n: nat)
    requires Enabled(t, l) && Dead(t, tag) && tag <= n && (l.BeginLoad? ==> l.config == Plain(n + 1, 0))
    ensures Dead(Next(t, l, TORN), tag)
  {
    var t' := Next(t, l, TORN);
    forall w | 0 <= w < |t'.writers| && t'.writers[w].Loading?
      ensures TagOf(t'.writers[w].config) != tag
    {
    }
  }

  /** What is stored, and what is torn, is no document under way. */
  lemma StoredIsDead(t: System, n: nat)
    requires Tags(t, n)
    ensures Dead(t, TagOf(t.stored)) && Dead(t, 0)
  {
    forall w | 0 <= w < |t.writers| && t.writers[w].Loading?
      ensures TagOf(t.writers[w].config) != TagOf(t.stored) && TagOf(t.writers[w].config) != 0
    {
      assert TagsOf(t, t.writers[w], n);
    }
  }

  /** One writer that the step is not a Get or a Change of. */
  lemma OtherGot(s: System, t: System, l: Label, writer: Writer, isFresh: bool, n: nat)
    requires TidyStep(s, t, l, n) && (writer.Copied? || writer.Changed?)
    requires TagOf(writer.copy) <= n && Got(t, writer, isFresh)
    ensures Got(Next(t, l, TORN), writer, isFresh && !Commits(l))
  {
    StoredIsDead(t, n);
    DeadStays(t, l, TagOf(t.stored), n);
    if TagOf(writer.copy) != TagOf(t.stored) {
      DeadStays(t, l, TagOf(writer.copy), n);
    }
  }

  lemma ChangerGot(s: System, t: System, l: Label, isFresh: bool, n: nat)
    requires TidyStep(s, t, l, n) && l.Change? && Got(t, t.writers[l.w], isFresh)
    ensures var t' := Next(t, l, TORN); t'.writers[l.w].Changed? ==> Got(t', t'.writers[l.w], isFresh)
  {
    ChangedPlain(s, t, l);
    assert TagsOf(t, t.writers[l.w], n);
    if Dead(t, TagOf(t.writers[l.w].copy)) {
      DeadStays(t, l, TagOf(t.writers[l.w].copy), n);
    }
  }

  lemma GetterGot(s: System, t: System, l: Label, n: nat)
    requires TidyStep(s, t, l, n) && l.Get?
    ensures Got(Next(t, l, TORN), Next(t, l, TORN).writers[l.w], !InLoad(t))
  {
    StoredIsDead(t, n);
    DeadStays(t, l, 0, n);
  }

  lemma WriterGot(s: System, t: System, schedule: seq<Label>, l: Label, n: nat, w: nat)
    requires TidyStep(s, t, l, n) && AllGot(t, schedule) && w < |t.writers|
    ensures var writer := Next(t, l, TORN).writers[w];
            writer.Copied? || writer.Changed? ==>
              Got(Next(t, l, TORN), writer,
                  if l.Get? && l.w == w then !InLoad(t) else !Commits(l) && Fresh(schedule, w))
  {
    var writer := t.writers[w];
    if l.Get? && l.w == w {
      GetterGot(s, t, l, n);
    } else if l.Change? && l.w == w {
      ChangerGot(s, t, l, Fresh(schedule, w), n);
    } else if writer.Copied? || writer.Changed? {
      assert Got(t, writer, Fresh(schedule, w)) && TagsOf(t, writer, n);
      OtherGot(s, t, l, writer, Fresh(schedule, w), n);
    }
  }

  lemma StepKeepsGot(s: System, t: System, schedule: seq<Label>, l: Label, n: nat)
    requires TidyStep(s, t, l, n) && AllGot(t, schedule) && Told(schedule, t)
    ensures AllGot(Next(t, l, TORN), schedule + [l])
  {
    var t' := Next(t, l, TORN);
    InLoadIsTold(schedule, t);
    forall w | 0 <= w < |t'.writers| && (t'.writers[w].Copied? || t'.writers[w].Changed?)
      ensures Got(t', t'.writers[w], Fresh(schedule + [l], w))
    {
      FreshOneMore(schedule, l, w);
      WriterGot(s, t, schedule, l, n, w);
    }
  }

  /** A clean step of the twin is tidy. */
  lemma CleanStepIsTidy(s: System, t: System, twin: seq<Label>, l: Label, i: nat, torn: ProxyConfig)
    requires TwinSystem(s, t) && Enabled(s, l) && Tags(t, i + 1) && AllGot(t, twin) && Told(twin, t)
    requires CleanStep(twin, TwinStep(s, l, i, torn))
    ensures var m := TwinStep(s, l, i, torn);
            Enabled(s, m) && Enabled(t, m) && TidyStep(s, t, m, i + 1)
  {
    TwinStepKeeps(s, t, l, i, torn);
    InLoadIsTold(twin, t);
    if l.Set? {
      assert Got(t, t.writers[l.w], Fresh(twin, l.w));
    } else if l.EndLoad? {
      assert LoadTold(twin, t.writers, l.w);
    }
  }

  /** The twin's steps keep both as long as the schedule is clean. */
  lemma {:induction false} TwinNeverComesBack(config: ProxyConfig, writers: nat, torn: Torn, schedule: seq<Label>)
    requires Run(config, writers, torn, schedule).Some? && Clean(schedule)
    ensures TwinRun(config, writers, torn, schedule).Some?
    ensures var t := TwinRun(config, writers, torn, schedule).value;
            Tags(t, |schedule| + 1) && AllGot(t, Twin(config, writers, torn, schedule))
  {
    TwinRuns(config, writers, torn, schedule);
    if schedule != [] {
      var n := |schedule| - 1;
      var init := schedule[..n];
      var s, t := Run(config, writers, torn, init).value, TwinRun(config, writers, torn, init).value;
      var twin, m := Twin(config, writers, torn, init), TwinStep(s, schedule[n], n, torn(n));
      TwinNeverComesBack(config, writers, torn, init);
      TwinRuns(config, writers, torn, init);
      TwinIsSame(config, writers, torn, init);
      SameCleanStep(init, twin, schedule[n], m);
      RunIsTold(FIRST, writers, Always(TORN), twin);
      CleanStepIsTidy(s, t, twin, schedule[n], n, torn(n));
      StepKeepsTags(s, t, m, n + 1);
      StepKeepsGot(s, t, twin, m, n + 1);
      TwinTakesStep(config, writers, torn, schedule);
    }
  }

  // ----- A commit that is not clean is lost in the twin -----

  /** A Set of a found add that is not fresh stores fewer services than the fold, or those of something else. */
  lemma StaleSetIsLossy(s: System, t: System, l: Label)
    requires TwinSystem(s, t) && l.Set? && Enabled(t, l) && Enabled(s, l)
    requires StoresFold(FIRST, t) && !InLoad(t) && Got(t, t.writers[l.w], false)
    ensures !StoresFold(FIRST, Next(t, l, TORN))
  {
    assert TwinWriter(s.writers[l.w], t.writers[l.w]);
    var v: Version :| t.stored == v.Config();
    var u: Version :| t.writers[l.w].copy == u.Config();
    EditPlain(v.tag, v.count);
    FoldEdit(FIRST, t.commits, FOUND, Plain(v.tag, v.count + 1));
    PlainIsInjective(u.tag, u.count, v.tag, v.count + 1);
  }

  /** A Set that falls into a load leaves something torn. */
  lemma RacingSetIsLossy(s: System, t: System, l: Label, n: nat)
    requires TwinSystem(s, t) && l.Set? && Enabled(t, l) && Enabled(s, l)
    requires StoresFold(FIRST, t) && InLoad(t) && Tags(t, n)
    ensures !StoresFold(FIRST, Next(t, l, TORN))
  {
    assert TwinWriter(s.writers[l.w], t.writers[l.w]);
    var v: Version :| t.stored == v.Config();
    EditPlain(v.tag, v.count);
    FoldEdit(FIRST, t.commits, FOUND, Plain(v.tag, v.count + 1));
    PlainIsInjective(0, 0, v.tag, v.count + 1);
  }

  /** So does the end of a load that another load fell into. */
  lemma RacingLoadIsLossy(t: System, l: Label, n: nat)
    requires l.EndLoad? && Enabled(t, l) && t.writers[l.w].raced && Tags(t, n)
    ensures !StoresFold(FIRST, Next(t, l, TORN))
  {
    FoldReplace(FIRST, t.commits, t.writers[l.w].config);
    assert TagsOf(t, t.writers[l.w], n);
    assert TagOf(TORN) == 0;
  }

  lemma UncleanStepIsLossy(s: System, t: System, twin: seq<Label>, l: Label, n: nat)
    requires TwinSystem(s, t) && Enabled(t, l) && Enabled(s, l) && !CleanStep(twin, l)
    requires StoresFold(FIRST, t) && Tags(t, n) && AllGot(t, twin) && Told(twin, t)
    ensures !StoresFold(FIRST, Next(t, l, TORN))
  {
    InLoadIsTold(twin, t);
    if l.EndLoad? {
      assert LoadTold(twin, t.writers, l.w);
      RacingLoadIsLossy(t, l, n);
    } else if InLoad(t) {
      RacingSetIsLossy(s, t, l, n);
    } else {
      assert Got(t, t.writers[l.w], false);
      StaleSetIsLossy(s, t, l);
    }
  }

  lemma {:induction false} UncleanTwinIsLossy(config: ProxyConfig, writers: nat, torn: Torn, schedule: seq<Label>)
    requires Run(config, writers, torn, schedule).Some? && !Clean(schedule)
    ensures TwinRun(config, writers, torn, schedule).Some?
    ensures !NeverLossy(FIRST, writers, Always(TORN), Twin(config, writers, torn, schedule))
  {
    var n := |schedule| - 1;
    var init := schedule[..n];
    var twin, twin' := Twin(config, writers, torn, init), Twin(config, writers, torn, schedule);
    TwinIsSame(config, writers, torn, init);
    TwinRuns(config, writers, torn, init);
    TwinRuns(config, writers, torn, schedule);
    assert twin'[..n] == twin;
    if !Clean(init) {
      UncleanTwinIsLossy(config, writers, torn, init);
      LossyStays(FIRST, writers, Always(TORN), twin');
    } else {
      CleanTwinThenLossy(config, writers, torn, schedule);
    }
  }

  lemma LossyStays(config: ProxyConfig, writers: nat, torn: Torn, schedule: seq<Label>)
    requires Run(config, writers, torn, schedule).Some? && schedule != []
    requires !NeverLossy(config, writers, torn, schedule[..|schedule| - 1])
    ensures !NeverLossy(config, writers, torn, schedule)
  {
  }

  lemma CleanTwinThenLossy(config: ProxyConfig, writers: nat, torn: Torn, schedule: seq<Label>)
    requires schedule != [] && Run(config, writers, torn, schedule).Some?
    requires Clean(schedule[..|schedule| - 1]) && !Clean(schedule)
    ensures TwinRun(config, writers, torn, schedule).Some?
    ensures !StoresFold(FIRST, TwinRun(config, writers, torn, schedule).value)
  {
    var n := |schedule| - 1;
    var init := schedule[..n];
    var twin := Twin(config, writers, torn, init);
    TwinIsSame(config, writers, torn, init);
    TwinRuns(config, writers, torn, init);
    var s, t := Run(config, writers, torn, init).value, TwinRun(config, writers, torn, init).value;
    TwinNeverComesBack(config, writers, torn, init);
    SameClean(init, twin);
    SameCleanStep(init, twin, schedule[n], schedule[n]);
    CleanIsLossless(FIRST, writers, Always(TORN), twin);
    RunIsTold(FIRST, writers, Always(TORN), twin);
    TwinStepKeeps(s, t, schedule[n], n, torn(n));
    UncleanStepIsLossy(s, t, twin, schedule[n], n + 1);
    TwinTakesStep(config, writers, torn, schedule);
  }

  /** The interleaving never loses a commit, whatever the edits, the documents, the start and what races yield. */
  ghost predicate AlwaysLossless(writers: nat, schedule: seq<Label>) {
    forall config, torn, other :: SameSteps(schedule, other) && Run(config, writers, torn, other).Some? ==>
      NeverLossy(config, writers, torn, other)
  }

  /**
    For any number of writers, readers and loads, and any interleaving that can
    happen: it never loses a commit, whatever is edited and loaded, if and only
    if every Set falls into no load and follows a Get that fell into no load
    with nothing committed in between, and no Set and no other load falls into
    a load that ends.
   */
  lemma LosslessExactlyWhenClean(config: ProxyConfig, writers: nat, torn: Torn, schedule: seq<Label>)
    requires Run(config, writers, torn, schedule).Some?
    ensures AlwaysLossless(writers, schedule) <==> Clean(schedule)
  {
    if Clean(schedule) {
      forall config', torn', other | SameSteps(schedule, other) && Run(config', writers, torn', other).Some?
        ensures NeverLossy(config', writers, torn', other)
      {
        SameClean(schedule, other);
        CleanIsNeverLossy(config', writers, torn', other);
      }
    } else {
      UncleanTwinIsLossy(config, writers, torn, schedule);
      TwinIsSame(config, writers, torn, schedule);
    }
  }

  // ----- How many writers -----

  /** Every run leaves the fold of its commits stored. */
  ghost predicate Lossless(writers: nat) {
    forall config, torn, schedule :: Run(config, writers, torn, schedule).Some? ==>
      StoresFold(config, Run(config, writers, torn, schedule).value)
  }

  lemma {:induction false} NoWriterCommits(config: ProxyConfig, torn: Torn, schedule: seq<Label>)
    requires Run(config, 0, torn, schedule).Some?
    ensures var s := Run(config, 0, torn, schedule).value; s.stored == config && s.commits == [] && s.writers == []
  {
    if schedule != [] {
      NoWriterCommits(config, torn, schedule[..|schedule| - 1]);
    }
  }

  /** Where two of the writers stand, while no load is under way. */
  ghost predicate At(s: Option<System>, stored: ProxyConfig, commits: seq<Commit>, first: Writer, second: Writer) {
    && s.Some? && |s.value.writers| >= 2 && !InLoad(s.value)
    && s.value.stored == stored && s.value.commits == commits
    && s.value.writers[0] == first && s.value.writers[1] == second
  }

  /** Two of the writers both get. */
  lemma TwoGets(writers: nat, torn: Torn)
    requires writers >= 2
    ensures At(Run(TORN, writers, torn, [Get(0, FOUND)] + [Get(1, FOUND)]), TORN, [],
               Copied(TORN, FOUND), Copied(TORN, FOUND))
  {
    var none: seq<Label> := [];
    assert At(Run(TORN, writers, torn, none), TORN, [], Idle, Idle);
    Then(TORN, writers, torn, none, Get(0, FOUND));
    assert none + [Get(0, FOUND)] == [Get(0, FOUND)];
    assert At(Run(TORN, writers, torn, [Get(0, FOUND)]), TORN, [], Copied(TORN, FOUND), Idle);
    Then(TORN, writers, torn, [Get(0, FOUND)], Get(1, FOUND));
  }

  /** Both change what they got. */
  lemma TwoChanges(writers: nat, torn: Torn, schedule: seq<Label>)
    requires writers >= 2
    requires At(Run(TORN, writers, torn, schedule), TORN, [], Copied(TORN, FOUND), Copied(TORN, FOUND))
    ensures At(Run(TORN, writers, torn, schedule + [Change(0)] + [Change(1)]), TORN, [],
               Changed(Plain(0, 1), FOUND), Changed(Plain(0, 1), FOUND))
  {
    EditPlain(0, 0);
    var s := Run(TORN, writers, torn, schedule).value;
    Then(TORN, writers, torn, schedule, Change(0));
    var t := Next(s, Change(0), torn(|schedule|));
    assert t == s.(writers := s.writers[0 := Changed(Plain(0, 1), FOUND)]);
    Then(TORN, writers, torn, schedule + [Change(0)], Change(1));
    var u := Next(t, Change(1), torn(|schedule| + 1));
    assert u == t.(writers := t.writers[1 := Changed(Plain(0, 1), FOUND)]);
  }

  /** When both set as well, the first add is gone. */
  lemma TwoSetsLoseAnEdit(writers: nat, torn: Torn) returns (schedule: seq<Label>)
    requires writers >= 2
    ensures Run(TORN, writers, torn, schedule).Some?
    ensures !StoresFold(TORN, Run(TORN, writers, torn, schedule).value)
  {
    schedule := [Get(0, FOUND)] + [Get(1, FOUND)];
    TwoGets(writers, torn);
    TwoChanges(writers, torn, schedule);
    schedule := schedule + [Change(0)] + [Change(1)];
    Then(TORN, writers, torn, schedule, Set(0));
    schedule := schedule + [Set(0)];
    assert At(Run(TORN, writers, torn, schedule), Plain(0, 1), [Edit(FOUND)], Committed, Changed(Plain(0, 1), FOUND));
    Then(TORN, writers, torn, schedule, Set(1));
    schedule := schedule + [Set(1)];
    FoldOfTwo();
  }

  lemma FoldOfTwo()
    ensures Fold(TORN, [Edit(FOUND)] + [Edit(FOUND)]) == Plain(0, 2) != Plain(0, 1)
  {
    EditPlain(0, 0);
    EditPlain(0, 1);
    FoldEdit(TORN, [], FOUND, Plain(0, 1));
    assert [] + [Edit(FOUND)] == [Edit(FOUND)];
    FoldEdit(TORN, [Edit(FOUND)], FOUND, Plain(0, 2));
    PlainIsInjective(0, 1, 0, 2);
  }

  /** No commit is ever lost if and only if there is at most one writer. */
  lemma LosslessExactlyWithOneWriter(writers: nat)
    ensures Lossless(writers) <==> writers <= 1
  {
    if writers <= 1 {
      forall config, torn, schedule | Run(config, writers, torn, schedule).Some?
        ensures StoresFold(config, Run(config, writers, torn, schedule).value)
      {
        if writers == 0 {
          NoWriterCommits(config, torn, schedule);
        } else {
          OneWriterKept(config, torn, schedule);
        }
      }
    } else {
      var schedule := TwoSetsLoseAnEdit(writers, Always(TORN));
    }
  }
}
