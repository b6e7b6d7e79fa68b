/**
  The stored proxy configuration under concurrency (src/config/ConfigSingleton.h):
  getProxyConfig and setProxyConfig take the mutex, each is one step; an edit is
  Get, Change, Set, Resolve, Apply.  A document load assigns the stored value
  without the mutex, from BeginLoad to EndLoad.  While some load is under way
  whoever looks at the stored value may see any value at all, and what another
  assignment and that load leave behind is any value at all.
 */
module SingleWriter {
  import opened Wrappers
  import opened ConfigTypes
  import opened ProxyServer

  /** Where a writer is: in the middle of an edit, of a load, or past its commit. */
  datatype Writer =
    | Idle
    | Copied(copy: ProxyConfig, edit: ServiceEdit)
    | Changed(copy: ProxyConfig, edit: ServiceEdit)
    // Another load or a Set fell into this load.
    | Loading(config: ProxyConfig, raced: bool)
    | Committed
    | Resolved(used: ProxyConfig)

  datatype Commit = Edit(edit: ServiceEdit) | Replace(config: ProxyConfig)

  /** A read, with the number of commits made before it, and whether it fell into a load. */
  datatype Seen = Seen(config: ProxyConfig, commits: nat, inLoad: bool)

  datatype System = System(stored: ProxyConfig, writers: seq<Writer>, commits: seq<Commit>, seen: seq<Seen>)

  datatype Label =
    | Get(w: nat, edit: ServiceEdit)
    | Change(w: nat)
    | Set(w: nat)
    | BeginLoad(w: nat, config: ProxyConfig)
    | EndLoad(w: nat)
    | Resolve(w: nat)
    | Apply(w: nat)
    | Read

  function EditConfig(config: ProxyConfig, edit: ServiceEdit): Option<ProxyConfig> {
    var clusters := EditClusters(config.clusters, edit);
    if clusters.None? then None else Some(config.(clusters := clusters.value))
  }

  predicate InLoad(s: System) {
    exists w :: 0 <= w < |s.writers| && s.writers[w].Loading?
  }

  predicate Enabled(s: System, l: Label) {
    match l
    case Get(w, edit) =>
      && w < |s.writers| && s.writers[w].Idle?
      && (edit.operation == "add" || edit.operation == "delete")
    case Change(w) => w < |s.writers| && s.writers[w].Copied?
    case Set(w) => w < |s.writers| && s.writers[w].Changed?
    case BeginLoad(w, _) => w < |s.writers| && s.writers[w].Idle?
    case EndLoad(w) => w < |s.writers| && s.writers[w].Loading?
    case Resolve(w) => w < |s.writers| && s.writers[w].Committed?
    case Apply(w) => w < |s.writers| && s.writers[w].Resolved?
    case Read => true
  }

  /** What the stored value looks like now; `torn` is what it looks like in the middle of a load. */
  function SeenNow(s: System, torn: ProxyConfig): ProxyConfig {
    if InLoad(s) then torn else s.stored
  }

  /** Every load under way now races. */
  function Raced(writers: seq<Writer>): seq<Writer> {
    seq(|writers|, w requires 0 <= w < |writers| =>
      if writers[w].Loading? then Loading(writers[w].config, true) else writers[w])
  }

  /** `torn` is what this step sees or leaves behind when it races. */
  function Next(s: System, l: Label, torn: ProxyConfig): System
    requires Enabled(s, l)
  {
    match l
    case Get(w, edit) => s.(writers := s.writers[w := Copied(SeenNow(s, torn), edit)])
    case Change(w) =>
      var config := EditConfig(s.writers[w].copy, s.writers[w].edit);
      s.(writers := s.writers[w := if config.None? then Idle else Changed(config.value, s.writers[w].edit)])
    case Set(w) =>
      s.(stored := if InLoad(s) then torn else s.writers[w].copy, commits := s.commits + [Edit(s.writers[w].edit)],
         writers := Raced(s.writers)[w := Committed])
    case BeginLoad(w, config) => s.(writers := Raced(s.writers)[w := Loading(config, InLoad(s))])
    case EndLoad(w) =>
      s.(stored := if s.writers[w].raced then torn else s.writers[w].config,
         commits := s.commits + [Replace(s.writers[w].config)], writers := s.writers[w := Committed])
    case Resolve(w) => s.(writers := s.writers[w := Resolved(SeenNow(s, torn))])
    case Apply(w) => s.(writers := s.writers[w := Idle])
    case Read => s.(seen := s.seen + [Seen(SeenNow(s, torn), |s.commits|, InLoad(s))])
  }

  function Start(config: ProxyConfig, writers: nat): System {
    System(config, seq(writers, _ => Idle), [], [])
  }

  /** What is torn at each step of a schedule. */
  type Torn = nat -> ProxyConfig

  /** None: some label of the schedule is not enabled when its turn comes. */
  function Run(config: ProxyConfig, writers: nat, torn: Torn, schedule: seq<Label>): Option<System> {
    if schedule == [] then Some(Start(config, writers))
    else
      var n := |schedule| - 1;
      var before := Run(config, writers, torn, schedule[..n]);
      if before.None? || !Enabled(before.value, schedule[n]) then None
      else Some(Next(before.value, schedule[n], torn(n)))
  }

  function Fold(config: ProxyConfig, commits: seq<Commit>): ProxyConfig {
    if commits == [] then config
    else
      var before := Fold(config, commits[..|commits| - 1]);
      match commits[|commits| - 1]
      case Replace(c) => c
      case Edit(edit) => if EditConfig(before, edit).None? then before else EditConfig(before, edit).value
  }

  // ----- One writer -----

  /** What one writer holds is in step with what is stored. */
  ghost predicate OneWriter(config: ProxyConfig, s: System) {
    && |s.writers| == 1
    && s.stored == Fold(config, s.commits)
    && match s.writers[0]
       case Copied(copy, _) => copy == s.stored
       case Changed(copy, edit) => EditConfig(s.stored, edit) == Some(copy)
       case Loading(_, raced) => !raced
       case Resolved(used) => used == s.stored
       case _ => true
  }

  lemma FoldEdit(config: ProxyConfig, commits: seq<Commit>, edit: ServiceEdit, copy: ProxyConfig)
    requires EditConfig(Fold(config, commits), edit) == Some(copy)
    ensures Fold(config, commits + [Edit(edit)]) == copy
  {
    assert (commits + [Edit(edit)])[..|commits|] == commits;
  }

  lemma FoldReplace(config: ProxyConfig, commits: seq<Commit>, document: ProxyConfig)
    ensures Fold(config, commits + [Replace(document)]) == document
  {
  }

  lemma StepKeepsOneWriter(config: ProxyConfig, torn: ProxyConfig, s: System, l: Label)
    requires OneWriter(config, s) && Enabled(s, l)
    ensures OneWriter(config, Next(s, l, torn))
  {
    if l.Set? {
      FoldEdit(config, s.commits, s.writers[0].edit, s.writers[0].copy);
    } else if l.EndLoad? {
      FoldReplace(config, s.commits, s.writers[0].config);
    }
  }

  lemma {:induction false} OneWriterKept(config: ProxyConfig, torn: Torn, schedule: seq<Label>)
    requires Run(config, 1, torn, schedule).Some?
    ensures OneWriter(config, Run(config, 1, torn, schedule).value)
  {
    if schedule != [] {
      var n := |schedule| - 1;
      OneWriterKept(config, torn, schedule[..n]);
      StepKeepsOneWriter(config, torn(n), Run(config, 1, torn, schedule[..n]).value, schedule[n]);
    }
  }

  /** The read fell into a load, or it is the fold of the commits made before it. */
  ghost predicate Linear(config: ProxyConfig, commits: seq<Commit>, r: Seen) {
    r.commits <= |commits| && (r.inLoad || r.config == Fold(config, commits[..r.commits]))
  }

  ghost predicate AllLinear(config: ProxyConfig, s: System) {
    forall i :: 0 <= i < |s.seen| ==> Linear(config, s.commits, s.seen[i])
  }

  /** Later reads never see fewer commits. */
  ghost predicate Monotone(seen: seq<Seen>) {
    forall i, j :: 0 <= i < j < |seen| ==> seen[i].commits <= seen[j].commits
  }

  lemma LinearStays(config: ProxyConfig, commits: seq<Commit>, c: Commit, r: Seen)
    requires Linear(config, commits, r)
    ensures Linear(config, commits + [c], r)
  {
    assert (commits + [c])[..r.commits] == commits[..r.commits];
  }

  lemma ReadIsLinear(config: ProxyConfig, torn: ProxyConfig, s: System)
    requires s.stored == Fold(config, s.commits)
    ensures Linear(config, s.commits, Seen(SeenNow(s, torn), |s.commits|, InLoad(s)))
  {
    assert s.commits[..|s.commits|] == s.commits;
  }

  /** One read, across one step. */
  lemma StepKeepsRead(config: ProxyConfig, torn: ProxyConfig, s: System, l: Label, i: nat)
    requires s.stored == Fold(config, s.commits) && AllLinear(config, s) && Enabled(s, l)
    requires i < |Next(s, l, torn).seen|
    ensures Linear(config, Next(s, l, torn).commits, Next(s, l, torn).seen[i])
  {
    if i < |s.seen| {
      assert Linear(config, s.commits, s.seen[i]);
      if l.Set? {
        LinearStays(config, s.commits, Edit(s.writers[l.w].edit), s.seen[i]);
      } else if l.EndLoad? {
        LinearStays(config, s.commits, Replace(s.writers[l.w].config), s.seen[i]);
      }
    } else {
      ReadIsLinear(config, torn, s);
    }
  }

  lemma StepKeepsLinear(config: ProxyConfig, torn: ProxyConfig, s: System, l: Label)
    requires s.stored == Fold(config, s.commits) && AllLinear(config, s) && Enabled(s, l)
    ensures AllLinear(config, Next(s, l, torn))
  {
    var t := Next(s, l, torn);
    forall i | 0 <= i < |t.seen|
      ensures Linear(config, t.commits, t.seen[i])
    {
      StepKeepsRead(config, torn, s, l, i);
    }
  }

  lemma StepKeepsMonotone(config: ProxyConfig, torn: ProxyConfig, s: System, l: Label)
    requires AllLinear(config, s) && Monotone(s.seen) && Enabled(s, l)
    ensures Monotone(Next(s, l, torn).seen)
  {
    forall i | 0 <= i < |s.seen|
      ensures s.seen[i].commits <= |s.commits|
    {
      assert Linear(config, s.commits, s.seen[i]);
    }
  }

  /**
    With one writer and any number of readers, interleaved in any way: what is
    stored is the fold of all the commits, so none is lost; every read outside
    a load is the fold of exactly the commits made before it, and later reads
    never see fewer commits; a resolution works on what its own request committed.
   */
  lemma {:induction false} ReadsAreLinear(config: ProxyConfig, torn: Torn, schedule: seq<Label>)
    requires Run(config, 1, torn, schedule).Some?
    ensures var s := Run(config, 1, torn, schedule).value;
            AllLinear(config, s) && Monotone(s.seen) && OneWriter(config, s)
  {
    OneWriterKept(config, torn, schedule);
    if schedule != [] {
      var n := |schedule| - 1;
      var s := Run(config, 1, torn, schedule[..n]).value;
      ReadsAreLinear(config, torn, schedule[..n]);
      StepKeepsLinear(config, torn(n), s, schedule[n]);
      StepKeepsMonotone(config, torn(n), s, schedule[n]);
    }
  }

  // ----- The load does not take the mutex -----

  /** No read falls into the middle of a document load. */
  ghost predicate NoReadInLoad(s: System) {
    forall i :: 0 <= i < |s.seen| ==> !s.seen[i].inLoad
  }

  /** The reads happened at the same points. */
  ghost predicate SamePoints(seen: seq<Seen>, seen': seq<Seen>) {
    |seen| == |seen'|
    && forall i :: 0 <= i < |seen| ==> seen[i].inLoad == seen'[i].inLoad && seen[i].commits == seen'[i].commits
  }

  lemma TornStep(config: ProxyConfig, torn: ProxyConfig, torn': ProxyConfig, s: System, s': System, l: Label)
    requires OneWriter(config, s) && Enabled(s, l) && SamePoints(s.seen, s'.seen)
    requires s'.stored == s.stored && s'.writers == s.writers && s'.commits == s.commits
    ensures Enabled(s', l)
    ensures var t, t' := Next(s, l, torn), Next(s', l, torn');
            t'.stored == t.stored && t'.writers == t.writers && t'.commits == t.commits && SamePoints(t.seen, t'.seen)
  {
  }

  lemma {:induction false} TornDoesNotSteer(config: ProxyConfig, torn: Torn, torn': Torn, schedule: seq<Label>)
    requires Run(config, 1, torn, schedule).Some?
    ensures Run(config, 1, torn', schedule).Some?
    ensures var s, s' := Run(config, 1, torn, schedule).value, Run(config, 1, torn', schedule).value;
            && s'.stored == s.stored && s'.writers == s.writers && s'.commits == s.commits
            && SamePoints(s.seen, s'.seen)
  {
    if schedule != [] {
      var n := |schedule| - 1;
      TornDoesNotSteer(config, torn, torn', schedule[..n]);
      OneWriterKept(config, torn, schedule[..n]);
      TornStep(config, torn(n), torn'(n), Run(config, 1, torn, schedule[..n]).value,
               Run(config, 1, torn', schedule[..n]).value, schedule[n]);
    }
  }

  /** A bound on the number of clusters in every fold of a prefix. */
  function Bound(config: ProxyConfig, commits: seq<Commit>): (b: nat)
    ensures forall k :: 0 <= k <= |commits| ==> |Fold(config, commits[..k]).clusters| <= b
  {
    if commits == [] then |config.clusters|
    else
      var init := commits[..|commits| - 1];
      var b := Bound(config, init);
      assert commits[..|commits|] == commits;
      assert forall k :: 0 <= k <= |init| ==> commits[..k] == init[..k];
      if |Fold(config, commits).clusters| <= b then b else |Fold(config, commits).clusters|
  }

  function Always(config: ProxyConfig): Torn {
    _ => config
  }

  /** Reads in a load show what is torn. */
  lemma {:induction false} TornReadIsSeen(config: ProxyConfig, torn: ProxyConfig, schedule: seq<Label>, i: nat)
    requires Run(config, 1, Always(torn), schedule).Some?
    requires i < |Run(config, 1, Always(torn), schedule).value.seen|
    requires Run(config, 1, Always(torn), schedule).value.seen[i].inLoad
    ensures Run(config, 1, Always(torn), schedule).value.seen[i].config == torn
  {
    var init := schedule[..|schedule| - 1];
    if i < |Run(config, 1, Always(torn), init).value.seen| {
      TornReadIsSeen(config, torn, init, i);
    }
  }

  ghost predicate IsPrefixFold(config: ProxyConfig, commits: seq<Commit>, seen: ProxyConfig) {
    exists k :: 0 <= k <= |commits| && seen == Fold(config, commits[..k])
  }

  /** Every read is the fold of some prefix of the commits. */
  ghost predicate EveryReadIsAPrefix(config: ProxyConfig, s: System) {
    forall i :: 0 <= i < |s.seen| ==> IsPrefixFold(config, s.commits, s.seen[i].config)
  }

  lemma LinearReadsArePrefixes(config: ProxyConfig, s: System)
    requires AllLinear(config, s) && NoReadInLoad(s)
    ensures EveryReadIsAPrefix(config, s)
  {
    forall i | 0 <= i < |s.seen|
      ensures IsPrefixFold(config, s.commits, s.seen[i].config)
    {
      assert Linear(config, s.commits, s.seen[i]);
    }
  }

  /** A read in a load can show what no fold of a prefix is. */
  lemma SomeReadIsNoPrefix(config: ProxyConfig, torn: Torn, schedule: seq<Label>) returns (torn': Torn)
    requires Run(config, 1, torn, schedule).Some? && !NoReadInLoad(Run(config, 1, torn, schedule).value)
    ensures Run(config, 1, torn', schedule).Some?
    ensures !EveryReadIsAPrefix(config, Run(config, 1, torn', schedule).value)
  {
    var s := Run(config, 1, torn, schedule).value;
    var b := Bound(config, s.commits);
    var large := ProxyConfig(seq(b + 1, _ => Cluster("", [])), []);
    torn' := Always(large);
    TornDoesNotSteer(config, torn, torn', schedule);
    var i :| 0 <= i < |s.seen| && s.seen[i].inLoad;
    TornReadIsSeen(config, large, schedule, i);
    assert !IsPrefixFold(config, s.commits, large);
  }

  /**
    The mutex keeps every read a fold of committed edits, whatever a torn read
    yields, exactly when no read falls into the middle of a document load.
   */
  lemma ReadsArePrefixesExactlyOutsideLoads(config: ProxyConfig, torn: Torn, schedule: seq<Label>)
    requires Run(config, 1, torn, schedule).Some?
    ensures NoReadInLoad(Run(config, 1, torn, schedule).value) <==>
            forall torn' :: Run(config, 1, torn', schedule).Some? &&
                            EveryReadIsAPrefix(config, Run(config, 1, torn', schedule).value)
  {
    if NoReadInLoad(Run(config, 1, torn, schedule).value) {
      forall torn'
        ensures Run(config, 1, torn', schedule).Some?
        ensures EveryReadIsAPrefix(config, Run(config, 1, torn', schedule).value)
      {
        TornDoesNotSteer(config, torn, torn', schedule);
        ReadsAreLinear(config, torn', schedule);
        LinearReadsArePrefixes(config, Run(config, 1, torn', schedule).value);
      }
    } else {
      var torn' := SomeReadIsNoPrefix(config, torn, schedule);
    }
  }
}
