/**
  The parsed document a loader walks over: an element tree, the sibling cursor
  (FirstChildElement / NextSiblingElement) and the text accessors.

  How the XML library turns text into integers, and prints an element back, is
  not visible in the repository: it is the parameter Reader.
 */
module Xml {
  import opened Wrappers

  datatype Element = Element(tag: string, attrs: map<string, string>, text: Option<string>, children: seq<Element>)

  datatype XmlError =
    | NoTextNode
    | CanNotConvertText
    | ParsingElement
    | FileReadError
    | EmptyDocument
    | Malformed(code: int)

  /**
    How one step of a loader ends.  Go: control passes on.  Fail: the function
    returns that code.  Throws: an exception leaves it.  Undefined: a null
    pointer is made into a string.  Hangs: the loop never advances again.
   */
  datatype Status = Go | Fail(code: XmlError) | Throws | Undefined | Hangs

  /** QueryIntText's conversion, std::stoi and XMLPrinter, as functions of their input. */
  datatype Reader = Reader(toInt: string -> Option<int>, stoi: string -> Option<int>, markup: Element -> string)

  // ----- Elements of one tag, in document order -----

  function TaggedUpTo(cs: seq<Element>, tag: string, n: nat): seq<Element>
    requires n <= |cs|
  {
    if n == 0 then []
    else TaggedUpTo(cs, tag, n - 1) + if cs[n - 1].tag == tag then [cs[n - 1]] else []
  }

  function Tagged(cs: seq<Element>, tag: string): seq<Element> {
    TaggedUpTo(cs, tag, |cs|)
  }

  function FirstChild(e: Element, tag: string): Option<Element> {
    var all := Tagged(e.children, tag);
    if all == [] then None else Some(all[0])
  }

  /** These are the item elements of the parent's first list element, in document order; none without such a list. */
  ghost predicate Under(parent: Element, list: string, item: string, es: seq<Element>) {
    if FirstChild(parent, list).None? then es == [] else es == Tagged(FirstChild(parent, list).value.children, item)
  }

  function Attribute(e: Element, name: string): Option<string> {
    if name in e.attrs then Some(e.attrs[name]) else None
  }

  function SafeText(e: Option<Element>): string {
    if e.Some? && e.value.text.Some? then e.value.text.value else ""
  }

  function ChildText(e: Element, tag: string): string {
    SafeText(FirstChild(e, tag))
  }

  function AttributeOrEmpty(e: Element, name: string): string {
    if name in e.attrs then e.attrs[name] else ""
  }

  /** QueryIntText's return code. */
  function QueryInt(e: Element, reader: Reader): Status {
    if e.text.None? then Fail(NoTextNode)
    else if reader.toInt(e.text.value).None? then Fail(CanNotConvertText)
    else Go
  }

  /** The value QueryIntText stores; only read where QueryInt says Go. */
  function IntText(e: Element, reader: Reader): int {
    if e.text.Some? && reader.toInt(e.text.value).Some? then reader.toInt(e.text.value).value else 0
  }

  lemma {:induction false} TaggedGrows(cs: seq<Element>, tag: string, i: nat, j: nat)
    requires i <= j <= |cs|
    ensures TaggedUpTo(cs, tag, i) <= TaggedUpTo(cs, tag, j)
  {
    if i < j {
      TaggedGrows(cs, tag, i, j - 1);
    }
  }

  /** The elements Tagged returns are exactly the children carrying the tag. */
  lemma {:induction false} TaggedMembers(cs: seq<Element>, tag: string, n: nat)
    requires n <= |cs|
    ensures forall e :: e in TaggedUpTo(cs, tag, n) <==> e in cs[..n] && e.tag == tag
  {
    if n > 0 {
      TaggedMembers(cs, tag, n - 1);
      assert cs[..n] == cs[..n - 1] + [cs[n - 1]];
    }
  }

  /**
    The sibling cursor stands on the n-th child with the tag, at position pos;
    pos == |cs| is the null cursor, past all of them.
   */
  ghost predicate On(cs: seq<Element>, tag: string, pos: nat, n: nat) {
    && pos <= |cs|
    && n == |TaggedUpTo(cs, tag, pos)|
    && if pos == |cs| then n == |Tagged(cs, tag)| else n < |Tagged(cs, tag)| && Tagged(cs, tag)[n] == cs[pos]
  }

  method FirstElement(cs: seq<Element>, tag: string) returns (pos: nat)
    ensures On(cs, tag, pos, 0)
  {
    pos := 0;
    while pos < |cs| && cs[pos].tag != tag
      invariant pos <= |cs| && TaggedUpTo(cs, tag, pos) == []
    {
      pos := pos + 1;
    }
    if pos < |cs| {
      TaggedGrows(cs, tag, pos + 1, |cs|);
    }
  }

  method NextSibling(cs: seq<Element>, tag: string, current: nat, ghost n: nat) returns (pos: nat)
    requires current < |cs| && On(cs, tag, current, n)
    ensures current < pos && On(cs, tag, pos, n + 1)
  {
    TaggedMembers(cs, tag, |cs|);
    assert cs[current].tag == tag;
    pos := current + 1;
    while pos < |cs| && cs[pos].tag != tag
      invariant current < pos <= |cs| && |TaggedUpTo(cs, tag, pos)| == n + 1
    {
      pos := pos + 1;
    }
    if pos < |cs| {
      TaggedGrows(cs, tag, pos + 1, |cs|);
    }
  }

  // ----- The first check that stops a loader -----

  function FirstStop(checks: seq<Status>): Status {
    if checks == [] then Go
    else
      var before := FirstStop(checks[..|checks| - 1]);
      if before.Go? then checks[|checks| - 1] else before
  }

  lemma {:induction false} FirstStopAppend(a: seq<Status>, b: seq<Status>)
    ensures FirstStop(a + b) == if FirstStop(a).Go? then FirstStop(b) else FirstStop(a)
  {
    if b == [] {
      assert a + b == a;
    } else {
      FirstStopAppend(a, b[..|b| - 1]);
      assert (a + b)[..|a + b| - 1] == a + b[..|b| - 1];
    }
  }

  /** FirstStop is the first check, in order, that does not let control pass on. */
  lemma {:induction false} FirstStopIsFirst(checks: seq<Status>)
    ensures FirstStop(checks).Go? <==> forall k :: 0 <= k < |checks| ==> checks[k].Go?
    ensures !FirstStop(checks).Go? ==>
              exists k :: 0 <= k < |checks| && checks[k] == FirstStop(checks)
                          && forall j :: 0 <= j < k ==> checks[j].Go?
  {
    if checks != [] {
      var init := checks[..|checks| - 1];
      FirstStopIsFirst(init);
      if !FirstStop(init).Go? {
        var k :| 0 <= k < |init| && init[k] == FirstStop(init) && forall j :: 0 <= j < k ==> init[j].Go?;
        assert checks[k] == init[k] && forall j :: 0 <= j < k ==> checks[j] == init[j];
      } else {
        assert forall k :: 0 <= k < |init| ==> checks[k] == init[k];
        if !FirstStop(checks).Go? {
          assert checks[|init|] == FirstStop(checks);
        }
      }
    }
  }

  /** A loop that appends the element at n to the first n elements. */
  lemma TakeOneMore<T>(s: seq<T>, n: nat)
    requires n < |s|
    ensures s[..n] + [s[n]] == s[..n + 1]
  {
  }

  function Concat<T>(ss: seq<seq<T>>): seq<T> {
    if ss == [] then [] else Concat(ss[..|ss| - 1]) + ss[|ss| - 1]
  }

  /** One more check after n that let control pass. */
  lemma StopAt(checks: seq<Status>, n: nat)
    requires n < |checks| && FirstStop(checks[..n]).Go?
    ensures FirstStop(checks[..n + 1]) == checks[n]
    ensures !checks[n].Go? ==> FirstStop(checks) == checks[n]
  {
    assert checks[..n + 1][..n] == checks[..n];
    assert checks == checks[..n + 1] + checks[n + 1..];
    FirstStopAppend(checks[..n + 1], checks[n + 1..]);
  }

  /** The first check that does not let control pass is where the loader stops. */
  lemma FirstStopAt(checks: seq<Status>, k: nat)
    requires k < |checks| && !checks[k].Go? && forall i :: 0 <= i < k ==> checks[i].Go?
    ensures FirstStop(checks) == checks[k]
  {
    FirstStopIsFirst(checks[..k]);
    StopAt(checks, k);
  }

  /** Some check is this one, and every check before it lets control pass. */
  ghost predicate StopsWith(checks: seq<Status>, st: Status) {
    exists k :: 0 <= k < |checks| && checks[k] == st && forall i :: 0 <= i < k ==> checks[i].Go?
  }

  lemma StopsWithExactly(checks: seq<Status>, st: Status)
    requires !st.Go?
    ensures FirstStop(checks) == st <==> StopsWith(checks, st)
  {
    FirstStopIsFirst(checks);
    if k :| 0 <= k < |checks| && checks[k] == st && forall i :: 0 <= i < k ==> checks[i].Go? {
      FirstStopAt(checks, k);
    }
  }

  /** One more group of checks after n groups that let control pass. */
  lemma {:induction false} StopIn(groups: seq<seq<Status>>, n: nat)
    requires n < |groups| && FirstStop(Concat(groups[..n])).Go?
    ensures FirstStop(Concat(groups[..n + 1])) == FirstStop(groups[n])
    ensures !FirstStop(groups[n]).Go? ==> FirstStop(Concat(groups)) == FirstStop(groups[n])
    decreases |groups| - n
  {
    assert groups[..n + 1][..n] == groups[..n];
    FirstStopAppend(Concat(groups[..n]), groups[n]);
    if !FirstStop(groups[n]).Go? {
      StopStays(groups, n + 1);
    }
  }

  lemma {:induction false} StopStays(groups: seq<seq<Status>>, n: nat)
    requires n <= |groups| && !FirstStop(Concat(groups[..n])).Go?
    ensures FirstStop(Concat(groups)) == FirstStop(Concat(groups[..n]))
    decreases |groups| - n
  {
    if n == |groups| {
      assert groups[..n] == groups;
    } else {
      assert groups[..n + 1][..n] == groups[..n];
      FirstStopAppend(Concat(groups[..n]), groups[n]);
      StopStays(groups, n + 1);
    }
  }

  lemma {:induction false} FirstStopConcat(ss: seq<seq<Status>>)
    ensures FirstStop(Concat(ss)).Go? <==> forall k :: 0 <= k < |ss| ==> FirstStop(ss[k]).Go?
  {
    if ss != [] {
      var init := ss[..|ss| - 1];
      FirstStopConcat(init);
      FirstStopAppend(Concat(init), ss[|ss| - 1]);
      assert forall k :: 0 <= k < |init| ==> ss[k] == init[k];
    }
  }

  /** The first stop of a concatenation is the first stop of the groups' first stops. */
  lemma {:induction false} FirstStopOfFirstStops(groups: seq<seq<Status>>, outcomes: seq<Status>)
    requires |outcomes| == |groups| && forall i :: 0 <= i < |groups| ==> outcomes[i] == FirstStop(groups[i])
    ensures FirstStop(Concat(groups)) == FirstStop(outcomes)
  {
    if groups != [] {
      var n := |groups| - 1;
      FirstStopOfFirstStops(groups[..n], outcomes[..n]);
      FirstStopAppend(Concat(groups[..n]), groups[n]);
    }
  }

  // ----- A loop over elements that collects items until some group of checks stops it -----

  /** These are the first items, and nothing has stopped the loop on them. */
  ghost predicate Collected<T>(groups: seq<seq<Status>>, target: seq<T>, items: seq<T>) {
    && |items| <= |target| == |groups| && items == target[..|items|]
    && FirstStop(Concat(groups[..|items|])).Go?
  }

  /** One more element: it stops the loop with the loader's status, or its item is collected. */
  lemma CollectOneMore<T>(groups: seq<seq<Status>>, target: seq<T>, items: seq<T>)
    requires Collected(groups, target, items) && |items| < |groups|
    ensures var st := FirstStop(groups[|items|]);
            if st.Go? then Collected(groups, target, items + [target[|items|]]) else FirstStop(Concat(groups)) == st
  {
    StopIn(groups, |items|);
    TakeOneMore(target, |items|);
  }

  lemma CollectedAll<T>(groups: seq<seq<Status>>, target: seq<T>, items: seq<T>)
    requires Collected(groups, target, items) && |items| == |groups|
    ensures FirstStop(Concat(groups)).Go? && items == target
  {
    assert groups[..|items|] == groups && target[..|items|] == target;
  }
}
