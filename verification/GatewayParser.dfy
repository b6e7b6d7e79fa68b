/**
  LoadApiGatewayConfigurations (src/config/ApiGatewayConfigParser.cpp): three
  nested cursor loops, of which the outer one does not advance past an
  end-point without services.
 */
module GatewayParser {
  import opened Wrappers
  import opened Xml
  import opened ConfigTypes

  // ----- What a document says -----

  function EndPointsOf(root: Element): seq<Element> {
    var config := FirstChild(root, "api-gateway-server-config");
    if config.None? then [] else Tagged(config.value.children, "end-point")
  }

  function ServicesOf(endPoint: Element): seq<Element> {
    var services := FirstChild(endPoint, "services");
    if services.None? then [] else Tagged(services.value.children, "service")
  }

  /** std::stoi of a child's text, or the junk when there is no such child. */
  function PortFrom(e: Element, reader: Reader, junk: int): int {
    var port := FirstChild(e, "port");
    if port.Some? && port.value.text.Some? && reader.stoi(port.value.text.value).Some?
    then reader.stoi(port.value.text.value).value else junk
  }

  function UriFrom(e: Element, reader: Reader, junk: int): Uri {
    Uri(AttributeOrEmpty(e, "path"), ChildText(e, "host"), PortFrom(e, reader, junk))
  }

  function UrisFrom(es: seq<Element>, reader: Reader, junk: GatewayServiceJunk): seq<Uri> {
    seq(|es|, i requires 0 <= i < |es| => UriFrom(es[i], reader, junk.uriPort(i)))
  }

  function ServiceFrom(e: Element, reader: Reader, junk: GatewayServiceJunk): GatewayService {
    GatewayService(AttributeOrEmpty(e, "hostname"), UrisFrom(Tagged(e.children, "uri"), reader, junk))
  }

  function ServicesFrom(es: seq<Element>, reader: Reader, junk: GatewayEndPointJunk): seq<GatewayService> {
    seq(|es|, i requires 0 <= i < |es| => ServiceFrom(es[i], reader, junk.service(i)))
  }

  function EndPointFrom(e: Element, reader: Reader, junk: GatewayEndPointJunk): GatewayEndPoint {
    GatewayEndPoint(AttributeOrEmpty(e, "name"), PortFrom(e, reader, junk.port), ChildText(e, "pipeline"),
                    ServicesFrom(ServicesOf(e), reader, junk))
  }

  function EndPointsFrom(es: seq<Element>, reader: Reader, junk: nat -> GatewayEndPointJunk): seq<GatewayEndPoint> {
    seq(|es|, i requires 0 <= i < |es| => EndPointFrom(es[i], reader, junk(i)))
  }

  // ----- The checks, in the order the loops meet them -----

  /** Assigning a null attribute to a string. */
  function AttributeCheck(e: Element, name: string): Status {
    if Attribute(e, name).None? then Undefined else Go
  }

  /** Assigning the null text of a present child to a string. */
  function TextCheck(e: Element, tag: string): Status {
    var child := FirstChild(e, tag);
    if child.Some? && child.value.text.None? then Undefined else Go
  }

  /** std::stoi of a present child's text. */
  function PortCheck(e: Element, reader: Reader): Status {
    var port := FirstChild(e, "port");
    if port.None? then Go
    else if port.value.text.None? then Undefined
    else if reader.stoi(port.value.text.value).None? then Throws
    else Go
  }

  /** Path, host and port, in this order. */
  function UriCheck(e: Element, reader: Reader): Status {
    if !AttributeCheck(e, "path").Go? then AttributeCheck(e, "path")
    else if !TextCheck(e, "host").Go? then TextCheck(e, "host")
    else PortCheck(e, reader)
  }

  function UriChecks(es: seq<Element>, reader: Reader): seq<Status> {
    seq(|es|, i requires 0 <= i < |es| => UriCheck(es[i], reader))
  }

  function ServiceChecks(e: Element, reader: Reader): seq<Status> {
    [AttributeCheck(e, "hostname")] + UriChecks(Tagged(e.children, "uri"), reader)
  }

  function ServiceGroups(es: seq<Element>, reader: Reader): seq<seq<Status>> {
    seq(|es|, i requires 0 <= i < |es| => ServiceChecks(es[i], reader))
  }

  /** Name, port and pipeline, in this order. */
  function HeaderStatus(e: Element, reader: Reader): Status {
    if !AttributeCheck(e, "name").Go? then AttributeCheck(e, "name")
    else if !PortCheck(e, reader).Go? then PortCheck(e, reader)
    else TextCheck(e, "pipeline")
  }

  function EndPointChecks(e: Element, reader: Reader): seq<Status> {
    [HeaderStatus(e, reader)] + [if FirstChild(e, "services").Some? then Go else Hangs]
    + Concat(ServiceGroups(ServicesOf(e), reader))
  }

  function EndPointGroups(es: seq<Element>, reader: Reader): seq<seq<Status>> {
    seq(|es|, i requires 0 <= i < |es| => EndPointChecks(es[i], reader))
  }

  function Checks(root: Element, reader: Reader): seq<Status> {
    [if FirstChild(root, "api-gateway-server-config").Some? then Go else Fail(ParsingElement)]
    + Concat(EndPointGroups(EndPointsOf(root), reader))
  }

  // ----- The loops -----

  method LoadUri(e: Element, reader: Reader, junk: int) returns (st: Status, uri: Uri)
    ensures st == UriCheck(e, reader)
    ensures st.Go? ==> uri == UriFrom(e, reader, junk)
  {
    uri := Uri("", "", junk);
    st := Undefined;
    var path := Attribute(e, "path");
    if path.None? {
      return;
    }
    uri := uri.(path := path.value);
    var host := FirstChild(e, "host");
    if host.Some? {
      if host.value.text.None? {
        return;
      }
      uri := uri.(host := host.value.text.value);
    }
    var portElement := FirstChild(e, "port");
    if portElement.Some? {
      if portElement.value.text.None? {
        return;
      }
      var port := reader.stoi(portElement.value.text.value);
      if port.None? {
        st := Throws;
        return;
      }
      uri := uri.(port := port.value);
    }
    st := Go;
  }

  /** The n-th uri element, at the cursor. */
  method LoadUriAt(cs: seq<Element>, pos: nat, n: nat, reader: Reader, junk: GatewayServiceJunk)
    returns (st: Status, uri: Uri)
    requires pos < |cs| && On(cs, "uri", pos, n)
    ensures st == UriChecks(Tagged(cs, "uri"), reader)[n]
    ensures st.Go? ==> uri == UrisFrom(Tagged(cs, "uri"), reader, junk)[n]
  {
    st, uri := LoadUri(cs[pos], reader, junk.uriPort(n));
  }

  method LoadUris(cs: seq<Element>, reader: Reader, junk: GatewayServiceJunk) returns (st: Status, uris: seq<Uri>)
    ensures st == FirstStop(UriChecks(Tagged(cs, "uri"), reader))
    ensures st.Go? ==> uris == UrisFrom(Tagged(cs, "uri"), reader, junk)
  {
    ghost var all := Tagged(cs, "uri");
    ghost var checks := UriChecks(all, reader);
    ghost var target := UrisFrom(all, reader, junk);
    uris := [];
    var pos := FirstElement(cs, "uri");
    while pos < |cs|
      invariant On(cs, "uri", pos, |uris|)
      invariant |uris| <= |all| && uris == target[..|uris|]
      invariant FirstStop(checks[..|uris|]).Go?
    {
      var uri;
      st, uri := LoadUriAt(cs, pos, |uris|, reader, junk);
      StopAt(checks, |uris|);
      TakeOneMore(target, |uris|);
      if !st.Go? {
        return;
      }
      uris := uris + [uri];
      pos := NextSibling(cs, "uri", pos, |uris| - 1);
    }
    st := Go;
    assert checks[..|uris|] == checks;
  }

  method LoadService(e: Element, reader: Reader, junk: GatewayServiceJunk) returns (st: Status, service: GatewayService)
    ensures st == FirstStop(ServiceChecks(e, reader))
    ensures st.Go? ==> service == ServiceFrom(e, reader, junk)
  {
    FirstStopAppend([AttributeCheck(e, "hostname")], UriChecks(Tagged(e.children, "uri"), reader));
    FirstStopAppend([], [AttributeCheck(e, "hostname")]);
    service := GatewayService("", []);
    var hostname := Attribute(e, "hostname");
    if hostname.None? {
      st := Undefined;
      return;
    }
    var uris;
    st, uris := LoadUris(e.children, reader, junk);
    service := GatewayService(hostname.value, uris);
  }

  /** The n-th service element, at the cursor. */
  method LoadServiceAt(cs: seq<Element>, pos: nat, n: nat, reader: Reader, junk: GatewayEndPointJunk)
    returns (st: Status, service: GatewayService)
    requires pos < |cs| && On(cs, "service", pos, n)
    ensures st == FirstStop(ServiceGroups(Tagged(cs, "service"), reader)[n])
    ensures st.Go? ==> service == ServicesFrom(Tagged(cs, "service"), reader, junk)[n]
  {
    st, service := LoadService(cs[pos], reader, junk.service(n));
  }

  method LoadServices(cs: seq<Element>, reader: Reader, junk: GatewayEndPointJunk)
    returns (st: Status, services: seq<GatewayService>)
    ensures st == FirstStop(Concat(ServiceGroups(Tagged(cs, "service"), reader)))
    ensures st.Go? ==> services == ServicesFrom(Tagged(cs, "service"), reader, junk)
  {
    ghost var groups := ServiceGroups(Tagged(cs, "service"), reader);
    ghost var target := ServicesFrom(Tagged(cs, "service"), reader, junk);
    services := [];
    var pos := FirstElement(cs, "service");
    while pos < |cs|
      invariant On(cs, "service", pos, |services|)
      invariant Collected(groups, target, services)
    {
      var service;
      st, service := LoadServiceAt(cs, pos, |services|, reader, junk);
      CollectOneMore(groups, target, services);
      if !st.Go? {
        return;
      }
      services := services + [service];
      pos := NextSibling(cs, "service", pos, |services| - 1);
    }
    st := Go;
    CollectedAll(groups, target, services);
  }

  method LoadEndPoint(e: Element, reader: Reader, junk: GatewayEndPointJunk)
    returns (st: Status, endPoint: GatewayEndPoint)
    ensures st == FirstStop(EndPointChecks(e, reader))
    ensures st.Go? ==> endPoint == EndPointFrom(e, reader, junk)
  {
    EndPointStatus(e, reader);
    endPoint := GatewayEndPoint("", junk.port, "", []);
    st := Undefined;
    var name := Attribute(e, "name");
    if name.None? {
      return;
    }
    endPoint := endPoint.(name := name.value);
    var portElement := FirstChild(e, "port");
    if portElement.Some? {
      if portElement.value.text.None? {
        return;
      }
      var port := reader.stoi(portElement.value.text.value);
      if port.None? {
        st := Throws;
        return;
      }
      endPoint := endPoint.(port := port.value);
    }
    var pipeline := FirstChild(e, "pipeline");
    if pipeline.Some? {
      if pipeline.value.text.None? {
        return;
      }
      endPoint := endPoint.(pipeline := pipeline.value.text.value);
    }
    var servicesElement := FirstChild(e, "services");
    if servicesElement.None? {
      st := Hangs;
      return;
    }
    var services;
    st, services := LoadServices(servicesElement.value.children, reader, junk);
    endPoint := endPoint.(services := services);
  }

  /** The n-th end-point element, at the cursor. */
  method LoadEndPointAt(cs: seq<Element>, pos: nat, n: nat, reader: Reader, junk: nat -> GatewayEndPointJunk)
    returns (st: Status, endPoint: GatewayEndPoint)
    requires pos < |cs| && On(cs, "end-point", pos, n)
    ensures st == FirstStop(EndPointGroups(Tagged(cs, "end-point"), reader)[n])
    ensures st.Go? ==> endPoint == EndPointsFrom(Tagged(cs, "end-point"), reader, junk)[n]
  {
    st, endPoint := LoadEndPoint(cs[pos], reader, junk(n));
  }

  /** The outer loop, cut short with Hangs where it would go round for ever. */
  method LoadEndPoints(cs: seq<Element>, reader: Reader, junk: nat -> GatewayEndPointJunk)
    returns (st: Status, endPoints: seq<GatewayEndPoint>)
    ensures st == FirstStop(Concat(EndPointGroups(Tagged(cs, "end-point"), reader)))
    ensures st.Go? ==> endPoints == EndPointsFrom(Tagged(cs, "end-point"), reader, junk)
  {
    ghost var all := Tagged(cs, "end-point");
    ghost var groups := EndPointGroups(all, reader);
    ghost var target := EndPointsFrom(all, reader, junk);
    endPoints := [];
    var pos := FirstElement(cs, "end-point");
    while pos < |cs|
      invariant On(cs, "end-point", pos, |endPoints|)
      invariant Collected(groups, target, endPoints)
      decreases |cs| - pos
    {
      var endPoint;
      st, endPoint := LoadEndPointAt(cs, pos, |endPoints|, reader, junk);
      CollectOneMore(groups, target, endPoints);
      if !st.Go? {
        return;
      }
      endPoints := endPoints + [endPoint];
      pos := NextSibling(cs, "end-point", pos, |endPoints| - 1);
    }
    st := Go;
    CollectedAll(groups, target, endPoints);
  }

  method LoadApiGatewayConfigurations(root: Element, current: seq<GatewayEndPoint>, reader: Reader, junk: Junk)
    returns (st: Status, config: seq<GatewayEndPoint>)
    ensures st == FirstStop(Checks(root, reader))
    ensures config == if st.Go? then EndPointsFrom(EndPointsOf(root), reader, junk.gateway) else current
  {
    config := current;
    var element := FirstChild(root, "api-gateway-server-config");
    ghost var first := if element.Some? then Go else Fail(ParsingElement);
    FirstStopAppend([first], Concat(EndPointGroups(EndPointsOf(root), reader)));
    FirstStopAppend([], [first]);
    if element.None? {
      st := Fail(ParsingElement);
      return;
    }
    var endPoints;
    st, endPoints := LoadEndPoints(element.value.children, reader, junk.gateway);
    if st.Go? {
      config := endPoints;
    }
  }

  // ----- Field by field -----

  /** An element with an integer text reads as that integer. */
  predicate Reads(e: Option<Element>, reader: Reader, n: int) {
    e.Some? && e.value.text.Some? ==> reader.stoi(e.value.text.value).Some? ==>
      reader.stoi(e.value.text.value).value == n
  }

  /** A string field: the text of the child, or empty without the child. */
  predicate TextIs(e: Element, tag: string, text: string) {
    if FirstChild(e, tag).None? then text == "" else FirstChild(e, tag).value.text == Some(text)
  }

  predicate UriReads(uri: Uri, e: Element, reader: Reader) {
    Attribute(e, "path") == Some(uri.path) && TextIs(e, "host", uri.host)
    && Reads(FirstChild(e, "port"), reader, uri.port)
  }

  ghost predicate ServiceReads(s: GatewayService, e: Element, reader: Reader) {
    var us := Tagged(e.children, "uri");
    && Attribute(e, "hostname") == Some(s.hostname) && |s.uris| == |us|
    && forall k :: 0 <= k < |us| ==> UriReads(s.uris[k], us[k], reader)
  }

  ghost predicate EndPointReads(p: GatewayEndPoint, e: Element, reader: Reader) {
    var ss := ServicesOf(e);
    && Attribute(e, "name") == Some(p.name) && TextIs(e, "pipeline", p.pipeline)
    && Reads(FirstChild(e, "port"), reader, p.port)
    && Under(e, "services", "service", ss) && |p.services| == |ss|
    && forall k :: 0 <= k < |ss| ==> ServiceReads(p.services[k], ss[k], reader)
  }

  lemma UriIsRead(e: Element, reader: Reader, junk: int)
    requires UriCheck(e, reader).Go?
    ensures UriReads(UriFrom(e, reader, junk), e, reader)
    ensures FirstChild(e, "port").None? ==> UriFrom(e, reader, junk).port == junk
  {
  }

  lemma ServiceIsRead(e: Element, reader: Reader, junk: GatewayServiceJunk)
    requires FirstStop(ServiceChecks(e, reader)).Go?
    ensures ServiceReads(ServiceFrom(e, reader, junk), e, reader)
  {
    var us := Tagged(e.children, "uri");
    FirstStopAppend([AttributeCheck(e, "hostname")], UriChecks(us, reader));
    FirstStopAppend([], [AttributeCheck(e, "hostname")]);
    FirstStopIsFirst(UriChecks(us, reader));
    forall k | 0 <= k < |us|
      ensures UriReads(UrisFrom(us, reader, junk)[k], us[k], reader)
    {
      assert UriChecks(us, reader)[k].Go?;
      UriIsRead(us[k], reader, junk.uriPort(k));
    }
  }

  /** An end-point the loader collects is what its element says, field by field, down to the URIs. */
  lemma EndPointIsRead(e: Element, reader: Reader, junk: GatewayEndPointJunk)
    requires FirstStop(EndPointChecks(e, reader)).Go?
    ensures EndPointReads(EndPointFrom(e, reader, junk), e, reader)
    ensures FirstChild(e, "port").None? ==> EndPointFrom(e, reader, junk).port == junk.port
  {
    var ss := ServicesOf(e);
    EndPointStatus(e, reader);
    FirstStopConcat(ServiceGroups(ss, reader));
    forall k | 0 <= k < |ss|
      ensures ServiceReads(ServicesFrom(ss, reader, junk)[k], ss[k], reader)
    {
      assert FirstStop(ServiceGroups(ss, reader)[k]).Go?;
      ServiceIsRead(ss[k], reader, junk.service(k));
    }
  }

  /** The whole section, when it is accepted, is what its elements say, in document order, field by field. */
  lemma ConfigIsRead(root: Element, reader: Reader, junk: nat -> GatewayEndPointJunk)
    requires FirstStop(Checks(root, reader)).Go?
    ensures var es := EndPointsOf(root);
            && Under(root, "api-gateway-server-config", "end-point", es) && |EndPointsFrom(es, reader, junk)| == |es|
            && forall k :: 0 <= k < |es| ==> EndPointReads(EndPointsFrom(es, reader, junk)[k], es[k], reader)
  {
    var es := EndPointsOf(root);
    var first := if FirstChild(root, "api-gateway-server-config").Some? then Go else Fail(ParsingElement);
    FirstStopAppend([first], Concat(EndPointGroups(es, reader)));
    FirstStopAppend([], [first]);
    FirstStopConcat(EndPointGroups(es, reader));
    forall k | 0 <= k < |es|
      ensures EndPointReads(EndPointsFrom(es, reader, junk)[k], es[k], reader)
    {
      assert FirstStop(EndPointGroups(es, reader)[k]).Go?;
      EndPointIsRead(es[k], reader, junk(k));
    }
  }

  // ----- The outer loop as it is written, pass by pass -----

  /** The cursor stands on the at-th end-point, with some collected before it; or the loop has been left. */
  datatype Loop = Running(at: nat, collected: seq<GatewayEndPoint>)
    | Left(status: Status, collected: seq<GatewayEndPoint>)

  /**
    One test of the loop condition and one pass through the body; without
    services it goes on without moving the cursor.
   */
  function Pass(es: seq<Element>, reader: Reader, junk: nat -> GatewayEndPointJunk, loop: Loop): Loop {
    match loop
    case Left(_, _) => loop
    case Running(at, collected) =>
      if at >= |es| then Left(Go, collected)
      else if !HeaderStatus(es[at], reader).Go? then Left(HeaderStatus(es[at], reader), collected)
      else
        var services := FirstChild(es[at], "services");
        if services.None? then Running(at, collected)
        else
          var st := FirstStop(Concat(ServiceGroups(Tagged(services.value.children, "service"), reader)));
          if !st.Go? then Left(st, collected)
          else Running(at + 1, collected + [EndPointFrom(es[at], reader, junk(at))])
  }

  function Passes(es: seq<Element>, reader: Reader, junk: nat -> GatewayEndPointJunk, n: nat): Loop {
    Iterate(Body(es, reader, junk), Running(0, []), n)
  }

  function Body(es: seq<Element>, reader: Reader, junk: nat -> GatewayEndPointJunk): Loop -> Loop {
    loop => Pass(es, reader, junk, loop)
  }

  function Iterate<T>(step: T -> T, start: T, n: nat): T {
    if n == 0 then start else step(Iterate(step, start, n - 1))
  }

  lemma {:induction false} StaysFixed<T>(step: T -> T, start: T, m: nat, n: nat)
    requires m <= n && step(Iterate(step, start, m)) == Iterate(step, start, m)
    ensures Iterate(step, start, n) == Iterate(step, start, m)
  {
    if m < n {
      StaysFixed(step, start, m, n - 1);
    }
  }

  lemma StuckPass(es: seq<Element>, reader: Reader, junk: nat -> GatewayEndPointJunk, loop: Loop)
    requires loop.Running? && loop.at < |es|
    requires HeaderStatus(es[loop.at], reader).Go? && FirstChild(es[loop.at], "services").None?
    ensures Pass(es, reader, junk, loop) == loop
  {
  }

  /** Once the cursor stands on an element without services whose header reads, no further pass changes anything. */
  lemma FixedPoint(es: seq<Element>, reader: Reader, junk: nat -> GatewayEndPointJunk, m: nat, n: nat)
    requires m <= n && Passes(es, reader, junk, m).Running? && Passes(es, reader, junk, m).at < |es|
    requires var e := es[Passes(es, reader, junk, m).at];
             && AttributeCheck(e, "name").Go? && PortCheck(e, reader).Go? && TextCheck(e, "pipeline").Go?
             && FirstChild(e, "services").None?
    ensures Passes(es, reader, junk, n) == Passes(es, reader, junk, m)
  {
    StuckPass(es, reader, junk, Passes(es, reader, junk, m));
    StaysFixed(Body(es, reader, junk), Running(0, []), m, n);
  }

  /** Where the checks of one end-point stop. */
  lemma EndPointStatus(e: Element, reader: Reader)
    ensures FirstStop(EndPointChecks(e, reader)) ==
            if !HeaderStatus(e, reader).Go? then HeaderStatus(e, reader)
            else if FirstChild(e, "services").None? then Hangs
            else FirstStop(Concat(ServiceGroups(ServicesOf(e), reader)))
    ensures !HeaderStatus(e, reader).Hangs?
    ensures HeaderStatus(e, reader).Go? <==>
            AttributeCheck(e, "name").Go? && PortCheck(e, reader).Go? && TextCheck(e, "pipeline").Go?
  {
    var services := if FirstChild(e, "services").Some? then Go else Hangs;
    FirstStopAppend([HeaderStatus(e, reader)] + [services], Concat(ServiceGroups(ServicesOf(e), reader)));
    FirstStopAppend([HeaderStatus(e, reader)], [services]);
    FirstStopAppend([], [HeaderStatus(e, reader)]);
    FirstStopAppend([], [services]);
  }

  /** Services never hang. */
  lemma ServicesDoNotHang(es: seq<Element>, reader: Reader)
    ensures !FirstStop(Concat(ServiceGroups(es, reader))).Hangs?
  {
    var groups := ServiceGroups(es, reader);
    forall i | 0 <= i < |es|
      ensures !FirstStop(groups[i]).Hangs?
    {
      UrisDoNotHang(Tagged(es[i].children, "uri"), reader);
      FirstStopAppend([AttributeCheck(es[i], "hostname")], UriChecks(Tagged(es[i].children, "uri"), reader));
      FirstStopAppend([], [AttributeCheck(es[i], "hostname")]);
    }
    NoGroupHangs(groups);
  }

  lemma UrisDoNotHang(es: seq<Element>, reader: Reader)
    ensures !FirstStop(UriChecks(es, reader)).Hangs?
  {
    FirstStopIsFirst(UriChecks(es, reader));
  }

  lemma {:induction false} NoGroupHangs(groups: seq<seq<Status>>)
    requires forall i :: 0 <= i < |groups| ==> !FirstStop(groups[i]).Hangs?
    ensures !FirstStop(Concat(groups)).Hangs?
  {
    if groups != [] {
      var n := |groups| - 1;
      NoGroupHangs(groups[..n]);
      FirstStopAppend(Concat(groups[..n]), groups[n]);
    }
  }

  lemma CollectingPass(es: seq<Element>, reader: Reader, junk: nat -> GatewayEndPointJunk, loop: Loop)
    requires loop.Running? && loop.at < |es| && FirstStop(EndPointChecks(es[loop.at], reader)).Go?
    ensures Pass(es, reader, junk, loop) ==
            Running(loop.at + 1, loop.collected + [EndPointFrom(es[loop.at], reader, junk(loop.at))])
  {
    EndPointStatus(es[loop.at], reader);
  }

  lemma {:induction false} StepsCollect(step: Loop -> Loop, items: seq<GatewayEndPoint>, n: nat)
    requires n <= |items| && forall i :: 0 <= i < n ==> step(Running(i, items[..i])) == Running(i + 1, items[..i + 1])
    ensures Iterate(step, Running(0, []), n) == Running(n, items[..n])
  {
    if n > 0 {
      StepsCollect(step, items, n - 1);
    }
  }

  /** The passes over end-points that let the loop go on collect them. */
  lemma PassesCollect(es: seq<Element>, reader: Reader, junk: nat -> GatewayEndPointJunk, n: nat)
    requires n <= |es| && forall i :: 0 <= i < n ==> FirstStop(EndPointChecks(es[i], reader)).Go?
    ensures Passes(es, reader, junk, n) == Running(n, EndPointsFrom(es, reader, junk)[..n])
  {
    var items := EndPointsFrom(es, reader, junk);
    forall i | 0 <= i < n
      ensures Body(es, reader, junk)(Running(i, items[..i])) == Running(i + 1, items[..i + 1])
    {
      TakeOneMore(items, i);
      CollectingPass(es, reader, junk, Running(i, items[..i]));
    }
    StepsCollect(Body(es, reader, junk), items, n);
  }

  /** The pass over the first end-point that does not let the loop go on. */
  lemma PassStops(es: seq<Element>, reader: Reader, junk: nat -> GatewayEndPointJunk, k: nat)
    requires k < |es| && forall i :: 0 <= i < k ==> FirstStop(EndPointChecks(es[i], reader)).Go?
    requires !FirstStop(EndPointChecks(es[k], reader)).Go?
    ensures var st := FirstStop(EndPointChecks(es[k], reader));
            if st.Hangs? then
              forall n :: k <= n ==> Passes(es, reader, junk, n) == Running(k, EndPointsFrom(es, reader, junk)[..k])
            else Passes(es, reader, junk, k + 1) == Left(st, EndPointsFrom(es, reader, junk)[..k])
  {
    PassesCollect(es, reader, junk, k);
    EndPointStatus(es[k], reader);
    ServicesDoNotHang(ServicesOf(es[k]), reader);
    if FirstStop(EndPointChecks(es[k], reader)).Hangs? {
      forall n | k <= n
        ensures Passes(es, reader, junk, n) == Running(k, EndPointsFrom(es, reader, junk)[..k])
      {
        FixedPoint(es, reader, junk, k, n);
      }
    }
  }

  /**
    The loop as written is left after some number of passes exactly when the
    loader's status is not Hangs; when it is left, it is left with that status,
    and with the document-order list of end-points when the status is Go.
   */
  lemma TerminatesExactlyUnlessHangs(es: seq<Element>, reader: Reader, junk: nat -> GatewayEndPointJunk)
    ensures var st := FirstStop(Concat(EndPointGroups(es, reader)));
            && (st.Hangs? <==> forall n: nat :: Passes(es, reader, junk, n).Running?)
            && (!st.Hangs? ==>
                exists n: nat :: Passes(es, reader, junk, n).Left? && Passes(es, reader, junk, n).status == st)
            && (st.Go? ==> exists n: nat :: Passes(es, reader, junk, n) == Left(Go, EndPointsFrom(es, reader, junk)))
  {
    var outcomes := seq(|es|, i requires 0 <= i < |es| => FirstStop(EndPointChecks(es[i], reader)));
    var items := EndPointsFrom(es, reader, junk);
    FirstStopOfFirstStops(EndPointGroups(es, reader), outcomes);
    FirstStopIsFirst(outcomes);
    var st := FirstStop(outcomes);
    if st.Go? {
      forall i | 0 <= i < |es|
        ensures FirstStop(EndPointChecks(es[i], reader)).Go?
      {
        assert outcomes[i].Go?;
      }
      PassesCollect(es, reader, junk, |es|);
      assert items[..|es|] == items;
      assert Passes(es, reader, junk, |es| + 1) == Left(Go, items);
    } else {
      var k :| 0 <= k < |outcomes| && outcomes[k] == st && forall j :: 0 <= j < k ==> outcomes[j].Go?;
      forall i | 0 <= i < k
        ensures FirstStop(EndPointChecks(es[i], reader)).Go?
      {
        assert outcomes[i].Go?;
      }
      PassStops(es, reader, junk, k);
      if st.Hangs? {
        forall n: nat
          ensures Passes(es, reader, junk, n).Running?
        {
          if n < k {
            PassesCollect(es, reader, junk, n);
          }
        }
      } else {
        assert Passes(es, reader, junk, k + 1).Left?;
      }
    }
  }

  /** An element whose header reads, without services, with nothing before it that stops the loop. */
  ghost predicate StuckAt(es: seq<Element>, reader: Reader, k: nat)
    requires k < |es|
  {
    && HeaderStatus(es[k], reader).Go? && FirstChild(es[k], "services").None?
    && forall i :: 0 <= i < k ==> FirstStop(EndPointChecks(es[i], reader)).Go?
  }

  /** For every document: the loop is never left exactly when it gets to such an element. */
  lemma NeverLeftExactlyWhenStuck(es: seq<Element>, reader: Reader, junk: nat -> GatewayEndPointJunk)
    ensures (forall n: nat :: Passes(es, reader, junk, n).Running?) <==>
            exists k :: 0 <= k < |es| && StuckAt(es, reader, k)
  {
    TerminatesExactlyUnlessHangs(es, reader, junk);
    HangsExactlyWhenStuck(es, reader);
  }

  lemma HangsExactlyWhenStuck(es: seq<Element>, reader: Reader)
    ensures FirstStop(Concat(EndPointGroups(es, reader))).Hangs? <==>
            exists k :: 0 <= k < |es| && StuckAt(es, reader, k)
  {
    var outcomes := seq(|es|, i requires 0 <= i < |es| => FirstStop(EndPointChecks(es[i], reader)));
    FirstStopOfFirstStops(EndPointGroups(es, reader), outcomes);
    FirstStopIsFirst(outcomes);
    forall k | 0 <= k < |es|
      ensures outcomes[k].Hangs? <==> HeaderStatus(es[k], reader).Go? && FirstChild(es[k], "services").None?
    {
      EndPointStatus(es[k], reader);
      ServicesDoNotHang(ServicesOf(es[k]), reader);
    }
    if FirstStop(outcomes).Hangs? {
      var k :| 0 <= k < |outcomes| && outcomes[k].Hangs? && forall j :: 0 <= j < k ==> outcomes[j].Go?;
      forall i | 0 <= i < k
        ensures FirstStop(EndPointChecks(es[i], reader)).Go?
      {
        assert outcomes[i].Go?;
      }
      assert StuckAt(es, reader, k);
    }
    if k :| 0 <= k < |es| && StuckAt(es, reader, k) {
      assert outcomes[k].Hangs? && forall i :: 0 <= i < k ==> outcomes[i].Go?;
      FirstStopAt(outcomes, k);
    }
  }

  // ----- How the section breaks off -----

  /** A child without a text where a string is made of it. */
  predicate NullText(e: Element, tag: string) {
    FirstChild(e, tag).Some? && FirstChild(e, tag).value.text.None?
  }

  /** A text that std::stoi throws on. */
  predicate Unreadable(e: Element, reader: Reader) {
    var port := FirstChild(e, "port");
    port.Some? && port.value.text.Some? && reader.stoi(port.value.text.value).None?
  }

  /** A uri element crashes the loader, or throws, in the order path, host, port. */
  predicate UriBreaks(e: Element, reader: Reader, st: Status) {
    if Attribute(e, "path").None? || NullText(e, "host") || NullText(e, "port") then st == Undefined
    else Unreadable(e, reader) && st == Throws
  }

  /** So does an end-point element before its services: name, port, pipeline. */
  predicate HeaderBreaks(e: Element, reader: Reader, st: Status) {
    if Attribute(e, "name").None? || NullText(e, "port") then st == Undefined
    else if Unreadable(e, reader) then st == Throws
    else NullText(e, "pipeline") && st == Undefined
  }

  ghost predicate FirstUriBreaks(us: seq<Element>, reader: Reader, st: Status) {
    exists k :: 0 <= k < |us| && UriBreaks(us[k], reader, st) && forall i :: 0 <= i < k ==> UriCheck(us[i], reader).Go?
  }

  ghost predicate ServiceBreaks(e: Element, reader: Reader, st: Status) {
    if Attribute(e, "hostname").None? then st == Undefined else FirstUriBreaks(Tagged(e.children, "uri"), reader, st)
  }

  ghost predicate FirstServiceBreaks(ss: seq<Element>, reader: Reader, st: Status) {
    exists k :: 0 <= k < |ss| && ServiceBreaks(ss[k], reader, st)
                && forall i :: 0 <= i < k ==> FirstStop(ServiceChecks(ss[i], reader)).Go?
  }

  /** The element breaks off before its services, hangs the loop for lack of them, or breaks off in them. */
  ghost predicate EndPointBreaks(e: Element, reader: Reader, st: Status) {
    if !HeaderStatus(e, reader).Go? then HeaderBreaks(e, reader, st)
    else if FirstChild(e, "services").None? then st == Hangs
    else FirstServiceBreaks(ServicesOf(e), reader, st)
  }

  lemma HeaderBreaksExactly(e: Element, reader: Reader, st: Status)
    requires !st.Go?
    ensures HeaderStatus(e, reader) == st <==> HeaderBreaks(e, reader, st)
    ensures UriCheck(e, reader) == st <==> UriBreaks(e, reader, st)
  {
  }

  lemma FirstUriBreaksExactly(us: seq<Element>, reader: Reader, st: Status)
    requires !st.Go?
    ensures FirstStop(UriChecks(us, reader)) == st <==> FirstUriBreaks(us, reader, st)
  {
    var checks := UriChecks(us, reader);
    StopsWithExactly(checks, st);
    forall k | 0 <= k < |us|
      ensures checks[k] == st <==> UriBreaks(us[k], reader, st)
    {
      HeaderBreaksExactly(us[k], reader, st);
    }
  }

  lemma ServiceBreaksExactly(e: Element, reader: Reader, st: Status)
    requires !st.Go?
    ensures FirstStop(ServiceChecks(e, reader)) == st <==> ServiceBreaks(e, reader, st)
  {
    var us := Tagged(e.children, "uri");
    FirstStopAppend([AttributeCheck(e, "hostname")], UriChecks(us, reader));
    FirstStopAppend([], [AttributeCheck(e, "hostname")]);
    FirstUriBreaksExactly(us, reader, st);
  }

  lemma FirstServiceBreaksExactly(ss: seq<Element>, reader: Reader, st: Status)
    requires !st.Go?
    ensures FirstStop(Concat(ServiceGroups(ss, reader))) == st <==> FirstServiceBreaks(ss, reader, st)
  {
    var outcomes := seq(|ss|, i requires 0 <= i < |ss| => FirstStop(ServiceChecks(ss[i], reader)));
    FirstStopOfFirstStops(ServiceGroups(ss, reader), outcomes);
    StopsWithExactly(outcomes, st);
    forall k | 0 <= k < |ss|
      ensures outcomes[k] == st <==> ServiceBreaks(ss[k], reader, st)
    {
      ServiceBreaksExactly(ss[k], reader, st);
    }
  }

  lemma EndPointBreaksExactly(e: Element, reader: Reader, st: Status)
    requires !st.Go?
    ensures FirstStop(EndPointChecks(e, reader)) == st <==> EndPointBreaks(e, reader, st)
  {
    EndPointStatus(e, reader);
    HeaderBreaksExactly(e, reader, st);
    FirstServiceBreaksExactly(ServicesOf(e), reader, st);
  }

  /** Some end-point breaks off this way, and every one before it is collected. */
  ghost predicate FirstEndPointBreaks(es: seq<Element>, reader: Reader, st: Status) {
    exists k :: 0 <= k < |es| && EndPointBreaks(es[k], reader, st)
                && forall i :: 0 <= i < k ==> FirstStop(EndPointChecks(es[i], reader)).Go?
  }

  lemma FirstEndPointBreaksExactly(es: seq<Element>, reader: Reader, st: Status)
    requires !st.Go?
    ensures FirstStop(Concat(EndPointGroups(es, reader))) == st <==> FirstEndPointBreaks(es, reader, st)
  {
    var outcomes := seq(|es|, i requires 0 <= i < |es| => FirstStop(EndPointChecks(es[i], reader)));
    FirstStopOfFirstStops(EndPointGroups(es, reader), outcomes);
    StopsWithExactly(outcomes, st);
    forall k | 0 <= k < |es|
      ensures outcomes[k] == st <==> EndPointBreaks(es[k], reader, st)
    {
      EndPointBreaksExactly(es[k], reader, st);
    }
  }

  /**
    How the section ends, from its elements: with an error code exactly when it
    is not there, and in any other way exactly as its first end-point that is
    not collected breaks off: crash, exception or endless loop.
   */
  lemma SectionBreaksExactly(root: Element, reader: Reader, st: Status)
    requires !st.Go?
    ensures FirstStop(Checks(root, reader)) == st <==>
            if FirstChild(root, "api-gateway-server-config").None? then st == Fail(ParsingElement)
            else FirstEndPointBreaks(EndPointsOf(root), reader, st)
    ensures FirstChild(root, "api-gateway-server-config").Some? ==> !FirstStop(Checks(root, reader)).Fail?
  {
    var es := EndPointsOf(root);
    var first := if FirstChild(root, "api-gateway-server-config").Some? then Go else Fail(ParsingElement);
    FirstStopAppend([first], Concat(EndPointGroups(es, reader)));
    FirstStopAppend([], [first]);
    FirstEndPointBreaksExactly(es, reader, st);
    NoEndPointFails(es, reader);
  }

  lemma NoEndPointFails(es: seq<Element>, reader: Reader)
    ensures !FirstStop(Concat(EndPointGroups(es, reader))).Fail?
  {
    var st := FirstStop(Concat(EndPointGroups(es, reader)));
    if st.Fail? {
      FirstEndPointBreaksExactly(es, reader, st);
    }
  }

  // ----- Documents whose attributes and texts are all in place -----

  predicate WellFormedUri(e: Element, reader: Reader) {
    AttributeCheck(e, "path").Go? && TextCheck(e, "host").Go? && PortCheck(e, reader).Go?
  }

  predicate WellFormedService(e: Element, reader: Reader) {
    AttributeCheck(e, "hostname").Go? && forall u :: u in Tagged(e.children, "uri") ==> WellFormedUri(u, reader)
  }

  predicate WellFormedEndPoint(e: Element, reader: Reader) {
    && AttributeCheck(e, "name").Go? && PortCheck(e, reader).Go? && TextCheck(e, "pipeline").Go?
    && forall s :: s in ServicesOf(e) ==> WellFormedService(s, reader)
  }

  lemma ServiceAccepted(e: Element, reader: Reader)
    requires WellFormedService(e, reader)
    ensures FirstStop(ServiceChecks(e, reader)).Go?
  {
    var us := Tagged(e.children, "uri");
    forall i | 0 <= i < |us|
      ensures UriChecks(us, reader)[i].Go?
    {
      assert us[i] in us;
    }
    FirstStopIsFirst(UriChecks(us, reader));
    FirstStopAppend([AttributeCheck(e, "hostname")], UriChecks(us, reader));
    FirstStopIsFirst([AttributeCheck(e, "hostname")]);
  }

  lemma EndPointOutcome(e: Element, reader: Reader)
    requires WellFormedEndPoint(e, reader)
    ensures FirstStop(EndPointChecks(e, reader)) == if FirstChild(e, "services").Some? then Go else Hangs
  {
    var ss := ServicesOf(e);
    forall i | 0 <= i < |ss|
      ensures FirstStop(ServiceGroups(ss, reader)[i]).Go?
    {
      assert ss[i] in ss;
      ServiceAccepted(ss[i], reader);
    }
    FirstStopConcat(ServiceGroups(ss, reader));
    EndPointStatus(e, reader);
  }

  /**
    On such documents the loop terminates exactly when every end-point has
    services, and then collects all of them in document order.
   */
  lemma TerminatesExactlyWithServices(es: seq<Element>, reader: Reader, junk: nat -> GatewayEndPointJunk)
    requires forall e :: e in es ==> WellFormedEndPoint(e, reader)
    ensures var complete := forall e :: e in es ==> FirstChild(e, "services").Some?;
            && ((exists n: nat :: Passes(es, reader, junk, n).Left?) <==> complete)
            && (complete ==> exists n: nat :: Passes(es, reader, junk, n) == Left(Go, EndPointsFrom(es, reader, junk)))
  {
    var groups := EndPointGroups(es, reader);
    forall i | 0 <= i < |es|
      ensures FirstStop(groups[i]) == if FirstChild(es[i], "services").Some? then Go else Hangs
    {
      assert es[i] in es;
      EndPointOutcome(es[i], reader);
    }
    FirstStopConcat(groups);
    OnlyHangs(groups);
    assert forall i :: 0 <= i < |es| ==> es[i] in es;
    TerminatesExactlyUnlessHangs(es, reader, junk);
  }

  lemma {:induction false} OnlyHangs(groups: seq<seq<Status>>)
    requires forall i :: 0 <= i < |groups| ==> FirstStop(groups[i]).Go? || FirstStop(groups[i]).Hangs?
    ensures FirstStop(Concat(groups)).Go? || FirstStop(Concat(groups)).Hangs?
  {
    if groups != [] {
      var n := |groups| - 1;
      OnlyHangs(groups[..n]);
      FirstStopAppend(Concat(groups[..n]), groups[n]);
    }
  }

  // ----- The ports of the end-points -----

  /** The end-point has a port, and it reads as 1..65535. */
  predicate HasValidPort(e: Element, reader: Reader) {
    var port := FirstChild(e, "port");
    && port.Some? && port.value.text.Some?
    && reader.stoi(port.value.text.value).Some? && ValidPort(reader.stoi(port.value.text.value).value)
  }

  /** Every end-point of an accepted section has passed its port check. */
  lemma PortsPass(es: seq<Element>, reader: Reader)
    requires FirstStop(Concat(EndPointGroups(es, reader))).Go?
    ensures forall e :: e in es ==> PortCheck(e, reader).Go?
  {
    var groups := EndPointGroups(es, reader);
    FirstStopConcat(groups);
    forall i | 0 <= i < |es|
      ensures PortCheck(es[i], reader).Go?
    {
      assert FirstStop(groups[i]).Go?;
      EndPointStatus(es[i], reader);
    }
  }

  ghost predicate ValidPorts(endPoints: seq<GatewayEndPoint>, n: nat)
    requires n <= |endPoints|
  {
    forall i :: 0 <= i < n ==> ValidPort(endPoints[i].port)
  }

  /** Among the first n end-points read, whatever was in memory, every port is valid. */
  ghost predicate AlwaysValidPorts(es: seq<Element>, n: nat, reader: Reader)
    requires n <= |es|
  {
    forall junk: nat -> GatewayEndPointJunk :: ValidPorts(EndPointsFrom(es, reader, junk), n)
  }

  /**
    The loader checks no range.  Of end-points it accepts, all ports are valid
    whatever was in memory exactly when every element has a port child that
    reads as 1..65535.
   */
  lemma PortsAreValidExactly(es: seq<Element>, n: nat, reader: Reader)
    requires n <= |es| && forall e :: e in es ==> PortCheck(e, reader).Go?
    ensures AlwaysValidPorts(es, n, reader) <==> forall i :: 0 <= i < n ==> HasValidPort(es[i], reader)
  {
    assert forall i :: 0 <= i < n ==> es[i] in es;
    if AlwaysValidPorts(es, n, reader) {
      var zero := (k: nat) => GatewayEndPointJunk(0, _ => GatewayServiceJunk(_ => 0));
      var endPoints := EndPointsFrom(es, reader, zero);
      assert ValidPorts(endPoints, n);
      forall i | 0 <= i < n
        ensures HasValidPort(es[i], reader)
      {
        assert zero(i).port == 0 && endPoints[i] == EndPointFrom(es[i], reader, zero(i));
      }
    } else {
      var junk: nat -> GatewayEndPointJunk :| !ValidPorts(EndPointsFrom(es, reader, junk), n);
      var endPoints := EndPointsFrom(es, reader, junk);
      var i :| 0 <= i < n && !ValidPort(endPoints[i].port);
      assert endPoints[i].port == PortFrom(es[i], reader, junk(i).port);
    }
  }
}
