/**
  Loading a whole document into the three stored sections
  (ConfigParser::ParseConfiguration, ConfigSingleton::LoadConfigurationsFromString)
  and reading the document of a service edit.
 */
module ConfigLoad {
  import opened Wrappers
  import opened Xml
  import opened ConfigTypes
  import ProxyParser
  import ProtocolParser
  import GatewayParser

  datatype Store = Store(proxy: ProxyConfig, protocol: seq<ProtocolServer>, gateway: seq<GatewayEndPoint>)

  /**
    What the XML library makes of the text: nothing to parse, a parse error, or
    a document (its top-level elements are the children).
   */
  datatype Content = Empty | Unparsable(code: int) | Parsed(document: Element)

  /**
    Section by section: the parse of the section's own subtree where its checks
    pass, the old value where they do not.
   */
  function Loaded(store: Store, root: Element, reader: Reader, junk: Junk): Store {
    Store(
      if FirstStop(ProxyParser.Checks(root, reader)).Go? then ProxyParser.ConfigFrom(root, reader, junk)
      else store.proxy,
      if FirstStop(ProtocolParser.Checks(root, reader)).Go? then ProtocolParser.ConfigFrom(root, reader, junk)
      else store.protocol,
      if FirstStop(GatewayParser.Checks(root, reader)).Go?
      then GatewayParser.EndPointsFrom(GatewayParser.EndPointsOf(root), reader, junk.gateway) else store.gateway)
  }

  /** The new store and how the load ends.  A code a section returns is dropped; anything else leaves the load. */
  function Load(store: Store, content: Content, reader: Reader, junk: Junk): (Store, Status) {
    match content
    case Empty => (store, Fail(EmptyDocument))
    case Unparsable(code) => (store, Fail(Malformed(code)))
    case Parsed(document) =>
      var root := FirstChild(document, "clickhouse-proxy-v2");
      if root.None? then (store, Fail(FileReadError)) else LoadRoot(store, root.value, reader, junk)
  }

  function LoadRoot(store: Store, root: Element, reader: Reader, junk: Junk): (Store, Status) {
    if FirstStop(ProtocolParser.Checks(root, reader)).Throws? then (store, Throws)
    else
      var gateway := FirstStop(GatewayParser.Checks(root, reader));
      (Loaded(store, root, reader, junk), if gateway.Fail? then Go else gateway)
  }

  lemma {:induction false} StatusesOf(groups: seq<seq<Status>>, bad: Status)
    requires !bad.Go? && forall i :: 0 <= i < |groups| ==> FirstStop(groups[i]) != bad
    ensures FirstStop(Concat(groups)) != bad
  {
    if groups != [] {
      var n := |groups| - 1;
      StatusesOf(groups[..n], bad);
      FirstStopAppend(Concat(groups[..n]), groups[n]);
    }
  }

  /** The protocol section only ever returns a code or throws. */
  lemma ProtocolStatuses(root: Element, reader: Reader)
    ensures var st := FirstStop(ProtocolParser.Checks(root, reader)); st.Go? || st.Fail? || st.Throws?
  {
    var es := ProtocolParser.ServersOf(root);
    var groups := ProtocolParser.ServerGroups(es, reader);
    forall i | 0 <= i < |es|
      ensures FirstStop(groups[i]) != Undefined && FirstStop(groups[i]) != Hangs
    {
      FirstStopIsFirst(groups[i]);
    }
    StatusesOf(groups, Undefined);
    StatusesOf(groups, Hangs);
  }

  // ----- The single edit -----

  /** None is a thrown exception. */
  function EditFrom(content: Content, reader: Reader, junk: ServiceJunk): Option<ServiceEdit> {
    if !content.Parsed? then None
    else
      var endPoint := FirstChild(content.document, "end_point");
      if endPoint.None? then None
      else
        var operation := ChildText(endPoint.value, "operation");
        var service := FirstChild(endPoint.value, "service");
        if (operation != "add" && operation != "delete") || service.None? then None
        else
          var port := FirstChild(service.value, "port");
          if port.Some? && !QueryInt(port.value, reader).Go? then None
          else
            Some(ServiceEdit(AttributeOrEmpty(endPoint.value, "name"), operation,
                             Service(AttributeOrEmpty(service.value, "name"), ChildText(service.value, "host"),
                                     if port.Some? then IntText(port.value, reader) else junk.port, junk.weight, "")))
  }

  /** LoadEndpointServiceFromString and ParseEndPointServiceConfiguration. */
  method LoadEdit(content: Content, reader: Reader, junk: ServiceJunk) returns (edit: Option<ServiceEdit>)
    ensures edit == EditFrom(content, reader, junk)
  {
    if !content.Parsed? {
      return None;
    }
    var endPoint := FirstChild(content.document, "end_point");
    if endPoint.None? {
      return None;
    }
    var cfg := ServiceEdit(AttributeOrEmpty(endPoint.value, "name"), ChildText(endPoint.value, "operation"),
                           Service("", "", junk.port, junk.weight, ""));
    if cfg.operation != "add" && cfg.operation != "delete" {
      return None;
    }
    var service := FirstChild(endPoint.value, "service");
    if service.None? {
      return None;
    }
    cfg := cfg.(service := cfg.service.(name := AttributeOrEmpty(service.value, "name"),
                                        host := ChildText(service.value, "host")));
    var port := FirstChild(service.value, "port");
    if port.Some? {
      var st := QueryInt(port.value, reader);
      if !st.Go? {
        return None;
      }
      cfg := cfg.(service := cfg.service.(port := IntText(port.value, reader)));
    }
    return Some(cfg);
  }

  /**
    A document that is an edit: its first end_point has an operation that is an
    add or a delete, and a service whose port, if there is one, is an integer.
   */
  predicate IsEdit(content: Content, reader: Reader) {
    && content.Parsed? && FirstChild(content.document, "end_point").Some?
    && var endPoint := FirstChild(content.document, "end_point").value;
       && ChildText(endPoint, "operation") in ["add", "delete"]
       && FirstChild(endPoint, "service").Some?
       && var port := FirstChild(FirstChild(endPoint, "service").value, "port");
          port.Some? ==> port.value.text.Some? && reader.toInt(port.value.text.value).Some?
  }

  /** What the document says of each field; the weight is what was in memory, and so is a port it does not mention. */
  predicate EditReads(edit: ServiceEdit, content: Content, reader: Reader, junk: ServiceJunk) {
    && content.Parsed? && FirstChild(content.document, "end_point").Some?
    && var endPoint := FirstChild(content.document, "end_point").value;
       && edit.name == AttributeOrEmpty(endPoint, "name") && edit.operation == ChildText(endPoint, "operation")
       && FirstChild(endPoint, "service").Some?
       && var service := FirstChild(endPoint, "service").value;
          && edit.service.name == AttributeOrEmpty(service, "name") && edit.service.host == ChildText(service, "host")
          && edit.service.weight == junk.weight && edit.service.sourceHostname == ""
          && ProxyParser.Reads(FirstChild(service, "port"), reader, edit.service.port)
          && (FirstChild(service, "port").None? ==> edit.service.port == junk.port)
  }

  /** An edit is read from exactly the documents that are one, field by field. */
  lemma EditIsRead(content: Content, reader: Reader, junk: ServiceJunk)
    ensures EditFrom(content, reader, junk).Some? <==> IsEdit(content, reader)
    ensures IsEdit(content, reader) ==> EditReads(EditFrom(content, reader, junk).value, content, reader, junk)
  {
  }

  // ----- Atomicity of the sections -----

  /**
    The load leaves early with an exception of the protocol section only if some
    route's required text is neither a yes nor a no.
   */
  lemma ThrowNeedsBadRoute(root: Element, reader: Reader)
    requires FirstStop(ProtocolParser.Checks(root, reader)).Throws?
    ensures exists e, r ::
              && e in ProtocolParser.ServersOf(root) && r in ProtocolParser.RoutesOf(e)
              && ProtocolParser.RouteCheck(r).Throws?
  {
    var es := ProtocolParser.ServersOf(root);
    var groups := ProtocolParser.ServerGroups(es, reader);
    if forall i :: 0 <= i < |es| ==> FirstStop(groups[i]) != Throws {
      StatusesOf(groups, Throws);
    } else {
      var i :| 0 <= i < |es| && FirstStop(groups[i]) == Throws;
      var r := ThrowingRoute(es[i], reader);
      assert es[i] in es;
    }
  }

  lemma ThrowingRoute(e: Element, reader: Reader) returns (r: Element)
    requires FirstStop(ProtocolParser.ServerChecks(e, reader)) == Throws
    ensures r in ProtocolParser.RoutesOf(e) && ProtocolParser.RouteCheck(r).Throws?
  {
    var routes := ProtocolParser.RoutesOf(e);
    var checks := ProtocolParser.RouteChecks(routes);
    FirstStopAppend([ProtocolParser.PortCheck(e, reader)], checks);
    FirstStopAppend([], [ProtocolParser.PortCheck(e, reader)]);
    FirstStopIsFirst(checks);
    var k :| 0 <= k < |checks| && checks[k] == Throws;
    r := routes[k];
  }

  /** The gateway section is there and none of its end-points stops the loop. */
  ghost predicate EveryEndPointCollected(root: Element, reader: Reader) {
    && FirstChild(root, "api-gateway-server-config").Some?
    && forall e :: e in GatewayParser.EndPointsOf(root) ==> FirstStop(GatewayParser.EndPointChecks(e, reader)).Go?
  }

  lemma AllPass(groups: seq<seq<Status>>, es: seq<Element>, reader: Reader)
    requires groups == GatewayParser.EndPointGroups(es, reader)
    ensures (forall i :: 0 <= i < |groups| ==> FirstStop(groups[i]).Go?) <==>
            forall e :: e in es ==> FirstStop(GatewayParser.EndPointChecks(e, reader)).Go?
  {
    forall i | 0 <= i < |es|
      ensures groups[i] == GatewayParser.EndPointChecks(es[i], reader) && es[i] in es
    {
    }
  }

  lemma GatewayAccepted(root: Element, reader: Reader)
    ensures FirstStop(GatewayParser.Checks(root, reader)).Go? <==> EveryEndPointCollected(root, reader)
  {
    var es := GatewayParser.EndPointsOf(root);
    var groups := GatewayParser.EndPointGroups(es, reader);
    var first := if FirstChild(root, "api-gateway-server-config").Some? then Go else Fail(ParsingElement);
    FirstStopAppend([first], Concat(groups));
    FirstStopAppend([], [first]);
    FirstStopConcat(groups);
    AllPass(groups, es, reader);
  }

  /** Text that is empty or malformed, or a document without the root element. */
  predicate NothingToLoad(content: Content) {
    !content.Parsed? || FirstChild(content.document, "clickhouse-proxy-v2").None?
  }

  /** Nothing to load: an error code, and every section stays. */
  lemma NothingIsLoaded(store: Store, content: Content, reader: Reader, junk: Junk)
    requires NothingToLoad(content)
    ensures Load(store, content, reader, junk).0 == store
    ensures Load(store, content, reader, junk).1 ==
            Fail(if content.Empty? then EmptyDocument
                 else if content.Unparsable? then Malformed(content.code) else FileReadError)
  {
  }

  /** Some route's required text is neither a yes nor a no, and nothing before it in the section is rejected. */
  ghost predicate ProtocolThrows(root: Element, reader: Reader) {
    FirstStop(ProtocolParser.Checks(root, reader)).Throws?
  }

  /** The server's port reads, and some route of it has a required text that is neither a yes nor a no. */
  ghost predicate ThrowsAt(e: Element, reader: Reader) {
    && ProtocolParser.PortCheck(e, reader).Go?
    && exists r :: r in ProtocolParser.RoutesOf(e) && ProtocolParser.RouteCheck(r).Throws?
  }

  lemma ServerThrowsExactly(e: Element, reader: Reader)
    ensures FirstStop(ProtocolParser.ServerChecks(e, reader)).Throws? <==> ThrowsAt(e, reader)
  {
    var port, rs := ProtocolParser.PortCheck(e, reader), ProtocolParser.RoutesOf(e);
    var checks := ProtocolParser.RouteChecks(rs);
    FirstStopAppend([port], checks);
    FirstStopAppend([], [port]);
    FirstStopIsFirst(checks);
    if FirstStop(ProtocolParser.ServerChecks(e, reader)).Throws? {
      var r := ThrowingRoute(e, reader);
    }
    if r :| r in rs && ProtocolParser.RouteCheck(r).Throws? {
      var j :| 0 <= j < |rs| && rs[j] == r;
      assert checks[j].Throws?;
    }
  }

  /** The section throws exactly when the first server that is not well-formed is one whose port reads. */
  lemma ProtocolThrowsExactly(root: Element, reader: Reader)
    ensures ProtocolThrows(root, reader) <==>
            var es := ProtocolParser.ServersOf(root);
            exists k :: 0 <= k < |es| && ThrowsAt(es[k], reader)
                        && forall i :: 0 <= i < k ==> ProtocolParser.WellFormedServer(es[i], reader)
  {
    var es := ProtocolParser.ServersOf(root);
    var groups := ProtocolParser.ServerGroups(es, reader);
    var outcomes := seq(|es|, i requires 0 <= i < |es| => FirstStop(ProtocolParser.ServerChecks(es[i], reader)));
    FirstStopOfFirstStops(groups, outcomes);
    FirstStopIsFirst(outcomes);
    forall k | 0 <= k < |es|
      ensures outcomes[k].Throws? <==> ThrowsAt(es[k], reader)
      ensures outcomes[k].Go? <==> ProtocolParser.WellFormedServer(es[k], reader)
    {
      ServerThrowsExactly(es[k], reader);
      ProtocolParser.ServerAccepted(es[k], reader);
    }
    if k :| 0 <= k < |es| && ThrowsAt(es[k], reader)
            && forall i :: 0 <= i < k ==> ProtocolParser.WellFormedServer(es[i], reader) {
      FirstStopAt(outcomes, k);
    }
  }

  /** Each section is the parse of its own subtree where that is well-formed, and its old value where it is not. */
  ghost predicate ParsedOrOld(store: Store, after: Store, root: Element, reader: Reader, junk: Junk) {
    && after.proxy ==
       (if ProxyParser.WellFormed(root, reader) then ProxyParser.ConfigFrom(root, reader, junk) else store.proxy)
    && after.protocol ==
       (if ProtocolParser.WellFormed(root, reader) then ProtocolParser.ConfigFrom(root, reader, junk)
        else store.protocol)
    && after.gateway ==
       (if EveryEndPointCollected(root, reader)
        then GatewayParser.EndPointsFrom(GatewayParser.EndPointsOf(root), reader, junk.gateway)
        else store.gateway)
  }

  /** How loading a root element ends. */
  ghost predicate RootIsLoaded(store: Store, after: Store, st: Status, root: Element, reader: Reader, junk: Junk) {
    if ProtocolThrows(root, reader) then after == store && st == Throws
    else
      && ParsedOrOld(store, after, root, reader, junk)
      && var gateway := FirstStop(GatewayParser.Checks(root, reader));
         st == if gateway.Fail? then Go else gateway
  }

  /**
    Whatever is loaded, every section is wholly old or wholly the parse of its
    own subtree: nothing changes when there is nothing to load or the protocol
    section throws; otherwise the proxy and protocol sections change exactly
    when they are well-formed, and neither stops the gateway section.
   */
  lemma SectionsAreAtomic(store: Store, content: Content, reader: Reader, junk: Junk)
    ensures var (after, st) := Load(store, content, reader, junk);
            if NothingToLoad(content) then after == store && st.Fail?
            else RootIsLoaded(store, after, st, FirstChild(content.document, "clickhouse-proxy-v2").value, reader, junk)
  {
    if !NothingToLoad(content) {
      RootLoads(store, FirstChild(content.document, "clickhouse-proxy-v2").value, reader, junk);
    }
  }

  lemma RootLoads(store: Store, root: Element, reader: Reader, junk: Junk)
    ensures var (after, st) := LoadRoot(store, root, reader, junk);
            RootIsLoaded(store, after, st, root, reader, junk)
  {
    SectionsAreParsedOrOld(store, root, reader, junk);
  }

  lemma SectionsAreParsedOrOld(store: Store, root: Element, reader: Reader, junk: Junk)
    ensures ParsedOrOld(store, Loaded(store, root, reader, junk), root, reader, junk)
  {
    ProxyParser.AcceptedExactlyWhenWellFormed(root, reader);
    ProtocolParser.AcceptedExactlyWhenWellFormed(root, reader);
    GatewayAccepted(root, reader);
  }
}
