/** LoadProtocolServerConfigurations (src/config/ConfigParser.cpp). */
module ProtocolParser {
  import opened Wrappers
  import opened Xml
  import opened ConfigTypes

  // ----- What a document says -----

  function ServersOf(root: Element): seq<Element> {
    var config := FirstChild(root, "protocol-server-config");
    if config.None? then [] else Tagged(config.value.children, "protocol-server")
  }

  function RoutesOf(server: Element): seq<Element> {
    var routes := FirstChild(server, "routes");
    if routes.None? then [] else Tagged(routes.value.children, "route")
  }

  function Lower(c: char): char {
    if 'A' <= c <= 'Z' then c + 32 as char else c
  }

  function ToLower(s: string): string {
    seq(|s|, i requires 0 <= i < |s| => Lower(s[i]))
  }

  /** The text of a route's auth/required element, if the route has one. */
  function RequiredText(route: Element): Option<string> {
    var auth := FirstChild(route, "auth");
    if auth.None? then None
    else
      var required := FirstChild(auth.value, "required");
      if required.None? then None else Some(ToLower(SafeText(required)))
  }

  predicate SaysNo(text: string) {
    text == "false" || text == "0" || text == "no"
  }

  predicate SaysYes(text: string) {
    text == "true" || text == "1" || text == "yes"
  }

  function RouteAuthorization(route: Element, reader: Reader): string {
    var auth := FirstChild(route, "auth");
    if auth.None? then ""
    else
      var authorization := FirstChild(auth.value, "authorization");
      if authorization.None? then "" else reader.markup(authorization.value)
  }

  function RouteFrom(e: Element, serverHasAuth: bool, reader: Reader): Route {
    var text := RequiredText(e);
    var required := if text.None? then serverHasAuth else SaysYes(text.value);
    Route(ChildText(e, "path"), ChildText(e, "method"), ChildText(e, "request_handler"),
          RouteAuth(required, RouteAuthorization(e, reader)))
  }

  function RoutesFrom(es: seq<Element>, serverHasAuth: bool, reader: Reader): seq<Route> {
    seq(|es|, i requires 0 <= i < |es| => RouteFrom(es[i], serverHasAuth, reader))
  }

  function AuthorizationFrom(e: Element, reader: Reader): Authorization {
    var data := FirstChild(e, "data");
    Authorization(ChildText(e, "strategy"), ChildText(e, "handler"),
                  if data.Some? then reader.markup(data.value) else "")
  }

  function AuthFrom(server: Element, reader: Reader): Option<Auth> {
    var auth := FirstChild(server, "auth");
    if auth.None? then None
    else
      var authorization := FirstChild(auth.value, "authorization");
      Some(Auth(ChildText(auth.value, "strategy"), ChildText(auth.value, "handler"),
                if authorization.None? then None else Some(AuthorizationFrom(authorization.value, reader))))
  }

  function ServerFrom(e: Element, reader: Reader, junkPort: int): ProtocolServer {
    var port := FirstChild(e, "protocol-port");
    ProtocolServer(
      AttributeOrEmpty(e, "protocol"),
      if port.Some? && port.value.text.Some? && reader.stoi(port.value.text.value).Some?
      then reader.stoi(port.value.text.value).value else junkPort,
      ChildText(e, "pipeline"),
      ChildText(e, "handler"),
      AuthFrom(e, reader),
      RoutesFrom(RoutesOf(e), FirstChild(e, "auth").Some?, reader))
  }

  function ServersFrom(es: seq<Element>, reader: Reader, junk: nat -> int): seq<ProtocolServer> {
    seq(|es|, i requires 0 <= i < |es| => ServerFrom(es[i], reader, junk(i)))
  }

  /** The servers a document describes, in document order. */
  function ConfigFrom(root: Element, reader: Reader, junk: Junk): seq<ProtocolServer> {
    ServersFrom(ServersOf(root), reader, junk.protocolPort)
  }

  // ----- The checks, in the order the loops meet them -----

  function PortCheck(e: Element, reader: Reader): Status {
    var port := FirstChild(e, "protocol-port");
    if port.None? then Go
    else if port.value.text.None? || reader.stoi(port.value.text.value).None? then Fail(ParsingElement)
    else Go
  }

  function RouteCheck(e: Element): Status {
    var text := RequiredText(e);
    if text.Some? && !SaysNo(text.value) && !SaysYes(text.value) then Throws else Go
  }

  function RouteChecks(es: seq<Element>): seq<Status> {
    seq(|es|, i requires 0 <= i < |es| => RouteCheck(es[i]))
  }

  function ServerChecks(e: Element, reader: Reader): seq<Status> {
    [PortCheck(e, reader)] + RouteChecks(RoutesOf(e))
  }

  function ServerGroups(es: seq<Element>, reader: Reader): seq<seq<Status>> {
    seq(|es|, i requires 0 <= i < |es| => ServerChecks(es[i], reader))
  }

  function Checks(root: Element, reader: Reader): seq<Status> {
    Concat(ServerGroups(ServersOf(root), reader))
  }

  // ----- Field by field -----

  /** The text is the word, up to upper-case letters. */
  predicate Folds(text: string, word: string) {
    && |text| == |word|
    && forall i :: 0 <= i < |text| ==>
         text[i] == word[i] || ('A' <= text[i] <= 'Z' && (text[i] as int) + 32 == word[i] as int)
  }

  predicate TextSaysNo(text: string) {
    Folds(text, "false") || Folds(text, "0") || Folds(text, "no")
  }

  predicate TextSaysYes(text: string) {
    Folds(text, "true") || Folds(text, "1") || Folds(text, "yes")
  }

  lemma FoldsExactly(text: string, word: string)
    requires forall i :: 0 <= i < |word| ==> !('A' <= word[i] <= 'Z')
    ensures ToLower(text) == word <==> Folds(text, word)
  {
    if Folds(text, word) {
      assert forall i :: 0 <= i < |text| ==> ToLower(text)[i] == word[i];
    } else if |text| == |word| {
      var i :| 0 <= i < |text| && text[i] != word[i]
               && !('A' <= text[i] <= 'Z' && (text[i] as int) + 32 == word[i] as int);
      assert ToLower(text)[i] != word[i];
    }
  }

  lemma SaysExactly(text: string)
    ensures SaysNo(ToLower(text)) <==> TextSaysNo(text)
    ensures SaysYes(ToLower(text)) <==> TextSaysYes(text)
  {
    FoldsExactly(text, "false");
    FoldsExactly(text, "0");
    FoldsExactly(text, "no");
    FoldsExactly(text, "true");
    FoldsExactly(text, "1");
    FoldsExactly(text, "yes");
  }

  /** The route's auth/required element. */
  function RequiredElement(route: Element): Option<Element> {
    if FirstChild(route, "auth").None? then None else FirstChild(FirstChild(route, "auth").value, "required")
  }

  /** A route that takes itself out of the server's auth. */
  predicate ElementSaysNo(route: Element) {
    RequiredElement(route).Some? && TextSaysNo(SafeText(RequiredElement(route)))
  }

  /** What a route element says of each field, under a server with or without an auth element. */
  predicate RouteReads(route: Route, e: Element, serverHasAuth: bool, reader: Reader) {
    && route.path == ChildText(e, "path") && route.httpMethod == ChildText(e, "method")
    && route.requestHandler == ChildText(e, "request_handler")
    && (route.auth.required <==> if RequiredElement(e).Some? then !ElementSaysNo(e) else serverHasAuth)
    && var auth := FirstChild(e, "auth");
       route.auth.authorization ==
       if auth.Some? && FirstChild(auth.value, "authorization").Some?
       then reader.markup(FirstChild(auth.value, "authorization").value) else ""
  }

  lemma RouteIsRead(e: Element, serverHasAuth: bool, reader: Reader)
    ensures RouteCheck(e).Go? <==>
            (RequiredElement(e).Some? ==>
               TextSaysNo(SafeText(RequiredElement(e))) || TextSaysYes(SafeText(RequiredElement(e))))
    ensures RouteCheck(e).Go? ==> RouteReads(RouteFrom(e, serverHasAuth, reader), e, serverHasAuth, reader)
  {
    if RequiredElement(e).Some? {
      SaysExactly(SafeText(RequiredElement(e)));
      NoIsNotYes(ToLower(SafeText(RequiredElement(e))));
    }
  }

  lemma NoIsNotYes(text: string)
    ensures !(SaysNo(text) && SaysYes(text))
  {
    assert "false"[0] == 'f' && "0"[0] == '0' && "no"[0] == 'n';
    assert "true"[0] == 't' && "1"[0] == '1' && "yes"[0] == 'y';
  }

  /** What a server's auth element says. */
  predicate AuthReads(auth: Auth, e: Element, reader: Reader) {
    && auth.strategy == ChildText(e, "strategy") && auth.handler == ChildText(e, "handler")
    && var authorization := FirstChild(e, "authorization");
       (auth.authorization.Some? <==> authorization.Some?)
       && (authorization.Some? ==>
             && auth.authorization.value.strategy == ChildText(authorization.value, "strategy")
             && auth.authorization.value.handler == ChildText(authorization.value, "handler")
             && auth.authorization.value.data ==
                if FirstChild(authorization.value, "data").Some?
                then reader.markup(FirstChild(authorization.value, "data").value) else "")
  }

  /** What a protocol-server element says of each field. */
  ghost predicate ServerReads(server: ProtocolServer, e: Element, reader: Reader) {
    var port, auth, rs := FirstChild(e, "protocol-port"), FirstChild(e, "auth"), RoutesOf(e);
    && server.name == AttributeOrEmpty(e, "protocol")
    && server.pipeline == ChildText(e, "pipeline") && server.handler == ChildText(e, "handler")
    && (port.Some? ==> port.value.text.Some? && reader.stoi(port.value.text.value) == Some(server.port))
    && (server.auth.Some? <==> auth.Some?) && (auth.Some? ==> AuthReads(server.auth.value, auth.value, reader))
    && Under(e, "routes", "route", rs) && |server.routes| == |rs|
    && forall k :: 0 <= k < |rs| ==> RouteReads(server.routes[k], rs[k], auth.Some?, reader)
  }

  /** A server the loader accepts is what its element says, field by field, down to the routes. */
  lemma ServerIsRead(e: Element, reader: Reader, junkPort: int)
    requires FirstStop(ServerChecks(e, reader)).Go?
    ensures ServerReads(ServerFrom(e, reader, junkPort), e, reader)
    ensures FirstChild(e, "protocol-port").None? ==> ServerFrom(e, reader, junkPort).port == junkPort
  {
    ServerAccepted(e, reader);
    var rs, hasAuth := RoutesOf(e), FirstChild(e, "auth").Some?;
    forall k | 0 <= k < |rs|
      ensures RouteReads(RoutesFrom(rs, hasAuth, reader)[k], rs[k], hasAuth, reader)
    {
      assert rs[k] in rs;
      RouteIsRead(rs[k], hasAuth, reader);
    }
  }

  // ----- The loops -----

  method LoadRoute(e: Element, serverHasAuth: bool, reader: Reader) returns (st: Status, route: Route)
    ensures st == RouteCheck(e)
    ensures st.Go? ==> route == RouteFrom(e, serverHasAuth, reader) && RouteReads(route, e, serverHasAuth, reader)
  {
    RouteIsRead(e, serverHasAuth, reader);
    route := Route(ChildText(e, "path"), ChildText(e, "method"), ChildText(e, "request_handler"),
                   RouteAuth(serverHasAuth, ""));
    st := Go;
    var auth := FirstChild(e, "auth");
    if auth.Some? {
      var required := FirstChild(auth.value, "required");
      if required.Some? {
        var text := ToLower(SafeText(required));
        if text == "false" || text == "0" || text == "no" {
          NoIsNotYes(text);
          route := route.(auth := route.auth.(required := false));
        } else if text == "true" || text == "1" || text == "yes" {
          route := route.(auth := route.auth.(required := true));
        } else {
          st := Throws;
          return;
        }
      }
      var authorization := FirstChild(auth.value, "authorization");
      if authorization.Some? {
        route := route.(auth := route.auth.(authorization := reader.markup(authorization.value)));
      }
    }
  }

  method LoadRoutes(cs: seq<Element>, serverHasAuth: bool, reader: Reader) returns (st: Status, routes: seq<Route>)
    ensures st == FirstStop(RouteChecks(Tagged(cs, "route")))
    ensures st.Go? ==> routes == RoutesFrom(Tagged(cs, "route"), serverHasAuth, reader)
  {
    ghost var all := Tagged(cs, "route");
    ghost var checks := RouteChecks(all);
    ghost var target := RoutesFrom(all, serverHasAuth, reader);
    routes := [];
    var pos := FirstElement(cs, "route");
    while pos < |cs|
      invariant On(cs, "route", pos, |routes|)
      invariant |routes| <= |all| && routes == target[..|routes|]
      invariant FirstStop(checks[..|routes|]).Go?
    {
      var route;
      st, route := LoadRoute(cs[pos], serverHasAuth, reader);
      StopAt(checks, |routes|);
      TakeOneMore(target, |routes|);
      if !st.Go? {
        return;
      }
      routes := routes + [route];
      pos := NextSibling(cs, "route", pos, |routes| - 1);
    }
    st := Go;
    assert checks[..|routes|] == checks;
  }

  method LoadServer(e: Element, reader: Reader, junkPort: int) returns (st: Status, server: ProtocolServer)
    ensures st == FirstStop(ServerChecks(e, reader))
    ensures st.Go? ==> server == ServerFrom(e, reader, junkPort)
  {
    ghost var checks := ServerChecks(e, reader);
    FirstStopAppend([PortCheck(e, reader)], RouteChecks(RoutesOf(e)));
    StopAt(checks, 0);
    server := ProtocolServer(AttributeOrEmpty(e, "protocol"), junkPort, "", "", None, []);
    var port := FirstChild(e, "protocol-port");
    if port.Some? {
      var text := port.value.text;
      if text.None? {
        st := Fail(ParsingElement);
        return;
      }
      var value := reader.stoi(text.value);
      if value.None? {
        st := Fail(ParsingElement);
        return;
      }
      server := server.(port := value.value);
    }
    server := server.(pipeline := ChildText(e, "pipeline"), handler := ChildText(e, "handler"),
                      auth := AuthFrom(e, reader));
    st := Go;
    var routesElement := FirstChild(e, "routes");
    assert checks[..1] == [PortCheck(e, reader)];
    var routes := [];
    if routesElement.Some? {
      st, routes := LoadRoutes(routesElement.value.children, server.auth.Some?, reader);
    } else {
      assert routes == RoutesFrom(RoutesOf(e), FirstChild(e, "auth").Some?, reader);
    }
    server := server.(routes := routes);
  }

  /** The n-th protocol-server element, at the cursor. */
  method LoadServerAt(cs: seq<Element>, pos: nat, n: nat, reader: Reader, junk: nat -> int)
    returns (st: Status, server: ProtocolServer)
    requires pos < |cs| && On(cs, "protocol-server", pos, n)
    ensures st == FirstStop(ServerGroups(Tagged(cs, "protocol-server"), reader)[n])
    ensures st.Go? ==> server == ServersFrom(Tagged(cs, "protocol-server"), reader, junk)[n]
  {
    st, server := LoadServer(cs[pos], reader, junk(n));
  }

  method LoadServers(cs: seq<Element>, reader: Reader, junk: nat -> int)
    returns (st: Status, servers: seq<ProtocolServer>)
    ensures st == FirstStop(Concat(ServerGroups(Tagged(cs, "protocol-server"), reader)))
    ensures st.Go? ==> servers == ServersFrom(Tagged(cs, "protocol-server"), reader, junk)
  {
    ghost var all := Tagged(cs, "protocol-server");
    ghost var groups := ServerGroups(all, reader);
    ghost var target := ServersFrom(all, reader, junk);
    servers := [];
    var pos := FirstElement(cs, "protocol-server");
    while pos < |cs|
      invariant On(cs, "protocol-server", pos, |servers|)
      invariant Collected(groups, target, servers)
    {
      var server;
      st, server := LoadServerAt(cs, pos, |servers|, reader, junk);
      CollectOneMore(groups, target, servers);
      if !st.Go? {
        return;
      }
      servers := servers + [server];
      pos := NextSibling(cs, "protocol-server", pos, |servers| - 1);
    }
    st := Go;
    CollectedAll(groups, target, servers);
  }

  method LoadProtocolServerConfigurations(root: Element, current: seq<ProtocolServer>, reader: Reader, junk: Junk)
    returns (st: Status, config: seq<ProtocolServer>)
    ensures st == FirstStop(Checks(root, reader))
    ensures config == if st.Go? then ConfigFrom(root, reader, junk) else current
  {
    config := current;
    var element := FirstChild(root, "protocol-server-config");
    if element.None? {
      config := [];
      st := Go;
      return;
    }
    var servers;
    st, servers := LoadServers(element.value.children, reader, junk.protocolPort);
    if st.Go? {
      config := servers;
    }
  }

  // ----- When a document is accepted -----

  predicate WellFormedServer(e: Element, reader: Reader) {
    var port := FirstChild(e, "protocol-port");
    && (port.Some? ==> port.value.text.Some? && reader.stoi(port.value.text.value).Some?)
    && forall r :: r in RoutesOf(e) ==>
         RequiredText(r).Some? ==> SaysNo(RequiredText(r).value) || SaysYes(RequiredText(r).value)
  }

  ghost predicate WellFormed(root: Element, reader: Reader) {
    forall e :: e in ServersOf(root) ==> WellFormedServer(e, reader)
  }

  lemma RoutesAccepted(es: seq<Element>)
    ensures FirstStop(RouteChecks(es)).Go? <==> forall r :: r in es ==> RouteCheck(r).Go?
  {
    var checks := RouteChecks(es);
    FirstStopIsFirst(checks);
    forall i | 0 <= i < |es|
      ensures checks[i] == RouteCheck(es[i]) && es[i] in es
    {
    }
  }

  lemma ServerAccepted(e: Element, reader: Reader)
    ensures FirstStop(ServerChecks(e, reader)).Go? <==> WellFormedServer(e, reader)
  {
    var own := [PortCheck(e, reader)];
    FirstStopAppend(own, RouteChecks(RoutesOf(e)));
    RoutesAccepted(RoutesOf(e));
    FirstStopIsFirst(own);
    assert own[0] == PortCheck(e, reader);
    assert forall r :: r in RoutesOf(e) ==>
      (RouteCheck(r).Go? <==>
       (RequiredText(r).Some? ==> SaysNo(RequiredText(r).value) || SaysYes(RequiredText(r).value)));
  }

  /** The section is accepted exactly when every port is an integer and every required text is a yes or a no. */
  lemma AcceptedExactlyWhenWellFormed(root: Element, reader: Reader)
    ensures FirstStop(Checks(root, reader)).Go? <==> WellFormed(root, reader)
  {
    var es := ServersOf(root);
    var groups := ServerGroups(es, reader);
    FirstStopConcat(groups);
    forall i | 0 <= i < |es|
      ensures FirstStop(groups[i]).Go? <==> WellFormedServer(es[i], reader)
    {
      ServerAccepted(es[i], reader);
    }
  }

  /** The whole section, when it is accepted, is what its elements say, in document order, field by field. */
  lemma ConfigIsRead(root: Element, reader: Reader, junk: Junk)
    requires FirstStop(Checks(root, reader)).Go?
    ensures var config, es := ConfigFrom(root, reader, junk), ServersOf(root);
            && Under(root, "protocol-server-config", "protocol-server", es) && |config| == |es|
            && forall k :: 0 <= k < |es| ==> ServerReads(config[k], es[k], reader)
  {
    var es := ServersOf(root);
    FirstStopConcat(ServerGroups(es, reader));
    forall k | 0 <= k < |es|
      ensures ServerReads(ServersFrom(es, reader, junk.protocolPort)[k], es[k], reader)
    {
      assert FirstStop(ServerGroups(es, reader)[k]).Go?;
      ServerIsRead(es[k], reader, junk.protocolPort(k));
    }
  }
}
