/**
  The closure registered for a route of the management API
  (src/protocol_server.h): authentication, authorization, then the request
  handler.  The handlers behind the names are opaque.
 */
module RequestGate {
  import opened Wrappers
  import opened Xml
  import opened ConfigTypes
  import opened Resolution
  import ProtocolParser

  datatype Value = Flag(b: bool) | Text(s: string) | Response(id: nat) | Other(id: nat)

  type Context = map<string, Value>

  const AUTHENTICATED: string := "AUTH_AUTHENTICATED_KEY"
  const AUTHORIZED: string := "AUTHORIZATION_AUTHORIZED_KEY"

  datatype Role = Authentication | Authorizing | RequestHandler

  /** One dispatch: who was called, as what, and the context before and after; None is an exception. */
  datatype Event = Event(role: Role, handler: string, before: Context, after: Option<Context>)

  datatype Outcome = Unauthorized | Forbidden | Handled(response: Value) | InternalError | Propagated

  /** any_cast<bool>, false when the key is missing or holds something else. */
  predicate IsTrue(context: Context, key: string) {
    key in context && context[key] == Flag(true)
  }

  /** CommandDispatcher::Dispatch; the n-th call of this request may behave differently from the others. */
  type Dispatcher = (nat, string, Context) -> Option<Context>

  predicate Guarded(route: Route, auth: Option<ResolvedAuth>) {
    route.auth.required && auth.Some?
  }

  predicate NeedsAuthorization(route: Route, auth: Option<ResolvedAuth>) {
    Guarded(route, auth) && route.auth.authorization != "" && auth.value.authorization.Some?
  }

  /** How many dispatches come before the request handler's. */
  function Guards(route: Route, auth: Option<ResolvedAuth>): nat {
    if NeedsAuthorization(route, auth) then 2 else if Guarded(route, auth) then 1 else 0
  }

  function InitialContext(auth: Option<ResolvedAuth>): Context {
    map["request" := Other(0), "update_configuration" := Other(1), "update_endpoint_service" := Other(2),
        "AUTHENTICATION_STRATEGY_KEY" := if auth.Some? then Text(auth.value.strategy) else Other(3)]
  }

  /** What is put into the context before the authorization handler runs. */
  function WithAuthorization(context: Context, route: Route, authorization: Authorization): Context {
    context["AUTHORIZATION_DATA_KEY" := Text(route.auth.authorization)]
           ["AUTHORIZATION_STRATEGY_KEY" := Text(authorization.strategy)]
  }

  /** The context of the second dispatch, from what the first left. */
  function Prepared(route: Route, auth: Option<ResolvedAuth>, left: Context): Context {
    if NeedsAuthorization(route, auth) then WithAuthorization(left, route, auth.value.authorization.value) else left
  }

  /** This guard was dispatched to this handler and left the key true. */
  predicate Passed(event: Event, role: Role, handler: string, key: string) {
    event.role == role && event.handler == handler && event.after.Some? && IsTrue(event.after.value, key)
  }

  predicate Authenticated(route: Route, auth: Option<ResolvedAuth>, trace: seq<Event>) {
    Guarded(route, auth) ==> |trace| >= 1 && Passed(trace[0], Authentication, auth.value.handler, AUTHENTICATED)
  }

  predicate Authorized(route: Route, auth: Option<ResolvedAuth>, trace: seq<Event>) {
    NeedsAuthorization(route, auth) ==>
      |trace| >= 2 && Passed(trace[1], Authorizing, auth.value.authorization.value.handler, AUTHORIZED)
  }

  /**
    The request handler is dispatched exactly when every guard that applies was
    dispatched before it and passed; then it is the last dispatch, and each
    dispatch works on the context the one before it left.
   */
  ghost predicate Gate(route: Route, auth: Option<ResolvedAuth>, trace: seq<Event>) {
    var g := Guards(route, auth);
    && 1 <= |trace| <= g + 1
    && (|trace| == g + 1 <==> Authenticated(route, auth, trace) && Authorized(route, auth, trace))
    && (forall i :: 0 <= i < |trace| ==> (trace[i].role == RequestHandler <==> i == g))
    && (g > 0 ==> trace[0].role == Authentication && trace[0].handler == auth.value.handler)
    && (g > 0 ==> (|trace| > 1 <==> Passed(trace[0], Authentication, auth.value.handler, AUTHENTICATED)))
    && (g > 1 && |trace| > 1 ==>
          trace[1].role == Authorizing && trace[1].handler == auth.value.authorization.value.handler)
    && (|trace| == g + 1 ==> trace[g].handler == route.requestHandler)
    && (|trace| > 1 ==> trace[0].after.Some?)
    && (|trace| > 2 ==> trace[1].after.Some?)
    && trace[0].before == InitialContext(auth)
    && (|trace| > 1 ==> trace[1].before == Prepared(route, auth, trace[0].after.value))
    && (|trace| > 2 ==> trace[2].before == trace[1].after.value)
  }

  /** The answer follows from the last dispatch. */
  function OutcomeOf(g: nat, trace: seq<Event>): Outcome
    requires trace != []
  {
    var after := trace[|trace| - 1].after;
    if |trace| == g + 1 then
      if after.None? || "response" !in after.value || !after.value["response"].Response? then InternalError
      else Handled(after.value["response"])
    else if after.None? then Propagated
    else if |trace| == 1 then Unauthorized
    else Forbidden
  }

  method Handle(route: Route, auth: Option<ResolvedAuth>, dispatch: Dispatcher)
    returns (outcome: Outcome, trace: seq<Event>)
    ensures Gate(route, auth, trace)
    ensures outcome == OutcomeOf(Guards(route, auth), trace)
    ensures forall i :: 0 <= i < |trace| ==> trace[i].after == dispatch(i, trace[i].handler, trace[i].before)
  {
    trace := [];
    var context := InitialContext(auth);
    if route.auth.required && auth.Some? {
      var authenticated := dispatch(0, auth.value.handler, context);
      trace := [Event(Authentication, auth.value.handler, context, authenticated)];
      if authenticated.None? {
        return Propagated, trace;
      }
      context := authenticated.value;
      if !IsTrue(context, AUTHENTICATED) {
        return Unauthorized, trace;
      }
      if route.auth.authorization != "" && auth.value.authorization.Some? {
        var authorization := auth.value.authorization.value;
        context := WithAuthorization(context, route, authorization);
        var authorized := dispatch(1, authorization.handler, context);
        trace := trace + [Event(Authorizing, authorization.handler, context, authorized)];
        if authorized.None? {
          return Propagated, trace;
        }
        context := authorized.value;
        if !IsTrue(context, AUTHORIZED) {
          return Forbidden, trace;
        }
      }
    }
    var after := dispatch(|trace|, route.requestHandler, context);
    trace := trace + [Event(RequestHandler, route.requestHandler, context, after)];
    if after.None? || "response" !in after.value || !after.value["response"].Response? {
      return InternalError, trace;
    }
    return Handled(after.value["response"]), trace;
  }

  /** Which guard failed, and how: read off the dispatches. */
  lemma OutcomeSaysWhatFailed(route: Route, auth: Option<ResolvedAuth>, trace: seq<Event>)
    requires Gate(route, auth, trace)
    ensures var outcome, last := OutcomeOf(Guards(route, auth), trace), trace[|trace| - 1];
            && (outcome == Propagated <==> last.role != RequestHandler && last.after.None?)
            && (outcome == Unauthorized <==>
                last.role == Authentication && last.after.Some? && !IsTrue(last.after.value, AUTHENTICATED))
            && (outcome == Forbidden <==>
                last.role == Authorizing && last.after.Some? && !IsTrue(last.after.value, AUTHORIZED))
            && (outcome == InternalError <==> last.role == RequestHandler && !Responded(last.after))
            && (outcome.Handled? <==> last.role == RequestHandler && Responded(last.after))
            && (outcome.Handled? ==> outcome.response == last.after.value["response"])
  {
  }

  /** The handler returned, and left a response under its key. */
  predicate Responded(after: Option<Context>) {
    after.Some? && "response" in after.value && after.value["response"].Response?
  }

  /** What each dispatch finds in the context, key by key. */
  lemma ContextsAre(route: Route, auth: Option<ResolvedAuth>, trace: seq<Event>)
    requires Gate(route, auth, trace)
    ensures var first := trace[0].before;
            && first.Keys ==
              {"request", "update_configuration", "update_endpoint_service", "AUTHENTICATION_STRATEGY_KEY"}
            && (auth.Some? ==> first["AUTHENTICATION_STRATEGY_KEY"] == Text(auth.value.strategy))
    ensures NeedsAuthorization(route, auth) && |trace| > 1 ==>
              var left, found := trace[0].after.value, trace[1].before;
              && found.Keys == left.Keys + {"AUTHORIZATION_DATA_KEY", "AUTHORIZATION_STRATEGY_KEY"}
              && found["AUTHORIZATION_DATA_KEY"] == Text(route.auth.authorization)
              && found["AUTHORIZATION_STRATEGY_KEY"] == Text(auth.value.authorization.value.strategy)
              && forall k :: k in left && k != "AUTHORIZATION_DATA_KEY" && k != "AUTHORIZATION_STRATEGY_KEY" ==>
                   found[k] == left[k]
    ensures var g := Guards(route, auth);
            g > 0 && |trace| == g + 1 ==> Some(trace[g].before) == trace[g - 1].after
  {
    KeysDiffer();
  }

  lemma KeysDiffer()
    ensures "AUTHORIZATION_DATA_KEY" != "AUTHORIZATION_STRATEGY_KEY"
    ensures "AUTHENTICATION_STRATEGY_KEY" !in ["request", "update_configuration", "update_endpoint_service"]
  {
    assert "AUTHORIZATION_DATA_KEY"[14] == 'D' && "AUTHORIZATION_STRATEGY_KEY"[14] == 'S';
    assert "AUTHENTICATION_STRATEGY_KEY"[0] == 'A' && "request"[0] == 'r';
    assert "update_configuration"[0] == 'u' && "update_endpoint_service"[0] == 'u';
  }

  // ----- From the document to the dispatch -----

  /**
    For a route element r of a server element e: the request handler runs only
    if the server has no auth element, or the route's required text, folded to
    lower case, says no, or the handler named in the server's auth element ran
    first and left the request authenticated and, where both the route and the
    server's auth have an authorization element, the handler named there then
    ran and left it authorized.
   */
  ghost predicate AllowedByDocument(e: Element, r: Element, trace: seq<Event>) {
    || FirstChild(e, "auth").None?
    || (ProtocolParser.RequiredText(r).Some? && ProtocolParser.SaysNo(ProtocolParser.RequiredText(r).value))
    || var auth := FirstChild(e, "auth").value;
       && |trace| >= 2
       && Passed(trace[0], Authentication, ChildText(auth, "handler"), AUTHENTICATED)
       && (RouteHasAuthorization(r) && FirstChild(auth, "authorization").Some? ==>
             && |trace| >= 3
             && Passed(trace[1], Authorizing, ChildText(FirstChild(auth, "authorization").value, "handler"),
                       AUTHORIZED))
  }

  predicate RouteHasAuthorization(r: Element) {
    FirstChild(r, "auth").Some? && FirstChild(FirstChild(r, "auth").value, "authorization").Some?
  }

  lemma DispatchFollowsDocument(e: Element, r: Element, reader: Reader, junkPort: int, trace: seq<Event>, i: nat)
    requires ProtocolParser.RouteCheck(r).Go?
    requires forall x :: reader.markup(x) != ""
    requires var route := ProtocolParser.RouteFrom(r, FirstChild(e, "auth").Some?, reader);
             Gate(route, ResolveAuth(ProtocolParser.ServerFrom(e, reader, junkPort).auth), trace)
    requires i < |trace| && trace[i].role == RequestHandler
    ensures AllowedByDocument(e, r, trace)
    ensures trace[i].handler == ChildText(r, "request_handler")
  {
    var route := ProtocolParser.RouteFrom(r, FirstChild(e, "auth").Some?, reader);
    var auth := ResolveAuth(ProtocolParser.AuthFrom(e, reader));
    assert i == Guards(route, auth) && |trace| == i + 1;
    if FirstChild(e, "auth").Some? {
      var text := ProtocolParser.RequiredText(r);
      if text.None? || !ProtocolParser.SaysNo(text.value) {
        assert Guarded(route, auth);
        assert Authenticated(route, auth, trace);
        if RouteHasAuthorization(r) && FirstChild(FirstChild(e, "auth").value, "authorization").Some? {
          assert NeedsAuthorization(route, auth);
          assert Authorized(route, auth, trace);
        }
      }
    }
  }

  /** The server has auth, and the route does not take itself out of it. */
  predicate GuardedByDocument(e: Element, r: Element) {
    FirstChild(e, "auth").Some? && !ProtocolParser.ElementSaysNo(r)
  }

  /** Besides, both have an authorization element. */
  predicate AuthorizedByDocument(e: Element, r: Element) {
    && GuardedByDocument(e, r) && RouteHasAuthorization(r)
    && FirstChild(FirstChild(e, "auth").value, "authorization").Some?
  }

  ghost predicate Dispatched(trace: seq<Event>, role: Role) {
    exists i :: 0 <= i < |trace| && trace[i].role == role
  }

  lemma DocumentGuards(e: Element, r: Element, reader: Reader, junkPort: int)
    requires ProtocolParser.RouteCheck(r).Go? && forall x :: reader.markup(x) != ""
    ensures var route := ProtocolParser.RouteFrom(r, FirstChild(e, "auth").Some?, reader);
            var auth := ResolveAuth(ProtocolParser.ServerFrom(e, reader, junkPort).auth);
            && (Guarded(route, auth) <==> GuardedByDocument(e, r))
            && (NeedsAuthorization(route, auth) <==> AuthorizedByDocument(e, r))
            && (GuardedByDocument(e, r) ==> auth.value.handler == ChildText(FirstChild(e, "auth").value, "handler"))
            && (AuthorizedByDocument(e, r) ==>
                  auth.value.authorization.value.handler ==
                  ChildText(FirstChild(FirstChild(e, "auth").value, "authorization").value, "handler"))
  {
    ProtocolParser.RouteIsRead(r, FirstChild(e, "auth").Some?, reader);
  }

  /**
    The gate, exactly, from the document: for a route element r of a server
    element e that loads, and for every run of its closure.  The handler named
    in the server's auth element is dispatched if and only if that element is
    there and the route's required text is not a no; the one named for
    authorization if and only if both authorization elements are there as well
    and authentication passed; the request handler if and only if every guard
    that the document asks for passed.  An unguarded route is the request
    handler's dispatch alone.
   */
  lemma GateIsTheDocuments(e: Element, r: Element, reader: Reader, junkPort: int, trace: seq<Event>)
    requires ProtocolParser.RouteCheck(r).Go? && forall x :: reader.markup(x) != ""
    requires var route := ProtocolParser.RouteFrom(r, FirstChild(e, "auth").Some?, reader);
             Gate(route, ResolveAuth(ProtocolParser.ServerFrom(e, reader, junkPort).auth), trace)
    ensures trace != [] && (!GuardedByDocument(e, r) ==> |trace| == 1)
    ensures Dispatched(trace, Authentication) <==> GuardedByDocument(e, r)
    ensures GuardedByDocument(e, r) ==>
              trace[0].role == Authentication && trace[0].handler == ChildText(FirstChild(e, "auth").value, "handler")
    ensures Dispatched(trace, Authorizing) <==> AuthorizedByDocument(e, r) && Passes(trace[0], AUTHENTICATED)
    ensures AuthorizedByDocument(e, r) && Passes(trace[0], AUTHENTICATED) ==>
              && |trace| > 1 && trace[1].role == Authorizing
              && trace[1].handler ==
                ChildText(FirstChild(FirstChild(e, "auth").value, "authorization").value, "handler")
    ensures Dispatched(trace, RequestHandler) <==>
              && (GuardedByDocument(e, r) ==> Passes(trace[0], AUTHENTICATED))
              && (AuthorizedByDocument(e, r) ==> |trace| > 1 && Passes(trace[1], AUTHORIZED))
    ensures Dispatched(trace, RequestHandler) ==>
              trace[|trace| - 1].role == RequestHandler && trace[|trace| - 1].handler == ChildText(r, "request_handler")
  {
    var route := ProtocolParser.RouteFrom(r, FirstChild(e, "auth").Some?, reader);
    var auth := ResolveAuth(ProtocolParser.ServerFrom(e, reader, junkPort).auth);
    DocumentGuards(e, r, reader, junkPort);
    GateDispatches(route, auth, trace);
  }

  /** The dispatch returned and left the key true. */
  predicate Passes(event: Event, key: string) {
    event.after.Some? && IsTrue(event.after.value, key)
  }

  /** Who is dispatched, read off the guards. */
  lemma GateDispatches(route: Route, auth: Option<ResolvedAuth>, trace: seq<Event>)
    requires Gate(route, auth, trace)
    ensures trace != [] && (!Guarded(route, auth) ==> |trace| == 1)
    ensures Dispatched(trace, Authentication) <==> Guarded(route, auth)
    ensures Guarded(route, auth) ==> trace[0].role == Authentication && trace[0].handler == auth.value.handler
    ensures Dispatched(trace, Authorizing) <==> NeedsAuthorization(route, auth) && Passes(trace[0], AUTHENTICATED)
    ensures NeedsAuthorization(route, auth) && Passes(trace[0], AUTHENTICATED) ==>
              && |trace| > 1 && trace[1].role == Authorizing
              && trace[1].handler == auth.value.authorization.value.handler
    ensures Dispatched(trace, RequestHandler) <==>
              && (Guarded(route, auth) ==> Passes(trace[0], AUTHENTICATED))
              && (NeedsAuthorization(route, auth) ==> |trace| > 1 && Passes(trace[1], AUTHORIZED))
    ensures Dispatched(trace, RequestHandler) ==>
              trace[|trace| - 1].role == RequestHandler && trace[|trace| - 1].handler == route.requestHandler
  {
    var g := Guards(route, auth);
    assert Dispatched(trace, RequestHandler) <==> |trace| == g + 1 by {
      if |trace| == g + 1 {
        assert trace[g].role == RequestHandler;
      }
    }
    if g > 0 {
      assert trace[0].role == Authentication;
    }
    if g > 1 && |trace| > 1 {
      assert trace[1].role == Authorizing;
    }
  }
}
