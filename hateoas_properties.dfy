/**
 * Properties of the link resolver and the registry, stated over the
 * specification functions of module Hateoas.
 */
module HateoasProperties {
  import opened GoStrings
  import opened Hateoas

  /** A `Host` header without a colon is all host and no port. */
  lemma HostWithoutColon(r: Request)
    requires ':' !in r.host
    ensures HostOf(r) == (if r.xHost != "" then r.xHost else r.host)
    ensures PortOf(r) == (if r.xPort != "" then ":" + r.xPort else "")
    ensures r.xHost == "" && r.xPort == "" ==> BaseOf(r) == ProtoOf(r) + "://" + r.host
  {
  }

  /** A `Host` header `h:p` or `h:p:...` gives host `h` and port segment `":p"`;
      whatever follows the second colon is dropped. */
  lemma HostWithColon(r: Request, h: string, p: string, tail: string)
    requires ':' !in h && ':' !in p
    requires tail == "" || tail[0] == ':'
    requires r.host == h + ":" + p + tail
    ensures HostOf(r) == (if r.xHost != "" then r.xHost else h)
    ensures PortOf(r) == (if r.xPort != "" then ":" + r.xPort else ":" + p)
  {
    assert r.host == h + [':'] + (p + tail);
    BeforeConcat(h, ':', p + tail);
    if tail == "" {
      assert p + tail == p;
    } else {
      assert p + tail == p + [':'] + tail[1..];
      BeforeConcat(p, ':', tail[1..]);
    }
  }

  /** The scheme is a non-empty forwarded protocol verbatim; otherwise it is
      https exactly when the request came over TLS, and http otherwise. */
  lemma ProtoSelection(r: Request)
    ensures r.xProto != "" ==> ProtoOf(r) == r.xProto
    ensures r.xProto == "" ==> (ProtoOf(r) == "https" <==> r.tls)
    ensures r.xProto == "" ==> (ProtoOf(r) == "http" <==> !r.tls)
  {
  }

  /** Each forwarded header decides its own field only, and only when non-empty. */
  lemma ForwardedHeadersIndependent(r: Request, v: string)
    ensures HostOf(r.(xHost := v)) == (if v != "" then v else Before(r.host, ':'))
    ensures PortOf(r.(xHost := v)) == PortOf(r) && ProtoOf(r.(xHost := v)) == ProtoOf(r)
    ensures PortOf(r.(xPort := v)) == (if v != "" then ":" + v
                                       else if ':' in r.host then ":" + Before(After(r.host, ':'), ':')
                                       else "")
    ensures HostOf(r.(xPort := v)) == HostOf(r) && ProtoOf(r.(xPort := v)) == ProtoOf(r)
    ensures ProtoOf(r.(xProto := v)) == (if v != "" then v else if r.tls then "https" else "http")
    ensures HostOf(r.(xProto := v)) == HostOf(r) && PortOf(r.(xProto := v)) == PortOf(r)
  {
  }

  /** A resolved link keeps the requested relation; its href is empty exactly
      when the handler has no route, and otherwise starts with the base. */
  lemma ResolvedHref(handlers: map<string, HandlerEntry>, rel: string, handler: HandlerId,
                     r: Request, link: Link)
    requires Resolves(handlers, rel, handler, r, link)
    ensures link.rel == rel
    ensures link.href == "" <==> !Registered(handlers, handler)
    ensures Registered(handlers, handler) ==> BaseOf(r) <= link.href
    ensures !Registered(handlers, handler) ==> link.linkType == ""
  {
    if Registered(handlers, handler) {
      var k :| k in handlers && handlers[k].handler == handler &&
        link == Link(rel, BaseOf(r) + handlers[k].link.href, handlers[k].link.linkType);
      assert |link.href| >= |BaseOf(r)| >= 3;
    }
  }

  /** No two routes share a handler. */
  ghost predicate HandlersDistinct(handlers: map<string, HandlerEntry>) {
    forall k1, k2 :: k1 in handlers && k2 in handlers && handlers[k1].handler == handlers[k2].handler ==> k1 == k2
  }

  /** With every handler registered at most once, the map's visiting order
      does not matter: the resolved link is unique, so identical requests
      produce identical links. */
  lemma ResolutionDeterministic(handlers: map<string, HandlerEntry>, rel: string, handler: HandlerId,
                                r: Request, l1: Link, l2: Link)
    requires HandlersDistinct(handlers)
    requires Resolves(handlers, rel, handler, r, l1)
    requires Resolves(handlers, rel, handler, r, l2)
    ensures l1 == l2
  {
    if Registered(handlers, handler) {
      var k1 :| k1 in handlers && handlers[k1].handler == handler &&
        l1 == Link(rel, BaseOf(r) + handlers[k1].link.href, handlers[k1].link.linkType);
      var k2 :| k2 in handlers && handlers[k2].handler == handler &&
        l2 == Link(rel, BaseOf(r) + handlers[k2].link.href, handlers[k2].link.linkType);
      assert k1 == k2;
    }
  }

  /** Registering a relation again replaces its route: the handler it used to
      hold, registered nowhere else, can no longer be resolved. */
  lemma ReplacedHandlerUnregistered(handlers: map<string, HandlerEntry>, link: Link, handler: HandlerId)
    requires link.rel in handlers && handlers[link.rel].handler != handler
    requires forall k :: k in handlers && k != link.rel ==> handlers[k].handler != handlers[link.rel].handler
    ensures !Registered(handlers[link.rel := HandlerEntry(link, handler)], handlers[link.rel].handler)
  {
  }

  /** A handler registered once, under `link.rel`, resolves to that route:
      the base followed by the registered href, with the registered type. */
  lemma ResolveAfterRegister(handlers: map<string, HandlerEntry>, link: Link, handler: HandlerId,
                             rel: string, r: Request, l: Link)
    requires !Registered(handlers, handler)
    requires Resolves(handlers[link.rel := HandlerEntry(link, handler)], rel, handler, r, l)
    ensures l == Link(rel, BaseOf(r) + link.href, link.linkType)
  {
    var m := handlers[link.rel := HandlerEntry(link, handler)];
    assert m[link.rel].handler == handler;
    var k :| k in m && m[k].handler == handler &&
      l == Link(rel, BaseOf(r) + m[k].link.href, m[k].link.linkType);
    assert k == link.rel;
  }

  /** A plain `Host` header gives a base with no port segment. */
  lemma PlainHostExample()
    ensures BaseOf(Request("example.com", false, "", "", "")) == "http://example.com"
  {
    var r := Request("example.com", false, "", "", "");
    assert ':' !in r.host;
    HostWithoutColon(r);
  }

  /** A forwarded port is added even when `Host` has none. */
  lemma ForwardedPortExample()
    ensures BaseOf(Request("example.com", false, "", "8443", "")) == "http://example.com:8443"
  {
    var r := Request("example.com", false, "", "8443", "");
    assert ':' !in r.host;
    HostWithoutColon(r);
  }

  /** The self link of the index resource for a plain request. */
  lemma IndexSelfLinkExample()
    ensures BaseOf(Request("api.example.com", false, "", "", "")) + "/" == "http://api.example.com/"
  {
    var r := Request("api.example.com", false, "", "", "");
    assert ':' !in r.host;
    HostWithoutColon(r);
  }

  /** A proxy that forwards host and protocol but not the port: the port of
      `Host` survives next to the forwarded host. */
  lemma ProxyKeepsPort(r: Request, h: string, p: string)
    requires ':' !in h && ':' !in p && r.host == h + ":" + p
    requires r.xHost != "" && r.xProto != "" && r.xPort == ""
    ensures BaseOf(r) == r.xProto + "://" + r.xHost + ":" + p
  {
    assert r.host == h + ":" + p + "";
    HostWithColon(r, h, p, "");
  }

  /** A `Host` with a trailing colon keeps a bare `":"` as its port segment. */
  lemma TrailingColonKept(r: Request, h: string)
    requires ':' !in h && r.host == h + ":" && r.xHost == "" && r.xPort == ""
    ensures BaseOf(r) == ProtoOf(r) + "://" + h + ":"
  {
    assert r.host == h + ":" + "" + "";
    HostWithColon(r, h, "", "");
  }

  /** A bracketed IPv6 literal such as `[::1]:8080` is cut at its first colon. */
  lemma Ipv6LiteralCut(r: Request, rest: string)
    requires r.host == "[::" + rest && r.xHost == "" && r.xPort == ""
    ensures BaseOf(r) == ProtoOf(r) + "://[:"
  {
    assert r.host == "[" + ":" + "" + (":" + rest);
    HostWithColon(r, "[", "", ":" + rest);
  }
}
