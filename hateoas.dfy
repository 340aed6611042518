/**
 * The link-generation core of the server: the handler registry, the link
 * resolver that turns a handler back into an absolute URL for the request
 * at hand, and the assembly of the one resource the server returns.
 */
module Hateoas {
  import opened GoStrings

  /** One navigable action of a resource; `linkType` is the HTTP method. */
  datatype Link = Link(rel: string, href: string, linkType: string)

  /** A handler function, known only by its identity. */
  type HandlerId = int

  /** A registered route: its host-relative link template and its handler. */
  datatype HandlerEntry = HandlerEntry(link: Link, handler: HandlerId)

  /** The resource served by the index route. */
  datatype Probe = Probe(id: int, text: string, links: seq<Link>)

  /** What the resolver reads of an incoming request. Each forwarded
      header is the empty string when the request does not carry it. */
  datatype Request = Request(host: string, tls: bool, xHost: string, xPort: string, xProto: string)

  /** The identity of the `index` handler. */
  const IndexHandler: HandlerId := 0

  // Specification of the URL base, one field at a time.

  /** The host: the forwarded host when given, else the `Host` header up to its first colon. */
  function HostOf(r: Request): (s: string) {
    if r.xHost != "" then r.xHost else Before(r.host, ':')
  }

  /** The port segment: `":"` and the forwarded port when given, else `":"` and the text
      between the first and the second colon of `Host`, else nothing. */
  function PortOf(r: Request): (s: string) {
    if r.xPort != "" then ":" + r.xPort
    else if ':' in r.host then ":" + Before(After(r.host, ':'), ':')
    else ""
  }

  /** The scheme: the forwarded protocol when given, else https exactly under TLS. */
  function ProtoOf(r: Request): (s: string) {
    if r.xProto != "" then r.xProto else if r.tls then "https" else "http"
  }

  /** The absolute base every resolved link starts with. */
  function BaseOf(r: Request): (s: string) {
    ProtoOf(r) + "://" + HostOf(r) + PortOf(r)
  }

  /** Some registered route has `handler` as its handler. */
  ghost predicate Registered(handlers: map<string, HandlerEntry>, handler: HandlerId) {
    exists k :: k in handlers && handlers[k].handler == handler
  }

  /** `link` is a result the resolver may give: any registered route of the
      handler, made absolute and renamed to `rel`; or a bare `rel` when the
      handler has no route. */
  ghost predicate Resolves(handlers: map<string, HandlerEntry>, rel: string, handler: HandlerId,
                           r: Request, link: Link)
  {
    if Registered(handlers, handler) then
      exists k :: k in handlers && handlers[k].handler == handler &&
        link == Link(rel, BaseOf(r) + handlers[k].link.href, handlers[k].link.linkType)
    else
      link == Link(rel, "", "")
  }

  /** The registry entries are keyed by the relation of their own link. */
  ghost predicate KeyedByRel(handlers: map<string, HandlerEntry>) {
    forall k :: k in handlers ==> handlers[k].link.rel == k
  }

  /** The process-wide handler registry. */
  class Registry {
    var handlers: map<string, HandlerEntry>

    /** Records that every entry is stored under its own relation, as
        `AddHandler` keeps it; no resolution result depends on it. */
    ghost predicate Valid()
      reads this
    {
      KeyedByRel(handlers)
    }

    constructor ()
      ensures Valid() && handlers == map[]
    {
      handlers := map[];
    }

    /** Registers `handler` under `link.rel`; a later registration of the
        same relation replaces the earlier one. */
    method AddHandler(link: Link, handler: HandlerId)
      requires Valid()
      modifies this
      ensures Valid()
      ensures handlers == old(handlers)[link.rel := HandlerEntry(link, handler)]
      ensures handlers.Keys == old(handlers).Keys + {link.rel}
      ensures forall k :: k in old(handlers) && k != link.rel ==> k in handlers && handlers[k] == old(handlers)[k]
      ensures Registered(handlers, handler)
      ensures forall g :: g != handler && Registered(handlers, g) ==> old(Registered(handlers, g))
    {
      handlers := handlers[link.rel := HandlerEntry(link, handler)];
      assert handlers[link.rel].handler == handler;
      forall g | g != handler && Registered(handlers, g)
        ensures old(Registered(handlers, g))
      {
        var k :| k in handlers && handlers[k].handler == g;
        assert k in old(handlers) && old(handlers)[k].handler == g;
      }
    }

    /** The link for `handler`, made absolute for request `r` and named `rel`. */
    method CreateLink(rel: string, handler: HandlerId, r: Request) returns (link: Link)
      ensures link.rel == rel
      ensures Resolves(handlers, rel, handler, r, link)
    {
      var host := "";
      var port := "";
      var spl := Split(r.host, ':');
      SplitSingleton(r.host, ':');
      SplitLeading(r.host, ':');
      if |spl| == 1 {
        host := r.host;
      } else {
        host := spl[0];
        port := ":" + spl[1];
      }
      var proto := "http";
      if r.tls {
        proto := "https";
      }
      if r.xHost != "" {
        host := r.xHost;
      }
      if r.xPort != "" {
        port := ":" + r.xPort;
      }
      if r.xProto != "" {
        proto := r.xProto;
      }
      var base := proto + "://" + host + port;
      assert base == BaseOf(r);

      // Go visits the map in an unspecified order: pick any unvisited key.
      var unvisited := handlers.Keys;
      while unvisited != {}
        invariant unvisited <= handlers.Keys
        invariant forall k :: k in handlers && k !in unvisited ==> handlers[k].handler != handler
        decreases unvisited
      {
        var k :| k in unvisited;
        var v := handlers[k];
        if v.handler == handler {
          link := Link(rel, base + v.link.href, v.link.linkType);
          return;
        }
        unvisited := unvisited - {k};
      }
      link := Link(rel, "", "");
    }

    /** The index handler's resource: fixed content and a single "self" link. */
    method Index(r: Request) returns (p: Probe)
      ensures p.id == 123 && p.text == "Text" && |p.links| == 1
      ensures Resolves(handlers, "self", IndexHandler, r, p.links[0])
    {
      p := Probe(123, "Text", []);
      var self := CreateLink("self", IndexHandler, r);
      p := p.(links := p.links + [self]);
    }
  }

  /** Startup: a fresh registry holding the index route only. */
  method Startup() returns (reg: Registry)
    ensures fresh(reg) && reg.Valid()
    ensures reg.handlers == map["index" := HandlerEntry(Link("index", "/", "GET"), IndexHandler)]
  {
    reg := new Registry();
    reg.AddHandler(Link("index", "/", "GET"), IndexHandler);
  }

  /** A request to the index route right after startup. */
  method ServeIndex(r: Request) returns (p: Probe)
    ensures p == Probe(123, "Text", [Link("self", BaseOf(r) + "/", "GET")])
  {
    var reg := Startup();
    assert reg.handlers["index"].handler == IndexHandler;
    p := reg.Index(r);
  }
}
