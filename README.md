# go-hateoas link generation, modelled in Dafny

The server returns one JSON resource, a `Probe`. Each `Probe` carries HATEOAS links. This project models the part of `main.go` that builds those links:

- **Handler registry** (`addHandler`). The `Hateoas.Registry` class holds the process-wide map from relation name to `HandlerEntry`. Each entry is a host-relative `Link` template plus the handler's identity. `AddHandler` updates that map in place. A later registration of the same relation replaces the earlier one.
- **Link resolver** (`createLink`). `Hateoas.Registry.CreateLink` follows the Go code step by step:
  - it splits `Host` with `strings.Split(_, ":")`;
  - it picks `http` or `https` from TLS;
  - it applies the non-empty `x-forwarded-host`, `x-forwarded-port` and `x-forwarded-proto` headers;
  - it composes `proto://host[:port]`;
  - it scans the registry for the handler and visits the keys in an arbitrary order, because Go's map order is unspecified.

  Its contract ties the result to a field-by-field specification: `HostOf`, `PortOf`, `ProtoOf` and `BaseOf`. The ghost predicate `Resolves` then says which links are allowed. If the handler is registered, the result is any of its routes, prefixed with the base and renamed to the requested relation. Otherwise it is a link that carries only the relation.
- **Index resource** (`index`, `main`). `Registry.Index` builds the `Probe` with id 123, text `"Text"` and one `"self"` link. `Startup` registers the index route the way `main` does. `ServeIndex` proves the end-to-end result: `Probe(123, "Text", [Link("self", BaseOf(r) + "/", "GET")])`.

`GoStrings` models the one library function that the resolver's logic depends on, `strings.Split` with a one-character separator. It is built the way Go builds it, by repeated first-occurrence search. `strings.Join` is its inverse, and the model proves the round trip in both directions.

Modelling choices:
- A handler is an `int` identity (`HandlerId`). The Go code compares `fmt.Sprintf("%v", handler)` strings, which print function addresses. The model replaces that comparison with identity equality.
- A request is `Request(host, tls, xHost, xPort, xProto)`. An absent header is the empty string, which is what `Header.Get` returns for it.

Behaviours of the code that a reader might not expect:
- A `Host` ending in a colon (`host:`) gives the port segment `":"`. It is not omitted. See `TrailingColonKept`.
- When several entries hold the handler, the code returns whichever one the map yields first. This is not a fixed first entry: `Resolves` allows any of them. `ResolutionDeterministic` proves the result is unique when no handler is registered twice, which is the case after `Startup`.
- Registry hrefs are not checked to be host-relative paths. The resolver prepends the base to whatever href was registered.

## Model

| member | source | states |
|---|---|---|
| `GoStrings.Split` | main.go:58 | `strings.Split(s, ":")` returns at least one piece, and no piece contains the separator |
| `GoStrings.JoinSplit` | main.go:58 | joining the pieces of `Split` with the separator gives back the input exactly |
| `GoStrings.SplitJoin` | main.go:58 | splitting a join of separator-free pieces gives back those pieces |
| `GoStrings.SplitSingleton` | main.go:59 | `Split` returns exactly one piece iff the separator does not occur (the `len(spl) == 1` test) |
| `GoStrings.SplitLeading` | main.go:62-63 | piece 0 is the text before the first separator; when a separator occurs, piece 1 is the text between the first and the second separator (or the end) |
| `Hateoas.Registry.constructor` | main.go:30 | the registry starts empty and keyed by relation |
| `Hateoas.Registry.AddHandler` | main.go:49-51 | the map gains or replaces the key `link.Rel` with `{link, handler}`; every other key is unchanged; the handler is then registered; no other handler becomes registered; entries stay keyed by their own relation |
| `Hateoas.Registry.CreateLink` | main.go:55-86 | the result has the requested rel. The base is `proto + "://" + host + port` (`BaseOf`). If some entry holds the handler, the href is `BaseOf(r)` followed by that entry's href, and the type is that entry's type. If no entry holds it, the result is `Link{rel, "", ""}` |
| `Hateoas.Registry.Index` | main.go:37-39 | the probe has id 123, text "Text" and exactly one link, the "self" link that the resolver gives for the index handler |
| `Hateoas.Startup` | main.go:33 | a fresh registry whose only entry is "index", with the template `{index, /, GET}` and the index handler |
| `Hateoas.ServeIndex` | main.go:33-39 | after startup, the index resource is `Probe(123, "Text", [Link("self", base + "/", "GET")])` |
| `HateoasProperties.HostWithoutColon` | main.go:58-60 | a `Host` without a colon is entirely host with no port segment, unless a forwarded header overrides that field; with neither header, the base is `proto://Host` |
| `HateoasProperties.HostWithColon` | main.go:58-64 | for `Host` = `h:p` or `h:p:…`, the host is `h` and the port is `":p"`, and later pieces are dropped; a non-empty `x-forwarded-host` or `x-forwarded-port` replaces its field |
| `HateoasProperties.ProtoSelection` | main.go:65-77 | a non-empty `x-forwarded-proto` is taken verbatim; otherwise the scheme is https exactly under TLS and http exactly without it |
| `HateoasProperties.ForwardedHeadersIndependent` | main.go:69-77 | each forwarded header changes only its own field, and only when non-empty |
| `HateoasProperties.ResolvedHref` | main.go:79-85 | a resolved link keeps the requested rel; its href is empty iff the handler is unregistered; otherwise it starts with the base; an unresolved link has an empty type |
| `HateoasProperties.ResolveAfterRegister` | main.go:79-82 | a handler that was unregistered and is then registered once under `link.Rel` resolves to exactly `Link{rel, base + link.Href, link.Type}` |
| `HateoasProperties.ResolutionDeterministic` | main.go:79-84 | when no handler is registered under two relations, the map's iteration order cannot change the resolved link |
| `HateoasProperties.ReplacedHandlerUnregistered` | main.go:51 | re-registering a relation with another handler makes the replaced handler unresolvable if no other relation holds it |
| `HateoasProperties.PlainHostExample` | main.go:58-60 | `Host: example.com` over plain HTTP gives the base `http://example.com` |
| `HateoasProperties.ForwardedPortExample` | main.go:72-74 | `x-forwarded-port: 8443` adds `:8443` even when `Host` has no port |
| `HateoasProperties.IndexSelfLinkExample` | main.go:78-82 | `Host: api.example.com` gives the index self href `http://api.example.com/` |
| `HateoasProperties.ProxyKeepsPort` | main.go:69-78 | with forwarded host and forwarded proto but no forwarded port, the base is `xproto://xhost:p`, keeping the port from `Host` |
| `HateoasProperties.TrailingColonKept` | main.go:58-64 | `Host: h:` gives the base `proto://h:` with a bare colon |
| `HateoasProperties.Ipv6LiteralCut` | main.go:58-64 | a `Host` that starts with `[::`, such as `[::1]:8080`, gives the base `proto://[:` |

## Left out

- `http.ListenAndServe` (main.go:34) is listener plumbing, so it is not modelled.
- `http.HandleFunc` (main.go:52) is route binding, so it is not modelled. This includes its panic on an empty pattern or a pattern registered twice. As a result, `AddHandler` models the map update only.
- `json.Marshal`, the HTTP 500 path, the `Content-Type` header and `w.Write` (main.go:40-46) are serialisation and response I/O. `Index` ends at the built `Probe`.
- `fmt.Sprintf("%v", handler)` (main.go:79-81) is replaced by equality of handler identities.
- The model leaves out `Header.Get`'s case-insensitive canonical keys and its choice of the first of several header values. Each header is a single string, and absent means empty.
- TLS connection state is reduced to a `bool`.
- The model does not cover concurrent reads of the registry by request goroutines. Registration happens only at startup, before any request is served.
- `Probe.ID` is a Go `int64`. The model uses an unbounded `int`, because the only value ever stored is 123.
