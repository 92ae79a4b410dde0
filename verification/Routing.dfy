/** Choosing a route and dialling it: resolveRoute, ensurePlatformPAC and the dial loop of handleConnect in
    internal/proxy/handler.go. A PAC evaluator is its source; what it answers to a request is a parameter. */
module Routing {
  import opened Basics
  import R = Routes

  datatype Route = Direct | Proxies(addresses: seq<string>)

  /** What the platform reports; `pac` is empty when it reports none. */
  datatype ProxyInfo = ProxyInfo(pac: string, servers: seq<string>)

  /** What one request meets: the noproxy match, the platform's report (None on an error) and, for every PAC
      source, the answer of its evaluator to this request. */
  datatype Request = Request(noproxy: bool, platform: Option<ProxyInfo>, answer: string -> string)

  function PACRoute(result: string): Route {
    if R.Parsed(result) == [] then Direct else Proxies(R.Parsed(result))
  }

  function RouteOf(pac: Option<string>, servers: seq<string>, r: Request): Route {
    if r.noproxy then Direct
    else match pac
      case Some(source) => PACRoute(r.answer(source))
      case None =>
        if servers != [] then Proxies(servers)
        else match r.platform
          case None => Direct
          case Some(info) =>
            if info.pac != "" then PACRoute(r.answer(info.pac))
            else if info.servers != [] then Proxies(info.servers)
            else Direct
  }

  /** The PAC source after the request. */
  function PacAfter(pac: Option<string>, servers: seq<string>, r: Request): Option<string> {
    if r.noproxy || pac.Some? || servers != [] || r.platform.None? || r.platform.value.pac == "" then pac
    else Some(r.platform.value.pac)
  }

  class Server {
    const servers: seq<string>
    var pac: Option<string>

    constructor (servers: seq<string>, pac: Option<string>)
      ensures this.servers == servers && this.pac == pac
    {
      this.servers, this.pac := servers, pac;
    }

    method EnsurePlatformPAC(source: string) returns (p: string)
      modifies this
      ensures pac == Some(p) && p == (if old(pac).Some? then old(pac).value else source)
    {
      if pac.None? {
        pac := Some(source);
      }
      return pac.value;
    }

    method ResolveRoute(r: Request) returns (route: Route)
      modifies this
      ensures route == RouteOf(old(pac), servers, r)
      ensures pac == PacAfter(old(pac), servers, r)
    {
      if r.noproxy {
        return Direct;
      }
      if pac.Some? {
        var parsed := R.ParsePACResult(r.answer(pac.value));
        return if |parsed| == 0 then Direct else Proxies(parsed);
      }
      if |servers| > 0 {
        return Proxies(servers);
      }
      if r.platform.Some? {
        var info := r.platform.value;
        if info.pac != "" {
          var p := EnsurePlatformPAC(info.pac);
          var parsed := R.ParsePACResult(r.answer(p));
          return if |parsed| == 0 then Direct else Proxies(parsed);
        }
        if |info.servers| > 0 {
          return Proxies(info.servers);
        }
      }
      return Direct;
    }

    /** The CONNECT path up to the hijack: the upstream connection, or the error reported to the client.
        `dial` is the outcome of the attempt with each number. */
    method OpenTunnel(r: Request, dial: nat -> Dial) returns (upstream: Option<nat>, err: bool, tried: seq<string>)
      modifies this
      ensures pac == PacAfter(old(pac), servers, r)
      ensures Opened(RouteOf(old(pac), servers, r), dial, upstream, err, tried)
    {
      var route := ResolveRoute(r);
      RouteIsNeverEmpty(old(pac), servers, r);
      upstream, err, tried := DialRoute(route, dial);
    }
  }

  /** The dial loop. A route through no proxy at all would leave neither an upstream nor an error. */
  method DialRoute(route: Route, dial: nat -> Dial) returns (upstream: Option<nat>, err: bool, tried: seq<string>)
    ensures route == Proxies([]) ==> upstream.None? && !err && tried == []
    ensures route != Proxies([]) ==> Opened(route, dial, upstream, err, tried)
  {
    upstream, err, tried := None, false, [];
    if route.Direct? {
      match dial(0) {
        case Refused => err := true;
        case Connected(c) => upstream := Some(c);
      }
      return;
    }
    var addresses := route.addresses;
    for i := 0 to |addresses|
      invariant tried == addresses[..i]
      invariant forall j: nat :: j < i ==> dial(j).Refused?
      invariant upstream.None? && err == (i > 0)
    {
      tried := tried + [addresses[i]];
      match dial(i) {
        case Refused => upstream, err := None, true;
        case Connected(c) =>
          upstream, err := Some(c), false;
          break;
      }
    }
  }

  datatype Dial = Refused | Connected(conn: nat)

  /** An upstream exists exactly when there is no error; it is the first success, and the addresses tried are
      those of the route up to it. */
  ghost predicate Opened(route: Route, dial: nat -> Dial, upstream: Option<nat>, err: bool, tried: seq<string>) {
    && err == upstream.None?
    && match route
       case Direct => tried == [] && upstream == (if dial(0).Connected? then Some(dial(0).conn) else None)
       case Proxies(addresses) =>
         && tried != [] && tried <= addresses
         && (forall j: nat :: j < |tried| - 1 ==> dial(j).Refused?)
         && (upstream.Some? ==> dial(|tried| - 1) == Connected(upstream.value))
         && (upstream.None? ==> tried == addresses && dial(|tried| - 1).Refused?)
  }

  // ---------------------------------------------------------------- properties of routes

  /** Whatever the script, the configuration and the platform say, a route through proxies names at least one. */
  lemma RouteIsNeverEmpty(pac: Option<string>, servers: seq<string>, r: Request)
    ensures RouteOf(pac, servers, r).Proxies? ==> RouteOf(pac, servers, r).addresses != []
  {}

  ghost predicate NonEmpty(addresses: seq<string>) { forall i :: 0 <= i < |addresses| ==> addresses[i] != "" }

  lemma {:induction false} AddressesNonEmpty(fields: seq<string>)
    ensures NonEmpty(R.Addresses(fields))
  {
    if fields != [] {
      AddressesNonEmpty(fields[1..]);
    }
  }

  /** The configured or platform servers that decide the route, if any do. */
  function DecidingServers(pac: Option<string>, servers: seq<string>, r: Request): seq<string> {
    if r.noproxy || pac.Some? then []
    else if servers != [] then servers
    else if r.platform.None? || r.platform.value.pac != "" then []
    else r.platform.value.servers
  }

  /** No script answer yields an empty address: a route holds one exactly when the deciding server list does. */
  lemma AddressesNonEmptyIff(pac: Option<string>, servers: seq<string>, r: Request)
    ensures (RouteOf(pac, servers, r).Direct? || NonEmpty(RouteOf(pac, servers, r).addresses))
            <==> NonEmpty(DecidingServers(pac, servers, r))
  {
    forall result ensures PACRoute(result).Proxies? ==> NonEmpty(PACRoute(result).addresses) {
      AddressesNonEmpty(R.Fields(result));
    }
  }

  // ---------------------------------------------------------------- what decides the route

  predicate Discovers(servers: seq<string>, r: Request) {
    !r.noproxy && servers == [] && r.platform.Some? && r.platform.value.pac != ""
  }

  /** The evaluator of `source` decides: it is in place, or it is discovered because nothing is configured. */
  predicate PacDecides(pac: Option<string>, servers: seq<string>, r: Request, source: string) {
    !r.noproxy && (pac == Some(source) || (pac.None? && Discovers(servers, r) && r.platform.value.pac == source))
  }

  /** The script's entries are the route: every proxy it names, in its order, Direct when it names none. */
  lemma ScriptIsTheRoute(pac: Option<string>, servers: seq<string>, r: Request, source: string, es: seq<R.Entry>, raw: string)
    requires PacDecides(pac, servers, r, source)
    requires (forall j :: 0 <= j < |es| ==> R.EntryOk(es[j])) && raw == R.PrintAll(es) && r.answer(source) == R.Normalized(raw)
    ensures RouteOf(pac, servers, r) == if R.Targets(es) == [] then Direct else Proxies(R.Targets(es))
  {
    R.PipelineYieldsTargets(es, raw);
  }

  /** Whatever the evaluator answers, the route is the list of addresses in it. */
  lemma AnswerIsTheRoute(pac: Option<string>, servers: seq<string>, r: Request, source: string)
    requires PacDecides(pac, servers, r, source)
    ensures var addresses := R.Parsed(r.answer(source));
            RouteOf(pac, servers, r) == if addresses == [] then Direct else Proxies(addresses)
  {}

  /** Without a deciding evaluator: a noproxy match goes direct whatever else is known, configured servers come
      before what the platform reports, and the platform's servers count only when nothing else is known. */
  lemma OthersDecideInOrder(pac: Option<string>, servers: seq<string>, r: Request)
    ensures r.noproxy ==> RouteOf(pac, servers, r) == Direct
    ensures !r.noproxy && pac.None? && servers != [] ==> RouteOf(pac, servers, r) == Proxies(servers)
    ensures !r.noproxy && pac.None? && servers == [] && r.platform.Some? && r.platform.value.pac == "" && r.platform.value.servers != [] ==>
              RouteOf(pac, servers, r) == Proxies(r.platform.value.servers)
    ensures !r.noproxy && pac.None? && servers == [] && (r.platform.None? || r.platform.value == ProxyInfo("", [])) ==>
              RouteOf(pac, servers, r) == Direct
  {}

  /** A request changes the evaluator in place exactly when there is none and it discovers one. */
  lemma DiscoveryIff(pac: Option<string>, servers: seq<string>, r: Request)
    ensures PacAfter(pac, servers, r) == if pac.None? && Discovers(servers, r) then Some(r.platform.value.pac) else pac
  {}

  // ---------------------------------------------------------------- runs of requests

  function PacAfterAll(pac: Option<string>, servers: seq<string>, rs: seq<Request>): Option<string> {
    if rs == [] then pac
    else PacAfter(PacAfterAll(pac, servers, rs[..|rs| - 1]), servers, rs[|rs| - 1])
  }

  /** The first PAC discovered decides every later request, whatever the platform reports then. */
  lemma {:induction false} FirstDiscoveryWins(servers: seq<string>, rs: seq<Request>, i: nat, n: nat)
    requires i < n <= |rs| && Discovers(servers, rs[i]) && forall j :: 0 <= j < i ==> !Discovers(servers, rs[j])
    ensures PacAfterAll(None, servers, rs[..n]) == Some(rs[i].platform.value.pac)
    ensures n < |rs| && !rs[n].noproxy ==>
              PacDecides(PacAfterAll(None, servers, rs[..n]), servers, rs[n], rs[i].platform.value.pac)
    decreases n
  {
    assert rs[..n][..n - 1] == rs[..n - 1];
    if n == i + 1 {
      NothingDiscovered(servers, rs, i);
    } else {
      FirstDiscoveryWins(servers, rs, i, n - 1);
    }
  }

  lemma {:induction false} NothingDiscovered(servers: seq<string>, rs: seq<Request>, n: nat)
    requires n <= |rs| && forall j :: 0 <= j < n ==> !Discovers(servers, rs[j])
    ensures PacAfterAll(None, servers, rs[..n]).None?
  {
    if n > 0 {
      assert rs[..n][..n - 1] == rs[..n - 1];
      NothingDiscovered(servers, rs, n - 1);
    }
  }
}
