/** The upstream, server and location structure that `rootfs/etc/nginx/template/server.tmpl` renders,
    and how nginx follows a request through it. */
module Template {
  import opened Results
  import opened Addresses
  import opened Ingresses
  import opened Translate

  datatype Upstream = Upstream(name: string, servers: seq<string>)

  datatype Handler =
    | Return301(host: string)
    | ProxyPass(scheme: string, name: string)

  datatype Location = Location(pattern: string, rewriteFrom: string, rewriteTo: string, handler: Handler)

  /** A directive of the access module. */
  datatype Access = Allow(address: string) | AllowAll | Deny(address: string) | DenyAll

  datatype ServerBlock = ServerBlock(
    host: string, tls: SslCert, access: seq<Access>, locations: seq<Location>)

  /** What one execution of the template adds to the file. */
  datatype Block = Block(upstreams: seq<Upstream>, server: ServerBlock)

  function UpstreamName(b: Backend): string {
    b.name + "-" + b.ingName + "-" + b.namespace
  }

  function UpstreamOf(b: Backend): Upstream {
    Upstream(UpstreamName(b), [Address(b.name, b.namespace, b.port)])
  }

  function RenderUpstreams(ann: Annotations, s: Server): seq<Upstream> {
    if ann.useWeight then [Upstream(ann.weighted.upstream, ann.weighted.servers)]
    else seq(|s.paths|, j requires 0 <= j < |s.paths| => UpstreamOf(s.paths[j]))
  }

  function BackendLocation(ann: Annotations, b: Backend): Location {
    Location(b.path,
             if ann.rewrite.target != "" then "^" + b.targetPath else "",
             ann.rewrite.target,
             ProxyPass("http", if ann.useWeight then ann.weighted.upstream else UpstreamName(b)))
  }

  /** The locations in front of the backends: the redirect and the external proxy. */
  function ExtraLocations(ann: Annotations): seq<Location> {
    (if ann.redirectPath != "" then [Location(ann.redirectPath, "", "", Return301(ann.redirectHost))] else [])
    + (if ann.proxy.path != "" then
         [Location(ann.proxy.path,
                   if ann.proxy.target != "" then "^" + ann.proxy.targetPath else "",
                   ann.proxy.target,
                   ProxyPass(if ann.proxy.ssl then "https" else "http", ann.proxy.host))]
       else [])
  }

  function BackendLocations(ann: Annotations, s: Server): seq<Location> {
    seq(|s.paths|, j requires 0 <= j < |s.paths| => BackendLocation(ann, s.paths[j]))
  }

  function Allowances(list: seq<string>): seq<Access> {
    seq(|list|, i requires 0 <= i < |list| => Allow(list[i]))
  }

  function Denials(list: seq<string>): seq<Access> {
    seq(|list|, i requires 0 <= i < |list| => Deny(list[i]))
  }

  /** The allow list closes with `deny all`, the deny list with `allow all`; a list without addresses
      is left out. */
  function RenderAccess(ann: Annotations): seq<Access> {
    (if ann.allow != [] then Allowances(ann.allow) + [DenyAll] else [])
    + (if ann.deny != [] then Denials(ann.deny) + [AllowAll] else [])
  }

  function RenderServer(ann: Annotations, s: Server): Block {
    Block(RenderUpstreams(ann, s),
          ServerBlock(s.host, s.tls, RenderAccess(ann), ExtraLocations(ann) + BackendLocations(ann, s)))
  }

  function Render(ann: Annotations, servers: seq<Server>): seq<Block> {
    seq(|servers|, i requires 0 <= i < |servers| => RenderServer(ann, servers[i]))
  }

  /** `generateConfigureBytes`: the blocks of the servers, one after the other. */
  method GenerateConfigure(ann: Annotations, servers: seq<Server>) returns (file: seq<Block>)
    ensures file == Render(ann, servers)
  {
    file := [];
    for i := 0 to |servers|
      invariant |file| == i
      invariant forall k :: 0 <= k < i ==> file[k] == RenderServer(ann, servers[k])
    {
      file := file + [RenderServer(ann, servers[i])];
    }
    assert |Render(ann, servers)| == |file|;
    assert forall k :: 0 <= k < |file| ==> file[k] == Render(ann, servers)[k];
  }

  // ---------------------------------------------------------------- how nginx follows a request

  /** All upstreams of the file, in order. */
  function Upstreams(file: seq<Block>): seq<Upstream> {
    if file == [] then [] else file[0].upstreams + Upstreams(file[1..])
  }

  ghost predicate Distinct<T(!new)>(s: seq<T>) {
    forall i, j :: 0 <= i < j < |s| ==> s[i] != s[j]
  }

  function Names(upstreams: seq<Upstream>): seq<string> {
    seq(|upstreams|, i requires 0 <= i < |upstreams| => upstreams[i].name)
  }

  /** nginx refuses a configuration that defines an upstream name twice. */
  ghost predicate UniqueUpstreams(file: seq<Block>) {
    Distinct(Names(Upstreams(file)))
  }

  function FindUpstream(upstreams: seq<Upstream>, name: string): Option<Upstream> {
    if upstreams == [] then None
    else if upstreams[0].name == name then Some(upstreams[0])
    else FindUpstream(upstreams[1..], name)
  }

  function FindServer(file: seq<Block>, host: string): Option<ServerBlock> {
    if file == [] then None
    else if file[0].server.host == host then Some(file[0].server)
    else FindServer(file[1..], host)
  }

  function Patterns(locations: seq<Location>): seq<string> {
    seq(|locations|, i requires 0 <= i < |locations| => locations[i].pattern)
  }

  /** Where a request ends. */
  datatype Route =
    | NoServer
    | NoLocation
    | Redirected(host: string)
    | Balanced(servers: seq<string>)          // an upstream of this file
    | External(scheme: string, host: string)

  /** Chooses a location by its position among the patterns; a position outside means none. */
  type Chooser = seq<string> -> nat

  /** Where a server block sends a request, in a file with these upstreams. */
  function FollowServer(upstreams: seq<Upstream>, server: ServerBlock, choose: Chooser): Route {
    var i := choose(Patterns(server.locations));
    if i >= |server.locations| then NoLocation
    else
      match server.locations[i].handler
      case Return301(to) => Redirected(to)
      case ProxyPass(scheme, name) =>
        match FindUpstream(upstreams, name)
        case Some(u) => Balanced(u.servers)
        case None => External(scheme, name)
  }

  function Follow(file: seq<Block>, host: string, choose: Chooser): Route {
    match FindServer(file, host)
    case None => NoServer
    case Some(server) => FollowServer(Upstreams(file), server, choose)
  }
}
