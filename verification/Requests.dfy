/** How nginx takes a request in all the files it has loaded: it keeps one server block for each host,
    the first in the order in which it reads the files, and it looks upstreams up in all of them. */
module Requests {
  import opened Results
  import opened Text
  import opened ConfNames
  import opened Nginx
  import opened Template
  import opened Loading

  // ---------------------------------------------------------------- the server block of a host

  /** nginx reads the servers of the main file, and then the included files by name. */
  predicate Earlier(q: Path, p: Path) {
    q != p && (q == MAIN_CONF || (p != MAIN_CONF && LexLe(q, p)))
  }

  predicate HasHost(x: Syntax, c: Content, host: string) {
    exists k :: 0 <= k < |x.blocks(c)| && x.blocks(c)[k].server.host == host
  }

  /** Block `k` of file `p` is the first for the host; all others are ignored. */
  ghost predicate Serves(x: Syntax, view: Files, p: Path, k: nat, host: string) {
    && p in view && k < |x.blocks(view[p])| && x.blocks(view[p])[k].server.host == host
    && (forall l :: 0 <= l < k ==> x.blocks(view[p])[l].server.host != host)
    && (forall q :: q in view && Earlier(q, p) ==> !HasHost(x, view[q], host))
  }

  lemma EarlierOrder(p: Path, q: Path)
    ensures p != q ==> Earlier(p, q) || Earlier(q, p)
    ensures !(Earlier(p, q) && Earlier(q, p))
  {
    LexTotal(p, q);
  }

  lemma EarlierTrans(p: Path, q: Path, r: Path)
    requires Earlier(p, q) && Earlier(q, r)
    ensures Earlier(p, r)
  {
    if p != MAIN_CONF && q != MAIN_CONF {
      LexTrans(p, q, r);
    }
    EarlierOrder(p, q);
  }

  lemma ServesOnce(x: Syntax, view: Files, p: Path, k: nat, q: Path, l: nat, host: string)
    requires Serves(x, view, p, k, host) && Serves(x, view, q, l, host)
    ensures p == q && k == l
  {
    EarlierOrder(p, q);
    assert HasHost(x, view[p], host) && HasHost(x, view[q], host);
  }

  lemma {:induction false} EarliestOf(paths: set<Path>) returns (p: Path)
    requires paths != {}
    ensures p in paths && forall q :: q in paths ==> !Earlier(q, p)
  {
    var r :| r in paths;
    var rest := paths - {r};
    assert paths == rest + {r};
    EarlierOrder(r, r);
    p := r;
    if rest != {} {
      var m := EarliestOf(rest);
      p := EarlierOf(rest, m, r);
    }
  }

  /** The earlier of a new path and of the earliest of others. */
  lemma EarlierOf(rest: set<Path>, m: Path, r: Path) returns (p: Path)
    requires m in rest && forall q :: q in rest ==> !Earlier(q, m)
    ensures p == m || p == r
    ensures forall q :: q in rest + {r} ==> !Earlier(q, p)
  {
    EarlierOrder(r, m);
    EarlierOrder(r, r);
    if Earlier(r, m) {
      p := r;
      forall q | q in rest ensures !Earlier(q, r) {
        if Earlier(q, r) {
          EarlierTrans(q, r, m);
        }
      }
    } else {
      p := m;
    }
  }

  lemma {:induction false} FirstBlockOf(blocks: seq<Block>, host: string, k: nat) returns (l: nat)
    requires k < |blocks| && blocks[k].server.host == host
    ensures l <= k && blocks[l].server.host == host && forall n :: 0 <= n < l ==> blocks[n].server.host != host
  {
    l := k;
    if n :| 0 <= n < k && blocks[n].server.host == host {
      l := FirstBlockOf(blocks, host, n);
    }
  }

  /** A host that has a server block is served by it or by an earlier one. */
  lemma SomeServes(x: Syntax, view: Files, p: Path, k: nat, host: string) returns (q: Path, l: nat)
    requires p in view && k < |x.blocks(view[p])| && x.blocks(view[p])[k].server.host == host
    ensures Serves(x, view, q, l, host)
    ensures Earlier(q, p) || (q == p && l <= k)
  {
    var paths := set r | r in view && HasHost(x, view[r], host);
    assert p in paths;
    q := EarliestOf(paths);
    EarlierOrder(p, q);
    var n: nat := k;
    if q != p {
      n :| n < |x.blocks(view[q])| && x.blocks(view[q])[n].server.host == host;
    }
    l := FirstBlockOf(x.blocks(view[q]), host, n);
  }

  // ---------------------------------------------------------------- where a request goes

  /** A place of the view that defines an upstream of that name. */
  predicate Place(x: Syntax, view: Files, p: Path, i: nat, name: string) {
    p in view && i < |x.Defines(view[p])| && x.Defines(view[p])[i].name == name
  }

  /** Where the server block sends a request: a proxied name is an upstream wherever it is defined. */
  ghost predicate Ends(x: Syntax, view: Files, server: ServerBlock, choose: Chooser, route: Route) {
    var at := choose(Patterns(server.locations));
    if at >= |server.locations| then route == NoLocation
    else
      match server.locations[at].handler
      case Return301(to) => route == Redirected(to)
      case ProxyPass(scheme, name) =>
        if exists p: Path, i: nat :: Place(x, view, p, i, name) then
          exists p: Path, i: nat :: Place(x, view, p, i, name) && route == Balanced(x.Defines(view[p])[i].servers)
        else route == External(scheme, name)
  }

  /** Where a request for the host goes. */
  ghost predicate Goes(x: Syntax, view: Files, host: string, choose: Chooser, route: Route) {
    exists p: Path, k: nat :: Serves(x, view, p, k, host) && Ends(x, view, x.blocks(view[p])[k].server, choose, route)
  }

  /** In a configuration that nginx has accepted, it goes to one place. */
  lemma GoesOnce(x: Syntax, view: Files, host: string, choose: Chooser, route: Route, other: Route)
    requires OneDefinition(x, view) && Goes(x, view, host, choose, route) && Goes(x, view, host, choose, other)
    ensures route == other
  {
    var p: Path, k: nat :| Serves(x, view, p, k, host) && Ends(x, view, x.blocks(view[p])[k].server, choose, route);
    var q: Path, l: nat :| Serves(x, view, q, l, host) && Ends(x, view, x.blocks(view[q])[l].server, choose, other);
    ServesOnce(x, view, p, k, q, l, host);
    EndsOnce(x, view, x.blocks(view[p])[k].server, choose, route, other);
  }

  lemma EndsOnce(x: Syntax, view: Files, server: ServerBlock, choose: Chooser, route: Route, other: Route)
    requires OneDefinition(x, view) && Ends(x, view, server, choose, route) && Ends(x, view, server, choose, other)
    ensures route == other
  {
    var at := choose(Patterns(server.locations));
    if at < |server.locations| && server.locations[at].handler.ProxyPass? {
      var name := server.locations[at].handler.name;
      if exists p: Path, i: nat :: Place(x, view, p, i, name) {
        var p: Path, i: nat :| Place(x, view, p, i, name) && route == Balanced(x.Defines(view[p])[i].servers);
        var q: Path, l: nat :| Place(x, view, q, l, name) && other == Balanced(x.Defines(view[q])[l].servers);
        SamePlace(x, view, p, q, i, l);
      }
    }
  }

  /** What a file says of a request that it balances itself holds in the whole view. */
  lemma EndsInFile(x: Syntax, view: Files, p: Path, server: ServerBlock, choose: Chooser, addresses: seq<string>)
    requires p in view && FollowServer(x.Defines(view[p]), server, choose) == Balanced(addresses)
    ensures Ends(x, view, server, choose, Balanced(addresses))
  {
    var us := x.Defines(view[p]);
    var name := server.locations[choose(Patterns(server.locations))].handler.name;
    FindUpstreamIn(us, name);
    var u := FindUpstream(us, name).value;
    var i :| 0 <= i < |us| && us[i] == u;
    assert Place(x, view, p, i, name);
  }

  lemma {:induction false} FindUpstreamIn(us: seq<Upstream>, name: string)
    ensures FindUpstream(us, name).Some? ==> FindUpstream(us, name).value in us && FindUpstream(us, name).value.name == name
  {
    if us != [] {
      FindUpstreamIn(us[1..], name);
      assert us == [us[0]] + us[1..];
    }
  }
}
