// The library audit (Audit-StockDependencies): which file a linker namespace
// gives for a library name, following the links that permit it through possibly
// cyclic namespaces, and the closure of needed libraries from one root.

module Linker {
  import opened Options

  /** A link to another namespace: it passes every library on, or those listed. */
  datatype Link = Link(to: string, allowAll: bool, shared: seq<string>) {
    predicate Permits(name: string) { to != "" && (allowAll || name in shared) }
  }

  datatype Space = Space(paths: seq<string>, links: seq<Link>)

  /** What resolving a path gives: symlinks may run in circles. */
  datatype Resolved = Absent | At(path: string) | Cycle

  datatype Elf = Elf(bits: int, needed: seq<string>)

  /** The configuration, and the extracted files. Reading a file may fail, when
      it is not the one the inventory lists. */
  datatype System = System(
    spaces: map<string, Space>,
    resolve: (string, int, string) -> Resolved,
    elf: map<string, Elf>)
  {
    function SpaceOf(ns: string): Space {
      if ns in spaces then spaces[ns] else Space([], [])
    }

    /** One search directory for one library: what looking there ends in. */
    function Look(dir: string, bits: int, name: string): (r: Found) {
      if dir == "" then NotFound
      else match resolve(dir, bits, name)
        case Absent => NotFound
        case Cycle => Raised
        case At(path) =>
          if path !in elf then Raised else if elf[path].bits == bits then Hit(path, "") else NotFound
    }
  }

  datatype Found = NotFound | Raised | Hit(path: string, ns: string)

  // ---- the search ----

  function TryPaths(s: System, paths: seq<string>, ns: string, bits: int, name: string): (r: Found) {
    if paths == [] then NotFound
    else match s.Look(paths[0], bits, name)
      case Hit(path, _) => Hit(path, ns)
      case Raised => Raised
      case NotFound => TryPaths(s, paths[1..], ns, bits, name)
  }

  function Unvisited(s: System, visited: seq<string>): set<string> {
    s.spaces.Keys - set n | n in visited
  }

  /** The search: the namespace's own directories first, then its links in order.
      A namespace on the current path is not entered again. */
  function FindLibrary(s: System, name: string, ns: string, bits: int, visited: seq<string>): (r: Found)
    decreases |Unvisited(s, visited)|, 1, 0
  {
    if ns in visited then NotFound
    else
      var here := TryPaths(s, s.SpaceOf(ns).paths, ns, bits, name);
      if here != NotFound then here
      else if ns in s.spaces then
        VisitShrinks(s, visited, ns);
        TryLinks(s, name, s.spaces[ns].links, bits, visited + [ns])
      else NotFound
  }

  function TryLinks(s: System, name: string, links: seq<Link>, bits: int, visited: seq<string>): (r: Found)
    decreases |Unvisited(s, visited)|, 2, |links|
  {
    if links == [] then NotFound
    else if !links[0].Permits(name) then TryLinks(s, name, links[1..], bits, visited)
    else
      var r := FindLibrary(s, name, links[0].to, bits, visited);
      if r != NotFound then r else TryLinks(s, name, links[1..], bits, visited)
  }

  lemma VisitShrinks(s: System, visited: seq<string>, ns: string)
    requires ns !in visited && ns in s.spaces
    ensures |Unvisited(s, visited + [ns])| < |Unvisited(s, visited)|
  {
    var a, b := Unvisited(s, visited + [ns]), Unvisited(s, visited);
    assert a == b - {ns} && ns in b;
  }

  // ---- chains of permitting links ----

  /** The link number `k` of namespace `a` passes `name` on to namespace `b`. */
  ghost predicate Step(s: System, name: string, a: string, k: nat, b: string) {
    && a in s.spaces && k < |s.spaces[a].links|
    && var l := s.spaces[a].links[k]; l.to == b && b != "" && (l.allowAll || name in l.shared)
  }

  /** Namespace `a` passes `name` on to namespace `b`. */
  ghost predicate Linked(s: System, name: string, a: string, b: string) { exists k :: Step(s, name, a, k, b) }

  ghost predicate Chain(s: System, name: string, c: seq<string>) {
    && c != []
    && forall i :: 0 <= i < |c| - 1 ==> Linked(s, name, c[i], c[i + 1])
  }

  ghost predicate Simple(c: seq<string>) { forall i, j :: 0 <= i < j < |c| ==> c[i] != c[j] }

  ghost predicate Avoids(c: seq<string>, visited: seq<string>) { forall i :: 0 <= i < |c| ==> c[i] !in visited }

  ghost predicate ChainFromTo(s: System, name: string, c: seq<string>, from: string, to: string) {
    Chain(s, name, c) && c[0] == from && c[|c| - 1] == to
  }

  /** Some chain of permitting links leads from one namespace to the other. */
  ghost predicate Reaches(s: System, name: string, from: string, to: string) {
    exists c :: ChainFromTo(s, name, c, from, to)
  }

  // ---- what a namespace's own directories hold ----

  /** Directory `i` of `ns` resolves the library to a listed file of that bitness, at `path`. */
  ghost predicate FileAt(s: System, ns: string, i: nat, bits: int, name: string, path: string) {
    && ns in s.spaces && i < |s.spaces[ns].paths|
    && var d := s.spaces[ns].paths[i];
       d != "" && s.resolve(d, bits, name) == At(path) && path in s.elf && s.elf[path].bits == bits
  }

  /** Looking into directory `i` of `ns` fails: links in a circle, or a file that
      is not the one listed. */
  ghost predicate FailsAt(s: System, ns: string, i: nat, bits: int, name: string) {
    && ns in s.spaces && i < |s.spaces[ns].paths|
    && var d := s.spaces[ns].paths[i];
       d != "" && var at := s.resolve(d, bits, name); at == Cycle || (at.At? && at.path !in s.elf)
  }

  /** Directory `i` of `ns` neither holds the library nor fails. */
  ghost predicate SilentAt(s: System, ns: string, i: nat, bits: int, name: string) {
    !FailsAt(s, ns, i, bits, name) && forall path :: !FileAt(s, ns, i, bits, name, path)
  }

  ghost predicate HoldsAt(s: System, ns: string, bits: int, name: string, path: string) {
    exists i :: FileAt(s, ns, i, bits, name, path)
  }

  ghost predicate HoldsIt(s: System, ns: string, bits: int, name: string) {
    exists path :: HoldsAt(s, ns, bits, name, path)
  }

  ghost predicate BreaksAt(s: System, ns: string, bits: int, name: string) {
    exists i :: FailsAt(s, ns, i, bits, name)
  }

  ghost predicate Silent(s: System, ns: string, bits: int, name: string) {
    forall i :: SilentAt(s, ns, i, bits, name)
  }

  /** Directory `i` answers `r`, and those before it are silent. */
  ghost predicate AnswersAt(s: System, ns: string, i: nat, bits: int, name: string, r: Found) {
    && (match r
        case Hit(path, where) => where == ns && FileAt(s, ns, i, bits, name, path)
        case Raised => FailsAt(s, ns, i, bits, name)
        case NotFound => false)
    && forall j: nat :: j < i ==> SilentAt(s, ns, j, bits, name)
  }

  ghost predicate Answers(s: System, ns: string, bits: int, name: string, r: Found) {
    exists i :: AnswersAt(s, ns, i, bits, name, r)
  }

  lemma {:induction false} PathsTried(s: System, ns: string, k: nat, bits: int, name: string)
    requires ns in s.spaces && k <= |s.spaces[ns].paths|
    requires forall j: nat :: j < k ==> SilentAt(s, ns, j, bits, name)
    ensures var r := TryPaths(s, s.spaces[ns].paths[k..], ns, bits, name);
      if r.NotFound? then Silent(s, ns, bits, name) else Answers(s, ns, bits, name, r)
    decreases |s.spaces[ns].paths| - k
  {
    var paths := s.spaces[ns].paths;
    if k < |paths| {
      assert paths[k..][0] == paths[k] && paths[k..][1..] == paths[k + 1..];
      var r := TryPaths(s, paths[k..], ns, bits, name);
      match s.Look(paths[k], bits, name) {
        case Hit(path, _) => assert AnswersAt(s, ns, k, bits, name, r);
        case Raised => assert AnswersAt(s, ns, k, bits, name, r);
        case NotFound => PathsTried(s, ns, k + 1, bits, name);
      }
    }
  }

  // ---- the order of the search ----

  /** From `ns`, the links numbered in `route` lead through the namespaces `c`:
      none of them twice, and none that is being visited. */
  ghost predicate Way(s: System, name: string, ns: string, visited: seq<string>, route: seq<nat>, c: seq<string>) {
    && |c| == |route| + 1 && c[0] == ns && Simple(c) && Avoids(c, visited)
    && forall i :: 0 <= i < |route| ==> Step(s, name, c[i], route[i], c[i + 1])
  }

  /** The order of a depth-first walk: a way comes before its continuations, and
      at a fork the link listed first goes first. */
  ghost predicate Before(a: seq<nat>, b: seq<nat>) {
    b != [] && (a == [] || a[0] < b[0] || (a[0] == b[0] && Before(a[1..], b[1..])))
  }

  /** The ways that do not begin with one of the first `k` links. */
  ghost predicate Later(route: seq<nat>, k: nat) { route == [] || k <= route[0] }

  /** The way `route` ends at a namespace that answers `r`, and every way before it at a silent one. */
  ghost predicate FirstOn(s: System, name: string, bits: int, from: string, visited: seq<string>, k: nat, r: Found,
                          route: seq<nat>, c: seq<string>) {
    && Way(s, name, from, visited, route, c) && Later(route, k) && Answers(s, c[|c| - 1], bits, name, r)
    && forall other, d :: Way(s, name, from, visited, other, d) && Later(other, k) && Before(other, route) ==>
         Silent(s, d[|d| - 1], bits, name)
  }

  /** What a search answers, its first `k` links left out: the first answer on
      the ways it may follow, or that they all end at silent namespaces. */
  ghost predicate Explains(s: System, name: string, bits: int, from: string, visited: seq<string>, k: nat, r: Found) {
    if r.NotFound? then
      forall route, c :: Way(s, name, from, visited, route, c) && Later(route, k) ==> Silent(s, c[|c| - 1], bits, name)
    else exists route, c :: FirstOn(s, name, bits, from, visited, k, r, route, c)
  }

  lemma {:induction false} SearchExplains(s: System, name: string, ns: string, bits: int, visited: seq<string>)
    ensures Explains(s, name, bits, ns, visited, 0, FindLibrary(s, name, ns, bits, visited))
    decreases |Unvisited(s, visited)|, 1, 0
  {
    if ns in visited { return; }
    var r := FindLibrary(s, name, ns, bits, visited);
    if ns !in s.spaces {
      forall route, c | Way(s, name, ns, visited, route, c) ensures Silent(s, c[|c| - 1], bits, name) {
        assert route != [] ==> Step(s, name, c[0], route[0], c[1]);
      }
      return;
    }
    var paths, links := s.spaces[ns].paths, s.spaces[ns].links;
    assert paths[0..] == paths && links[0..] == links;
    PathsTried(s, ns, 0, bits, name);
    if TryPaths(s, paths, ns, bits, name) != NotFound {
      assert FirstOn(s, name, bits, ns, visited, 0, r, [], [ns]);
      return;
    }
    VisitShrinks(s, visited, ns);
    LinksExplain(s, name, ns, 0, bits, visited);
  }

  lemma {:induction false} LinksExplain(s: System, name: string, ns: string, k: nat, bits: int, visited: seq<string>)
    requires ns !in visited && ns in s.spaces && k <= |s.spaces[ns].links| && Silent(s, ns, bits, name)
    ensures Explains(s, name, bits, ns, visited, k,
                     TryLinks(s, name, s.spaces[ns].links[k..], bits, visited + [ns]))
    decreases |Unvisited(s, visited + [ns])|, 2, |s.spaces[ns].links| - k
  {
    hide Silent, Answers;
    var links := s.spaces[ns].links;
    if k == |links| {
      forall route, c | Way(s, name, ns, visited, route, c) && Later(route, k)
        ensures Silent(s, c[|c| - 1], bits, name)
      {
        assert route != [] ==> Step(s, name, c[0], route[0], c[1]);
      }
      return;
    }
    assert links[k..][0] == links[k] && links[k..][1..] == links[k + 1..];
    LinksExplain(s, name, ns, k + 1, bits, visited);
    var to := links[k].to;
    if !links[k].Permits(name) {
      LinkSilent(s, name, ns, k, bits, visited, TryLinks(s, name, links[k + 1..], bits, visited + [ns]));
      return;
    }
    SearchExplains(s, name, to, bits, visited + [ns]);
    var r := FindLibrary(s, name, to, bits, visited + [ns]);
    if r.NotFound? {
      LinkSilent(s, name, ns, k, bits, visited, TryLinks(s, name, links[k + 1..], bits, visited + [ns]));
    } else {
      LinkAnswers(s, name, ns, k, bits, visited, r);
    }
  }

  /** A link that is not followed, or behind which all is silent, can be left out. */
  lemma LinkSilent(s: System, name: string, ns: string, k: nat, bits: int, visited: seq<string>, r: Found)
    requires ns !in visited && ns in s.spaces && k < |s.spaces[ns].links|
    requires s.spaces[ns].links[k].Permits(name) ==>
      Explains(s, name, bits, s.spaces[ns].links[k].to, visited + [ns], 0, NotFound)
    requires Explains(s, name, bits, ns, visited, k + 1, r)
    ensures Explains(s, name, bits, ns, visited, k, r)
  {
    hide Silent, Answers;
    forall route, c | Way(s, name, ns, visited, route, c) && route != [] && route[0] == k
      ensures Silent(s, c[|c| - 1], bits, name)
    {
      WayOn(s, name, ns, visited, route, c);
    }
    if !r.NotFound? {
      var route, c :| FirstOn(s, name, bits, ns, visited, k + 1, r, route, c);
      assert FirstOn(s, name, bits, ns, visited, k, r, route, c);
    }
  }

  /** What answers first behind a link answers first from that link on. */
  lemma LinkAnswers(s: System, name: string, ns: string, k: nat, bits: int, visited: seq<string>, r: Found)
    requires ns !in visited && ns in s.spaces && k < |s.spaces[ns].links| && Silent(s, ns, bits, name)
    requires s.spaces[ns].links[k].Permits(name) && !r.NotFound?
    requires Explains(s, name, bits, s.spaces[ns].links[k].to, visited + [ns], 0, r)
    ensures Explains(s, name, bits, ns, visited, k, r)
  {
    hide Silent, Answers;
    var to := s.spaces[ns].links[k].to;
    var route, c :| FirstOn(s, name, bits, to, visited + [ns], 0, r, route, c);
    assert Step(s, name, ns, k, to);
    WayFrom(s, name, ns, visited, k, route, c);
    forall other, d | Way(s, name, ns, visited, other, d) && Later(other, k) && Before(other, [k] + route)
      ensures Silent(s, d[|d| - 1], bits, name)
    {
      if other != [] {
        assert ([k] + route)[1..] == route;
        WayOn(s, name, ns, visited, other, d);
      }
    }
    assert FirstOn(s, name, bits, ns, visited, k, r, [k] + route, [ns] + c);
  }

  /** A way without its first link is one from that link's namespace. */
  lemma WayOn(s: System, name: string, ns: string, visited: seq<string>, route: seq<nat>, c: seq<string>)
    requires Way(s, name, ns, visited, route, c) && route != []
    ensures Step(s, name, ns, route[0], c[1])
    ensures Way(s, name, c[1], visited + [ns], route[1..], c[1..]) && c[1..][|c| - 2] == c[|c| - 1]
  {
    forall i | 0 <= i < |route| - 1 ensures Step(s, name, c[1..][i], route[1..][i], c[1..][i + 1]) {
      assert Step(s, name, c[i + 1], route[i + 1], c[i + 2]);
    }
    assert forall i :: 1 <= i < |c| ==> c[0] != c[i];
  }

  lemma WayFrom(s: System, name: string, ns: string, visited: seq<string>, k: nat, route: seq<nat>, c: seq<string>)
    requires ns !in visited && c != [] && Step(s, name, ns, k, c[0])
    requires Way(s, name, c[0], visited + [ns], route, c)
    ensures Way(s, name, ns, visited, [k] + route, [ns] + c)
  {
    var r, d := [k] + route, [ns] + c;
    forall i | 0 <= i < |r| ensures Step(s, name, d[i], r[i], d[i + 1]) {
      if i > 0 { assert Step(s, name, c[i - 1], route[i - 1], c[i]); }
    }
  }

  /** There is one answer: an account of the search leaves no choice. */
  lemma ExplainedOnce(s: System, name: string, bits: int, from: string, visited: seq<string>, a: Found, b: Found)
    requires Explains(s, name, bits, from, visited, 0, a) && Explains(s, name, bits, from, visited, 0, b)
    ensures a == b
  {
    hide Answers, Silent;
    forall ns, r | Answers(s, ns, bits, name, r) ensures !Silent(s, ns, bits, name) {
      NotSilent(s, ns, bits, name, r);
    }
    if !a.NotFound? && !b.NotFound? {
      var r, c :| FirstOn(s, name, bits, from, visited, 0, a, r, c);
      var q, d :| FirstOn(s, name, bits, from, visited, 0, b, q, d);
      OneBefore(r, q);
      if r == q {
        SameWay(s, name, from, visited, r, c, d);
        AnswersOnce(s, c[|c| - 1], bits, name, a, b);
      }
    }
  }

  lemma {:induction false} OneBefore(r: seq<nat>, q: seq<nat>)
    ensures r == q || Before(r, q) || Before(q, r)
  {
    if r != [] && q != [] && r[0] == q[0] {
      OneBefore(r[1..], q[1..]);
      assert r == [r[0]] + r[1..] && q == [q[0]] + q[1..];
    }
  }

  lemma {:induction false} SameWay(s: System, name: string, ns: string, visited: seq<string>, route: seq<nat>,
                                   c: seq<string>, d: seq<string>)
    requires Way(s, name, ns, visited, route, c) && Way(s, name, ns, visited, route, d)
    ensures c == d
    decreases |route|
  {
    if route != [] {
      WayOn(s, name, ns, visited, route, c);
      WayOn(s, name, ns, visited, route, d);
      SameWay(s, name, c[1], visited + [ns], route[1..], c[1..], d[1..]);
      assert c == [c[0]] + c[1..] && d == [d[0]] + d[1..];
    }
  }

  lemma AnswersOnce(s: System, ns: string, bits: int, name: string, a: Found, b: Found)
    requires Answers(s, ns, bits, name, a) && Answers(s, ns, bits, name, b)
    ensures a == b
  {
    var i: nat :| AnswersAt(s, ns, i, bits, name, a);
    var j: nat :| AnswersAt(s, ns, j, bits, name, b);
    assert i < j ==> SilentAt(s, ns, i, bits, name);
    assert j < i ==> SilentAt(s, ns, j, bits, name);
  }

  lemma NotSilent(s: System, ns: string, bits: int, name: string, a: Found)
    requires Answers(s, ns, bits, name, a)
    ensures !Silent(s, ns, bits, name)
  {
    var i :| AnswersAt(s, ns, i, bits, name, a);
    assert !SilentAt(s, ns, i, bits, name);
  }

  /** Any chain contains a simple one with the same ends: pruning the path that
      is being walked loses nothing. */
  lemma {:induction false} SimpleChain(s: System, name: string, c: seq<string>) returns (d: seq<string>)
    requires Chain(s, name, c)
    ensures Chain(s, name, d) && Simple(d) && d[0] == c[0] && d[|d| - 1] == c[|c| - 1]
    decreases |c|
  {
    if Simple(c) { return c; }
    var i, j :| 0 <= i < j < |c| && c[i] == c[j];
    var shorter := c[..i] + c[j..];
    forall k | 0 <= k < |shorter| - 1 ensures Linked(s, name, shorter[k], shorter[k + 1]) {
      if k < i {
        assert shorter[k] == c[k] && shorter[k + 1] == c[k + 1];
        assert Linked(s, name, c[k], c[k + 1]);
      } else {
        assert shorter[k] == c[k - i + j] && shorter[k + 1] == c[k - i + j + 1];
        assert Linked(s, name, c[k - i + j], c[k - i + j + 1]);
      }
    }
    d := SimpleChain(s, name, shorter);
  }

  /** The search is sound and complete: it gives a file exactly when a chain of
      permitting links reaches a namespace that holds one, and the file it gives
      is one of those; unless some reachable directory cannot be read. */
  lemma SearchIsExact(s: System, name: string, ns: string, bits: int)
    ensures var r := FindLibrary(s, name, ns, bits, []);
      && (r.Hit? ==> Reaches(s, name, ns, r.ns) && HoldsAt(s, r.ns, bits, name, r.path))
      && (r.NotFound? ==> forall to :: Reaches(s, name, ns, to) ==> !HoldsIt(s, to, bits, name))
      && (r.Raised? ==> exists to :: Reaches(s, name, ns, to) && BreaksAt(s, to, bits, name))
  {
    SearchExplains(s, name, ns, bits, []);
    ExplainedReaches(s, name, bits, ns, FindLibrary(s, name, ns, bits, []));
  }

  /** What an account of the search says of the chains of permitting links. */
  lemma ExplainedReaches(s: System, name: string, bits: int, ns: string, r: Found)
    requires Explains(s, name, bits, ns, [], 0, r)
    ensures r.Hit? ==> Reaches(s, name, ns, r.ns) && HoldsAt(s, r.ns, bits, name, r.path)
    ensures r.NotFound? ==> forall to :: Reaches(s, name, ns, to) ==> !HoldsIt(s, to, bits, name)
    ensures r.Raised? ==> exists to :: Reaches(s, name, ns, to) && BreaksAt(s, to, bits, name)
  {
    if r.NotFound? {
      forall to | Reaches(s, name, ns, to) ensures !HoldsIt(s, to, bits, name) {
        var c :| ChainFromTo(s, name, c, ns, to);
        var d := SimpleChain(s, name, c);
        var route := RouteOf(s, name, d);
        assert Way(s, name, ns, [], route, d) && Later(route, 0);
        forall path ensures !HoldsAt(s, to, bits, name, path) {
          forall i ensures !FileAt(s, to, i, bits, name, path) { assert SilentAt(s, to, i, bits, name); }
        }
      }
    } else {
      var route, c :| FirstOn(s, name, bits, ns, [], 0, r, route, c);
      var to := c[|c| - 1];
      forall i | 0 <= i < |c| - 1 ensures Linked(s, name, c[i], c[i + 1]) {
        assert Step(s, name, c[i], route[i], c[i + 1]);
      }
      assert ChainFromTo(s, name, c, ns, to);
      var i: nat :| AnswersAt(s, to, i, bits, name, r);
      assert r.Raised? ==> BreaksAt(s, to, bits, name);
    }
  }

  /** The numbers of the links a chain follows. */
  lemma {:induction false} RouteOf(s: System, name: string, c: seq<string>) returns (route: seq<nat>)
    requires Chain(s, name, c)
    ensures |c| == |route| + 1 && forall i :: 0 <= i < |route| ==> Step(s, name, c[i], route[i], c[i + 1])
    decreases |c|
  {
    if |c| == 1 { return []; }
    var front := c[..|c| - 1];
    assert Chain(s, name, front) by {
      forall i | 0 <= i < |front| - 1 ensures Linked(s, name, front[i], front[i + 1]) {
        assert Linked(s, name, c[i], c[i + 1]);
      }
    }
    route := RouteOf(s, name, front);
    assert Linked(s, name, c[|c| - 2], c[|c| - 1]);
    var k :| Step(s, name, c[|c| - 2], k, c[|c| - 1]);
    route := route + [k];
  }

  /** With every reachable directory readable, as an if and only if. */
  lemma SearchIff(s: System, name: string, ns: string, bits: int)
    requires forall to :: Reaches(s, name, ns, to) ==> !BreaksAt(s, to, bits, name)
    ensures FindLibrary(s, name, ns, bits, []).Hit? <==>
      exists to :: Reaches(s, name, ns, to) && HoldsIt(s, to, bits, name)
  {
    SearchIsExact(s, name, ns, bits);
  }

  // ---- the closure of needed libraries ----

  datatype Node = Node(path: string, ns: string)

  datatype Edge = Edge(source: Node, needed: string, target: Option<Node>)

  /** What the search answers for one needed library of a node. */
  function Wanted(s: System, k: Node, name: string): (r: Found)
    requires k.path in s.elf
    ensures Answered(s, k, name, r)
  {
    SearchExplains(s, name, k.ns, s.elf[k.path].bits, []);
    FindLibrary(s, name, k.ns, s.elf[k.path].bits, [])
  }

  /** The first answer, on the ways from a node's namespace, for a library of the node's bitness. */
  ghost predicate Answered(s: System, k: Node, name: string, r: Found) {
    k.path in s.elf && Explains(s, name, s.elf[k.path].bits, k.ns, [], 0, r)
  }

  lemma AnsweredIs(s: System, k: Node, name: string)
    requires k.path in s.elf
    ensures forall r :: Answered(s, k, name, r) <==> r == Wanted(s, k, name)
  {
    forall r | Answered(s, k, name, r) ensures r == Wanted(s, k, name) {
      ExplainedOnce(s, name, s.elf[k.path].bits, k.ns, [], r, Wanted(s, k, name));
    }
  }

  function EdgeFor(s: System, k: Node, name: string): (e: Edge)
    requires k.path in s.elf
    ensures e.source == k && e.needed == name
    ensures e.target.Some? ==> Answered(s, k, name, Hit(e.target.value.path, e.target.value.ns))
    ensures e.target.None? ==> Answered(s, k, name, NotFound) || Answered(s, k, name, Raised)
  {
    var r := Wanted(s, k, name);
    Edge(k, name, if r.Hit? then Some(Node(r.path, r.ns)) else None)
  }

  /** The edges of the first `n` needed libraries of a node, in order. */
  function EdgesOf(s: System, k: Node, n: nat): (es: seq<Edge>)
    requires k.path in s.elf && n <= |s.elf[k.path].needed|
  {
    seq(n, i requires 0 <= i < n => EdgeFor(s, k, s.elf[k.path].needed[i]))
  }

  function AllEdges(s: System, order: seq<Node>): (es: seq<Edge>)
    requires forall k :: k in order ==> k.path in s.elf
  {
    if order == [] then []
    else
      var last := order[|order| - 1];
      AllEdges(s, order[..|order| - 1]) + EdgesOf(s, last, |s.elf[last.path].needed|)
  }

  function Missing(es: seq<Edge>): (ms: seq<Edge>)
    ensures forall e :: e in ms <==> e in es && e.target.None?
  {
    if es == [] then [] else Missing(es[..|es| - 1]) + (if es[|es| - 1].target.None? then [es[|es| - 1]] else [])
  }

  lemma MissingSnoc(es: seq<Edge>, e: Edge)
    ensures Missing(es + [e]) == Missing(es) + (if e.target.None? then [e] else [])
  {
    assert (es + [e])[..|es|] == es;
  }

  /** One needed library of `a` is found as `b`. */
  ghost predicate Needs(s: System, a: Node, b: Node) {
    && a.path in s.elf
    && exists i :: 0 <= i < |s.elf[a.path].needed| && Answered(s, a, s.elf[a.path].needed[i], Hit(b.path, b.ns))
  }

  ghost predicate Walk(s: System, root: Node, w: seq<Node>) {
    w != [] && w[0] == root && forall i :: 0 <= i < |w| - 1 ==> Needs(s, w[i], w[i + 1])
  }

  ghost predicate WalkTo(s: System, root: Node, w: seq<Node>, to: Node) {
    Walk(s, root, w) && w[|w| - 1] == to
  }

  ghost predicate Loaded(s: System, root: Node, k: Node) { exists w :: WalkTo(s, root, w, k) }

  lemma LoadedMore(s: System, root: Node, a: Node, b: Node)
    requires Loaded(s, root, a) && Needs(s, a, b)
    ensures Loaded(s, root, b)
  {
    var w :| WalkTo(s, root, w, a);
    var longer := w + [b];
    forall i | 0 <= i < |longer| - 1 ensures Needs(s, longer[i], longer[i + 1]) {
      if i < |w| - 1 { assert longer[i] == w[i] && longer[i + 1] == w[i + 1]; }
    }
    assert WalkTo(s, root, longer, b);
  }

  lemma {:induction false} ClosedHoldsWalk(s: System, root: Node, nodes: set<Node>, w: seq<Node>)
    requires Walk(s, root, w) && root in nodes
    requires forall a, b :: a in nodes && Needs(s, a, b) ==> b in nodes
    ensures w[|w| - 1] in nodes
    decreases |w|
  {
    if |w| > 1 {
      var front := w[..|w| - 1];
      assert Walk(s, root, front) by {
        forall i | 0 <= i < |front| - 1 ensures Needs(s, front[i], front[i + 1]) { assert Needs(s, w[i], w[i + 1]); }
      }
      ClosedHoldsWalk(s, root, nodes, front);
      assert Needs(s, w[|w| - 2], w[|w| - 1]);
    }
  }

  /** All the nodes an audit can come across. */
  function Universe(s: System, root: Node): (u: set<Node>) {
    (set p, n | p in s.elf.Keys && n in s.spaces.Keys :: Node(p, n)) + {root}
  }

  /** The edges out of `nodes` lead to nodes or to what is still queued. */
  ghost predicate ClosedUpTo(s: System, nodes: set<Node>, queue: seq<Node>) {
    forall a, b :: a in nodes && Needs(s, a, b) ==> b in nodes || b in queue
  }

  ghost predicate Ordered(s: System, order: seq<Node>, nodes: set<Node>) {
    && (forall k :: k in order <==> k in nodes)
    && (forall i, j :: 0 <= i < j < |order| ==> order[i] != order[j])
    && (forall k :: k in order ==> k.path in s.elf)
  }

  /** The node's file cannot be read, or a search for one of its libraries fails. */
  ghost predicate Unreadable(s: System, k: Node) {
    k.path in s.elf ==> exists i :: 0 <= i < |s.elf[k.path].needed| && Answered(s, k, s.elf[k.path].needed[i], Raised)
  }

  /** What an edge of the audit says: a target is a node, and a file that a chain
      of permitting links reaches; no target means no chain reaches a holder. */
  ghost predicate EdgeRight(s: System, nodes: set<Node>, e: Edge) {
    && e.source in nodes && e.source.path in s.elf && e.needed in s.elf[e.source.path].needed
    && var bits := s.elf[e.source.path].bits;
       match e.target
       case Some(b) =>
         && b in nodes && Reaches(s, e.needed, e.source.ns, b.ns) && HoldsAt(s, b.ns, bits, e.needed, b.path)
         && Answered(s, e.source, e.needed, Hit(b.path, b.ns))
       case None => forall to :: Reaches(s, e.needed, e.source.ns, to) ==> !HoldsIt(s, to, bits, e.needed)
  }

  /** Each needed library of each node has an edge. */
  ghost predicate AllNeeded(s: System, nodes: set<Node>, edges: seq<Edge>) {
    forall k, name :: k in nodes && k.path in s.elf && name in s.elf[k.path].needed ==>
      exists e :: e in edges && e.source == k && e.needed == name
  }

  /** What the loop of the audit keeps. */
  ghost predicate Auditing(s: System, root: Node, nodes: set<Node>, queue: seq<Node>, order: seq<Node>,
                           edges: seq<Edge>, missing: seq<Edge>) {
    && nodes <= Universe(s, root) && Queued(s, root, queue)
    && (forall k :: k in nodes ==> Loaded(s, root, k))
    && (root in nodes || root in queue) && ClosedUpTo(s, nodes, queue)
    && Ordered(s, order, nodes) && edges == AllEdges(s, order) && missing == Missing(edges)
    && (forall k :: k in nodes ==> !Unreadable(s, k))
  }

  ghost predicate Queued(s: System, root: Node, queue: seq<Node>) {
    forall k :: k in queue ==> k in Universe(s, root) && Loaded(s, root, k)
  }

  /** Looks up the needed libraries of one node, appending an edge for each. */
  method AuditNode(s: System, k: Node, edges0: seq<Edge>, missing0: seq<Edge>, queue0: seq<Node>, ghost root: Node)
    returns (ok: bool, edges: seq<Edge>, missing: seq<Edge>, queue: seq<Node>)
    requires k.path in s.elf && Loaded(s, root, k) && Queued(s, root, queue0) && missing0 == Missing(edges0)
    ensures ok ==> edges == edges0 + EdgesOf(s, k, |s.elf[k.path].needed|) && missing == Missing(edges)
    ensures ok ==> queue0 <= queue && Queued(s, root, queue) && forall b :: Needs(s, k, b) ==> b in queue
    ensures ok <==> !Unreadable(s, k)
  {
    hide Loaded, Universe, FindLibrary, Missing, Answered;
    edges, missing, queue := edges0, missing0, queue0;
    var needed := s.elf[k.path].needed;
    for i := 0 to |needed|
      invariant edges == edges0 + EdgesOf(s, k, i) && missing == Missing(edges)
      invariant queue0 <= queue && Queued(s, root, queue)
      invariant forall m :: 0 <= m < i ==> !Answered(s, k, needed[m], Raised)
      invariant forall m, b: Node :: 0 <= m < i && Answered(s, k, needed[m], Hit(b.path, b.ns)) ==> b in queue
    {
      var found := FindLibrary(s, needed[i], k.ns, s.elf[k.path].bits, []);
      AnsweredIs(s, k, needed[i]);
      assert found == Wanted(s, k, needed[i]);
      if found.Raised? { return false, edges, missing, queue; }
      var edge := EdgeFor(s, k, needed[i]);
      MissingSnoc(edges, edge);
      edges := edges + [edge];
      assert edges == edges0 + EdgesOf(s, k, i + 1);
      if found.Hit? {
        var target := Node(found.path, found.ns);
        TargetKnown(s, root, k, i, target);
        queue := queue + [target];
      } else {
        missing := missing + [edge];
      }
    }
    ok := true;
  }

  lemma TargetKnown(s: System, root: Node, k: Node, i: nat, b: Node)
    requires k.path in s.elf && Loaded(s, root, k) && i < |s.elf[k.path].needed|
    requires Answered(s, k, s.elf[k.path].needed[i], Hit(b.path, b.ns))
    ensures b in Universe(s, root) && Loaded(s, root, b)
  {
    ExplainedReaches(s, s.elf[k.path].needed[i], s.elf[k.path].bits, k.ns, Hit(b.path, b.ns));
    LoadedMore(s, root, k, b);
  }

  /** The audit of one root: `nodes` is everything it loads, each node's needed
      libraries give one edge each, in order, and `missing` are the edges without
      a target. It raises only when something it has to read cannot be read. */
  method Audit(s: System, root: Node)
    returns (ok: bool, nodes: set<Node>, edges: seq<Edge>, missing: seq<Edge>, ghost order: seq<Node>)
    ensures ok ==> forall k :: k in nodes <==> Loaded(s, root, k)
    ensures ok ==> Ordered(s, order, nodes) && edges == AllEdges(s, order) && missing == Missing(edges)
    ensures ok ==> (forall e :: e in edges ==> EdgeRight(s, nodes, e)) && AllNeeded(s, nodes, edges)
    ensures ok <==> forall k :: Loaded(s, root, k) ==> !Unreadable(s, k)
  {
    hide Loaded, Universe, AllEdges, Missing, Ordered, ClosedUpTo, Needs, Unreadable, EdgesOf, EdgeRight, AllNeeded;
    nodes, edges, missing, order := {}, [], [], [];
    var queue := [root];
    AuditStarts(s, root);
    while queue != []
      invariant Auditing(s, root, nodes, queue, order, edges, missing)
      decreases |Universe(s, root) - nodes|, |queue|
    {
      var k := queue[0];
      assert k in queue;
      if k in nodes {
        AuditSkips(s, root, nodes, queue, order, edges, missing);
        queue := queue[1..];
        continue;
      }
      if k.path !in s.elf {
        UnreadableFile(s, k);
        return false, nodes, edges, missing, order;
      }
      ghost var before := edges;
      var went, later;
      went, edges, missing, later := AuditNode(s, k, edges, missing, queue[1..], root);
      if !went { return false, nodes, edges, missing, order; }
      AuditVisits(s, root, nodes, queue, order, before, later);
      nodes, order, queue := nodes + {k}, order + [k], later;
    }
    AuditEnds(s, root, nodes, order, edges, missing);
    ok := true;
  }

  lemma UnreadableFile(s: System, k: Node)
    requires k.path !in s.elf
    ensures Unreadable(s, k)
  {
  }

  lemma AuditStarts(s: System, root: Node)
    ensures Auditing(s, root, {}, [root], [], [], [])
  {
    assert WalkTo(s, root, [root], root);
  }

  lemma AuditSkips(s: System, root: Node, nodes: set<Node>, queue: seq<Node>, order: seq<Node>,
                   edges: seq<Edge>, missing: seq<Edge>)
    requires Auditing(s, root, nodes, queue, order, edges, missing) && queue != [] && queue[0] in nodes
    ensures Auditing(s, root, nodes, queue[1..], order, edges, missing)
  {
    hide Loaded, Universe, AllEdges, Missing, Ordered, Needs;
    forall b | b in queue ensures b in nodes || b in queue[1..] { InTail(queue, b); }
  }

  lemma InTail(queue: seq<Node>, b: Node)
    requires b in queue
    ensures b == queue[0] || b in queue[1..]
  {
  }

  lemma AuditVisits(s: System, root: Node, nodes: set<Node>, queue: seq<Node>, order: seq<Node>,
                    edges: seq<Edge>, later: seq<Node>)
    requires queue != [] && Auditing(s, root, nodes, queue, order, edges, Missing(edges))
    requires queue[0] !in nodes && queue[0].path in s.elf && queue[1..] <= later && Queued(s, root, later)
    requires !Unreadable(s, queue[0]) && forall b :: Needs(s, queue[0], b) ==> b in later
    ensures var k := queue[0];
      var all := edges + EdgesOf(s, k, |s.elf[k.path].needed|);
      Auditing(s, root, nodes + {k}, later, order + [k], all, Missing(all))
    ensures |Universe(s, root) - (nodes + {queue[0]})| < |Universe(s, root) - nodes|
  {
    hide Loaded, Universe, Missing, Needs, EdgesOf;
    var k := queue[0];
    forall b | b in queue ensures b == k || b in later { InTail(queue, b); }
    OrderedMore(s, order, nodes, k);
    var u := Universe(s, root);
    assert k in queue;
    assert u - (nodes + {k}) == (u - nodes) - {k} && k in u - nodes;
  }

  lemma OrderedMore(s: System, order: seq<Node>, nodes: set<Node>, k: Node)
    requires Ordered(s, order, nodes) && k !in nodes && k.path in s.elf
    ensures Ordered(s, order + [k], nodes + {k})
    ensures AllEdges(s, order + [k]) == AllEdges(s, order) + EdgesOf(s, k, |s.elf[k.path].needed|)
  {
    assert (order + [k])[..|order|] == order;
  }

  lemma AuditEnds(s: System, root: Node, nodes: set<Node>, order: seq<Node>, edges: seq<Edge>, missing: seq<Edge>)
    requires Auditing(s, root, nodes, [], order, edges, missing)
    ensures forall k :: k in nodes <==> Loaded(s, root, k)
    ensures forall k :: Loaded(s, root, k) ==> !Unreadable(s, k)
    ensures (forall e :: e in edges ==> EdgeRight(s, nodes, e)) && AllNeeded(s, nodes, edges)
  {
    hide Unreadable, EdgeRight, AllEdges, Universe, Needs;
    forall k | Loaded(s, root, k) ensures k in nodes {
      var w :| WalkTo(s, root, w, k);
      ClosedHoldsWalk(s, root, nodes, w);
    }
    forall e | e in edges ensures EdgeRight(s, nodes, e) {
      var k, i := EdgeOrigin(s, order, e);
      assert k in nodes;
      EdgeIsRight(s, nodes, k, i);
    }
    forall k, name | k in nodes && k.path in s.elf && name in s.elf[k.path].needed
      ensures exists e :: e in edges && e.source == k && e.needed == name
    {
      var i :| 0 <= i < |s.elf[k.path].needed| && s.elf[k.path].needed[i] == name;
      EdgeListed(s, order, k, i);
    }
  }

  lemma {:induction false} EdgeOrigin(s: System, order: seq<Node>, e: Edge) returns (k: Node, i: nat)
    requires (forall a :: a in order ==> a.path in s.elf) && e in AllEdges(s, order)
    ensures k in order && i < |s.elf[k.path].needed| && e == EdgeFor(s, k, s.elf[k.path].needed[i])
  {
    var last := order[|order| - 1];
    var es := EdgesOf(s, last, |s.elf[last.path].needed|);
    if e in es {
      k := last;
      i :| 0 <= i < |es| && es[i] == e;
    } else {
      k, i := EdgeOrigin(s, order[..|order| - 1], e);
    }
  }

  lemma EdgeIsRight(s: System, nodes: set<Node>, k: Node, i: nat)
    requires k in nodes && !Unreadable(s, k) && k.path in s.elf && i < |s.elf[k.path].needed|
    requires forall b :: Needs(s, k, b) ==> b in nodes
    ensures EdgeRight(s, nodes, EdgeFor(s, k, s.elf[k.path].needed[i]))
  {
    var name := s.elf[k.path].needed[i];
    var e := EdgeFor(s, k, name);
    AnsweredIs(s, k, name);
    ExplainedReaches(s, name, s.elf[k.path].bits, k.ns, Wanted(s, k, name));
    if e.target.Some? { assert Needs(s, k, e.target.value); }
  }

  /** A library is reported missing exactly when some loaded file needs it and no
      chain of permitting links leads from its namespace to a holder. */
  lemma MissingMeans(s: System, root: Node, nodes: set<Node>, order: seq<Node>, k: Node, i: nat)
    requires Ordered(s, order, nodes) && k in nodes
    requires k.path in s.elf && i < |s.elf[k.path].needed|
    requires forall to :: Reaches(s, s.elf[k.path].needed[i], k.ns, to) ==>
      !BreaksAt(s, to, s.elf[k.path].bits, s.elf[k.path].needed[i])
    ensures var name := s.elf[k.path].needed[i];
      EdgeFor(s, k, name) in Missing(AllEdges(s, order)) <==>
        forall to :: Reaches(s, name, k.ns, to) ==> !HoldsIt(s, to, s.elf[k.path].bits, name)
  {
    var name := s.elf[k.path].needed[i];
    SearchIsExact(s, name, k.ns, s.elf[k.path].bits);
    EdgeListed(s, order, k, i);
  }

  lemma {:induction false} EdgeListed(s: System, order: seq<Node>, k: Node, i: nat)
    requires (forall a :: a in order ==> a.path in s.elf) && k in order && i < |s.elf[k.path].needed|
    ensures EdgeFor(s, k, s.elf[k.path].needed[i]) in AllEdges(s, order)
  {
    var last := order[|order| - 1];
    if k == last {
      assert EdgesOf(s, last, |s.elf[last.path].needed|)[i] == EdgeFor(s, k, s.elf[k.path].needed[i]);
    } else {
      EdgeListed(s, order[..|order| - 1], k, i);
    }
  }
}
