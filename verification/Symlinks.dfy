// Resolving a virtual path through the extracted image's symlinks
// (Audit-StockDependencies.resolve_file): at most 32 rounds, each replacing the
// shortest prefix that is a link.

module Symlinks {
  /** A normalised absolute path: its components. */
  type Path = seq<string>

  datatype Kind = File | Directory | Symlink(absolute: bool, target: seq<string>)

  /** The inventory, and which resolved paths an experiment hides. */
  datatype Image = Image(entries: map<Path, Kind>, hidden: Path -> bool) {
    predicate IsLink(p: Path) { p in entries && entries[p].Symlink? }

    /** No prefix of the path is a link. */
    predicate LinkFree(p: Path) { forall i :: 0 < i <= |p| ==> !IsLink(p[..i]) }

    predicate IsFile(p: Path) { !hidden(p) && p in entries && entries[p].File? }
  }

  /** `normpath` on components: empty ones and "." go, ".." takes one back. */
  function Normal(cs: seq<string>): (p: Path)
    ensures forall i :: 0 <= i < |p| ==> p[i] !in {"", ".", ".."}
    ensures (forall i :: 0 <= i < |cs| ==> cs[i] !in {"", ".", ".."}) ==> p == cs
  {
    if cs == [] then []
    else
      var front, c := Normal(cs[..|cs| - 1]), cs[|cs| - 1];
      if c in {"", "."} then front
      else if c != ".." then front + [c]
      else if front == [] then [] else front[..|front| - 1]
  }

  /** A component that names something, rather than nothing or a way back. */
  ghost predicate Plain(c: string) { c != "" && c != "." && c != ".." }

  lemma {:induction false} NormalFirst(a: seq<string>, b: seq<string>)
    ensures Normal(a + b) == Normal(Normal(a) + b)
  {
    if b == [] {
      assert a + b == a && Normal(a) + b == Normal(a);
    } else {
      var front := b[..|b| - 1];
      NormalFirst(a, front);
      assert (a + b)[..|a + b| - 1] == a + front;
      assert (Normal(a) + b)[..|Normal(a) + b| - 1] == Normal(a) + front;
    }
  }

  /** The laws of a path, which with a plain path being its own normal form fix
      every other: components that name nothing can go, a way back cancels what
      it follows, and there is none above the root. */
  lemma NormalLaws(a: seq<string>, c: string, b: seq<string>)
    ensures Normal(a + ["."] + b) == Normal(a + b) && Normal(a + [""] + b) == Normal(a + b)
    ensures Plain(c) ==> Normal(a + [c, ".."] + b) == Normal(a + b)
    ensures Normal([".."] + b) == Normal(b)
  {
    NormalFirst(a, b);
    NormalFirst(a + ["."], b);
    NormalFirst(a + [""], b);
    NormalFirst(a + [c, ".."], b);
    NormalFirst([".."], b);
    assert (a + ["."])[..|a|] == a && (a + [""])[..|a|] == a && [".."][..0] == [];
    assert (a + [c, ".."])[..|a| + 1] == a + [c] && (a + [c])[..|a|] == a;
    assert [] + b == b;
  }

  /** The shortest prefix of `p` that is a link has `i` components. */
  ghost predicate ShortestLink(im: Image, p: Path, i: nat) {
    && 0 < i <= |p| && p[..i] in im.entries && im.entries[p[..i]].Symlink?
    && forall k :: 0 < k < i && p[..k] in im.entries ==> !im.entries[p[..k]].Symlink?
  }

  /** `q` is `p` with that link's target in its place: behind the root if it is
      absolute, behind the directory the link lies in if not. */
  ghost predicate Rewritten(im: Image, p: Path, q: Path, i: nat) {
    && ShortestLink(im, p, i)
    && q == (match im.entries[p[..i]]
             case Symlink(absolute, target) =>
               if absolute then Normal(target + p[i..]) else Normal(p[..i - 1] + target + p[i..]))
  }

  /** The length of the shortest prefix that is a link, if one is. */
  function FirstLink(im: Image, p: Path, from: nat): (i: nat)
    requires from <= |p|
    ensures i == 0 || (from < i <= |p| && im.IsLink(p[..i]) && forall k :: from < k < i ==> !im.IsLink(p[..k]))
    ensures i == 0 <==> forall k :: from < k <= |p| ==> !im.IsLink(p[..k])
    decreases |p| - from
  {
    if from == |p| then 0
    else if im.IsLink(p[..from + 1]) then from + 1
    else FirstLink(im, p, from + 1)
  }

  /** One round: the link is replaced by its target, relative to where it lies. */
  function Replaced(im: Image, p: Path): (q: Path)
    ensures if im.LinkFree(p) then q == p else exists i :: Rewritten(im, p, q, i)
  {
    var i := FirstLink(im, p, 0);
    if i == 0 then p
    else
      var k := im.entries[p[..i]];
      var q := Normal((if k.absolute then k.target else p[..i - 1] + k.target) + p[i..]);
      assert Rewritten(im, p, q, i);
      q
  }

  function After(im: Image, p: Path, n: nat): (q: Path) {
    if n == 0 then p else Replaced(im, After(im, p, n - 1))
  }

  const ROUNDS: nat := 32

  /** The path reached after `n` rounds without meeting a link-free one before. */
  ghost predicate Reached(im: Image, p: Path, q: Path, n: nat) {
    q == After(im, p, n) && forall k :: 0 <= k < n ==> !im.LinkFree(After(im, p, k))
  }

  datatype Resolution = Gone | Resolved(path: Path) | TooManyLinks

  /** What resolving gives is the first link-free path, if it comes within the
      rounds and is a file; it raises exactly if none comes. */
  method ResolveFile(im: Image, raw: seq<string>) returns (r: Resolution)
    ensures r.Resolved? ==>
      im.LinkFree(r.path) && im.IsFile(r.path) && exists n: nat :: n < ROUNDS && Reached(im, Normal(raw), r.path, n)
    ensures r.Gone? ==>
      exists n: nat, q :: n < ROUNDS && Reached(im, Normal(raw), q, n) && im.LinkFree(q) && !im.IsFile(q)
    ensures r.TooManyLinks? <==> NeverFree(im, Normal(raw))
  {
    hide Normal, After, Image.LinkFree, Replaced, NeverFree;
    var path := Normal(raw);
    ghost var start := path;
    StartReached(im, path);
    for round := 0 to ROUNDS
      invariant Reached(im, start, path, round)
    {
      var i := FirstLink(im, path, 0);
      OneRound(im, start, path, round, i);
      if i == 0 {
        return if im.IsFile(path) then Resolved(path) else Gone;
      }
      var k := im.entries[path[..i]];
      path := Normal((if k.absolute then k.target else path[..i - 1] + k.target) + path[i..]);
    }
    NeverReached(im, start, path);
    r := TooManyLinks;
  }

  /** None of the paths the rounds look at is free of links. */
  ghost predicate NeverFree(im: Image, p: Path) {
    forall n :: 0 <= n < ROUNDS ==> !im.LinkFree(After(im, p, n))
  }

  lemma NeverReached(im: Image, start: Path, p: Path)
    requires Reached(im, start, p, ROUNDS)
    ensures NeverFree(im, start)
  {
  }

  lemma StartReached(im: Image, p: Path)
    ensures Reached(im, p, p, 0)
  {
  }

  lemma OneRound(im: Image, start: Path, p: Path, n: nat, i: nat)
    requires Reached(im, start, p, n) && i == FirstLink(im, p, 0)
    ensures i == 0 <==> im.LinkFree(p)
    ensures i == 0 && n < ROUNDS ==> !NeverFree(im, start)
    ensures i > 0 ==> i <= |p| && im.IsLink(p[..i])
    ensures i > 0 ==> var k := im.entries[p[..i]];
      Reached(im, start, Normal((if k.absolute then k.target else p[..i - 1] + k.target) + p[i..]), n + 1)
  {
    if i > 0 { ReachedNext(im, start, p, n); }
    hide Normal, After;
  }

  lemma ReachedNext(im: Image, start: Path, p: Path, n: nat)
    requires Reached(im, start, p, n) && !im.LinkFree(p)
    ensures Reached(im, start, Replaced(im, p), n + 1)
  {
    hide Replaced, Image.LinkFree, Rewritten, Normal;
    assert After(im, start, n + 1) == Replaced(im, After(im, start, n));
  }

  /** Once link-free, always the same path: resolving the result again changes nothing. */
  lemma {:induction false} LinkFreeStays(im: Image, p: Path, n: nat, m: nat)
    requires n <= m && im.LinkFree(After(im, p, n))
    ensures After(im, p, m) == After(im, p, n)
    decreases m - n
  {
    if n < m { LinkFreeStays(im, p, n, m - 1); }
  }

  lemma {:induction false} AfterAdd(im: Image, p: Path, n: nat, m: nat)
    ensures After(im, p, n + m) == After(im, After(im, p, n), m)
  {
    hide Replaced, Image.LinkFree, Rewritten, Normal;
    if m > 0 {
      AfterAdd(im, p, n, m - 1);
      assert n + m - 1 == n + (m - 1);
      assert After(im, p, n + m) == Replaced(im, After(im, p, n + m - 1));
    }
  }

  /** Links that run in a circle are always reported: the rounds never reach a
      link-free path. */
  lemma CircleRaises(im: Image, p: Path, a: nat, b: nat, n: nat)
    requires a < b && After(im, p, a) == After(im, p, b)
    requires forall k :: 0 <= k < b ==> !im.LinkFree(After(im, p, k))
    ensures !im.LinkFree(After(im, p, n))
    decreases n
  {
    hide Replaced, Image.LinkFree, Rewritten, Normal;
    if n >= b {
      AfterAdd(im, p, b, n - b);
      AfterAdd(im, p, a, n - b);
      var m := a + (n - b);
      CircleRaises(im, p, a, b, m);
      assert b + (n - b) == n;
      assert After(im, p, n) == After(im, p, m);
    }
  }

  // ---- the report is not only about circles ----

  function Name(n: nat): (s: string)
    ensures |s| == n && forall i :: 0 <= i < n ==> s[i] == 'a'
  {
    seq(n, i => 'a')
  }

  function Links(hops: nat): (m: map<Path, Kind>) {
    if hops == 0 then map[] else Links(hops - 1)[[Name(hops)] := Symlink(true, [Name(hops + 1)])]
  }

  /** A chain of links, /a to /aa to /aaa and on, that ends at a file. */
  function ChainImage(hops: nat): (im: Image) {
    Image(Links(hops)[[Name(hops + 1)] := File], (p: Path) => false)
  }

  lemma NamesDiffer(a: nat, b: nat)
    requires a != b
    ensures [Name(a)] != [Name(b)]
  {
    assert |[Name(a)][0]| != |[Name(b)][0]|;
  }

  lemma {:induction false} LinksHold(hops: nat, n: nat)
    requires 1 <= n <= hops
    ensures [Name(n)] in Links(hops) && Links(hops)[[Name(n)]] == Symlink(true, [Name(n + 1)])
  {
    if n < hops {
      LinksHold(hops - 1, n);
      NamesDiffer(n, hops);
    }
  }

  lemma ChainLink(hops: nat, n: nat)
    requires 1 <= n <= hops
    ensures var im, p := ChainImage(hops), [Name(n)];
      im.IsLink(p) && im.entries[p] == Symlink(true, [Name(n + 1)]) && !im.LinkFree(p)
  {
    hide Links, Name;
    LinksHold(hops, n);
    NamesDiffer(n, hops + 1);
    assert [Name(n)][..1] == [Name(n)];
  }

  lemma ChainStep(hops: nat, n: nat)
    requires 1 <= n <= hops
    ensures Replaced(ChainImage(hops), [Name(n)]) == [Name(n + 1)]
  {
    ChainLink(hops, n);
    var im, p, q := ChainImage(hops), [Name(n)], [Name(n + 1)];
    hide Links, Image.LinkFree, ChainImage;
    assert p[..1] == p && q + p[1..] == q;
    assert FirstLink(im, p, 0) == 1;
    assert Name(n + 1) !in {"", ".", ".."} by { assert |Name(n + 1)| >= 2 && Name(n + 1)[0] == 'a'; }
    assert Normal(q) == q;
  }

  lemma {:induction false} ChainAfter(hops: nat, n: nat)
    requires n <= hops
    ensures After(ChainImage(hops), [Name(1)], n) == [Name(n + 1)]
  {
    hide Replaced, ChainImage, Name;
    if n > 0 {
      ChainAfter(hops, n - 1);
      ChainStep(hops, n);
    }
  }

  /** Links in a row, without a circle, are reported like one from the 32nd on:
      the file at their end is link-free but reached one round too late. */
  lemma LongChainRaises()
    ensures var im, p := ChainImage(ROUNDS), [Name(1)];
      && NeverFree(im, p)
      && im.LinkFree(After(im, p, ROUNDS)) && im.IsFile(After(im, p, ROUNDS))
  {
    hide ChainImage, Name, Image.LinkFree, Image.IsLink, After, Image.IsFile;
    ChainAfter(ROUNDS, ROUNDS);
    ChainEnd(ROUNDS);
    var im, p := ChainImage(ROUNDS), [Name(1)];
    forall n | 0 <= n < ROUNDS ensures !im.LinkFree(After(im, p, n)) {
      ChainAfter(ROUNDS, n);
      ChainLink(ROUNDS, n + 1);
    }
  }

  lemma ChainEnd(hops: nat)
    ensures var im, p := ChainImage(hops), [Name(hops + 1)]; im.LinkFree(p) && im.IsFile(p)
  {
    hide Links, Name;
    var im, p := ChainImage(hops), [Name(hops + 1)];
    forall i | 0 < i <= |p| ensures !im.IsLink(p[..i]) { assert p[..i] == p; }
  }
}
