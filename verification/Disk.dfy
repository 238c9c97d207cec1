// Bytes, sector ranges and byte-level overwrites: the vocabulary of every
// claim about what is on the eMMC.

module Disk {
  newtype byte = b: int | 0 <= b < 256

  type Bytes = seq<byte>

  /** SHA-256 is abstract: any total function from bytes to digests. Collision
      freedom is never assumed globally; a lemma that needs it says for which
      two byte strings. */
  type Digest = string
  type Hash = Bytes -> Digest

  /** These two byte strings are not a collision of the hash. */
  ghost predicate NoCollision(sha: Hash, x: Bytes, y: Bytes) { sha(x) == sha(y) ==> x == y }

  const SECTOR := 512

  /** A range of whole sectors: (start, count) as every tool passes it around. */
  datatype Region = Region(start: int, sectors: int) {
    function Lo(): int { start * SECTOR }

    function Hi(): int { (start + sectors) * SECTOR }

    function Size(): int { sectors * SECTOR }

    predicate Within(bytes: int) { 0 <= start && 0 <= sectors && Hi() <= bytes }

    predicate Covers(i: int) { Lo() <= i < Hi() }

    predicate Inside(outer: Region) {
      outer.start <= start && start + sectors <= outer.start + outer.sectors
    }

    /** The interval test the tools use: the two ranges share a sector. */
    predicate Overlaps(other: Region) {
      start < other.start + other.sectors && other.start < start + sectors
    }
  }

  function Slice(d: Bytes, r: Region): (s: Bytes)
    requires r.Within(|d|)
    ensures |s| == r.Size()
  {
    d[r.Lo()..r.Hi()]
  }

  function Overwrite(d: Bytes, at: nat, p: Bytes): (r: Bytes)
    requires at + |p| <= |d|
    ensures |r| == |d|
    ensures forall i :: 0 <= i < |r| ==> r[i] == if at <= i < at + |p| then p[i - at] else d[i]
  {
    d[..at] + p + d[at + |p|..]
  }

  function Zeros(n: nat): (z: Bytes)
    ensures |z| == n && forall i :: 0 <= i < n ==> z[i] == 0
  {
    seq(n, i => 0)
  }

  // ---- slices that stop at the end of the bytes ----

  function Take(b: Bytes, n: nat): (t: Bytes) { if n < |b| then b[..n] else b }

  function Drop(b: Bytes, n: nat): (t: Bytes) { if n < |b| then b[n..] else [] }

  /** Python's b[from:to] for bounds that do not count from the end. */
  function Cut(b: Bytes, from: nat, to: int): (t: Bytes) {
    if to <= from then [] else Take(Drop(b, from), to - from)
  }

  /** `d` differs from `d0` at most inside `regions`. */
  ghost predicate SameOutside(d0: Bytes, d: Bytes, regions: seq<Region>) {
    && |d| == |d0|
    && forall i :: 0 <= i < |d| && (forall k :: 0 <= k < |regions| ==> !regions[k].Covers(i)) ==> d[i] == d0[i]
  }

  ghost predicate PairwiseDisjoint(regions: seq<Region>) {
    forall i, j :: 0 <= i < j < |regions| ==> !regions[i].Overlaps(regions[j])
  }

  ghost predicate AllWithin(regions: seq<Region>, bytes: int) {
    forall i :: 0 <= i < |regions| ==> regions[i].Within(bytes)
  }

  lemma SameSize(d0: Bytes, d: Bytes, rs: seq<Region>)
    requires SameOutside(d0, d, rs)
    ensures |d| == |d0|
  {
  }

  lemma SameOutsideTrans(d0: Bytes, d1: Bytes, d2: Bytes, rs: seq<Region>)
    requires SameOutside(d0, d1, rs) && SameOutside(d1, d2, rs)
    ensures SameOutside(d0, d2, rs)
  {
  }

  ghost predicate InsideOne(r: Region, wider: seq<Region>) {
    exists m :: 0 <= m < |wider| && r.Inside(wider[m])
  }

  /** Ranges may be replaced by ranges that contain them. */
  lemma SameOutsideWiden(d0: Bytes, d: Bytes, rs: seq<Region>, wider: seq<Region>)
    requires SameOutside(d0, d, rs)
    requires forall k :: 0 <= k < |rs| ==> InsideOne(rs[k], wider)
    ensures SameOutside(d0, d, wider)
  {
    forall i | 0 <= i < |d| && forall k :: 0 <= k < |wider| ==> !wider[k].Covers(i)
      ensures d[i] == d0[i]
    {
      forall k | 0 <= k < |rs| ensures !rs[k].Covers(i) {
        assert InsideOne(rs[k], wider);
        var m :| 0 <= m < |wider| && rs[k].Inside(wider[m]);
        assert !wider[m].Covers(i);
      }
    }
  }

  lemma SliceSame(d0: Bytes, d: Bytes, r: Region)
    requires |d| == |d0| && r.Within(|d0|)
    requires forall i :: r.Lo() <= i < r.Hi() ==> d[i] == d0[i]
    ensures Slice(d, r) == Slice(d0, r)
  {
    var a, b := Slice(d, r), Slice(d0, r);
    forall j | 0 <= j < |a| ensures a[j] == b[j] {
      var i := r.Lo() + j;
      assert a[j] == d[i] && b[j] == d0[i];
    }
  }

  lemma SliceHead(d: Bytes, from: nat, to: nat, n: nat)
    requires from <= to <= |d| && n <= to - from
    ensures d[from..to][..n] == d[from..from + n]
  {
  }

  /** A range that meets none of the changed ranges reads the same. */
  lemma SliceUntouched(d0: Bytes, d: Bytes, rs: seq<Region>, r: Region)
    requires SameOutside(d0, d, rs) && r.Within(|d0|)
    requires forall k :: 0 <= k < |rs| ==> !rs[k].Overlaps(r)
    ensures Slice(d, r) == Slice(d0, r)
  {
    forall i | r.Lo() <= i < r.Hi() ensures d[i] == d0[i] {
      forall k | 0 <= k < |rs| ensures !rs[k].Covers(i) {
        assert !rs[k].Overlaps(r);
      }
    }
    SliceSame(d0, d, r);
  }

  /** A range read the same also reads the same in every sub-range. */
  lemma SliceInside(d0: Bytes, d: Bytes, outer: Region, r: Region)
    requires |d| == |d0| && outer.Within(|d0|) && r.Within(|d0|) && r.Inside(outer)
    requires Slice(d, outer) == Slice(d0, outer)
    ensures Slice(d, r) == Slice(d0, r)
  {
    forall i | r.Lo() <= i < r.Hi() ensures d[i] == d0[i] {
      assert Slice(d, outer)[i - outer.Lo()] == d[i] && Slice(d0, outer)[i - outer.Lo()] == d0[i];
    }
    SliceSame(d0, d, r);
  }

  /** A disk that may differ only inside `rs` and reads the same there is the same disk. */
  lemma SameEverywhere(d0: Bytes, d: Bytes, rs: seq<Region>)
    requires SameOutside(d0, d, rs) && AllWithin(rs, |d0|)
    requires forall k :: 0 <= k < |rs| ==> Slice(d, rs[k]) == Slice(d0, rs[k])
    ensures d == d0
  {
    forall i | 0 <= i < |d| ensures d[i] == d0[i] {
      if k :| 0 <= k < |rs| && rs[k].Covers(i) { SameByte(d0, d, rs[k], i); }
    }
  }

  lemma SameByte(d0: Bytes, d: Bytes, r: Region, i: nat)
    requires |d| == |d0| && r.Within(|d0|) && Slice(d, r) == Slice(d0, r) && r.Covers(i)
    ensures i < |d| && d[i] == d0[i]
  {
    assert Slice(d, r)[i - r.Lo()] == d[i] && Slice(d0, r)[i - r.Lo()] == d0[i];
  }

  // ---- patches: a range and the bytes that belong there ----

  datatype Patch = Patch(region: Region, payload: Bytes)

  ghost predicate FitAll(ps: seq<Patch>, bytes: int) {
    forall k :: 0 <= k < |ps| ==> ps[k].region.Within(bytes) && |ps[k].payload| == ps[k].region.Size()
  }

  function Regions(ps: seq<Patch>): (rs: seq<Region>)
    ensures |rs| == |ps| && forall k :: 0 <= k < |ps| ==> rs[k] == ps[k].region
  {
    seq(|ps|, k requires 0 <= k < |ps| => ps[k].region)
  }

  /** The reference result of a run: every patch written, in order, onto `d`. */
  ghost function WriteAll(d: Bytes, ps: seq<Patch>): (r: Bytes)
    requires FitAll(ps, |d|)
    ensures |r| == |d|
  {
    if ps == [] then d
    else
      var front := WriteAll(d, ps[..|ps| - 1]);
      Overwrite(front, ps[|ps| - 1].region.Lo(), ps[|ps| - 1].payload)
  }

  /** `d` holds every patch and is `d0` everywhere else. */
  ghost predicate Holds(d0: Bytes, d: Bytes, ps: seq<Patch>) {
    && FitAll(ps, |d0|)
    && SameOutside(d0, d, Regions(ps))
    && forall k :: 0 <= k < |ps| ==> Slice(d, ps[k].region) == ps[k].payload
  }

  /** One more patch on top, away from the others, keeps what they wrote. */
  lemma HoldsExtend(d0: Bytes, d: Bytes, front: seq<Patch>, p: Patch, rs: seq<Region>)
    requires Holds(d0, d, front) && p.region.Within(|d0|) && |p.payload| == p.region.Size()
    requires forall k :: 0 <= k < |front| ==> !p.region.Overlaps(front[k].region)
    requires rs == Regions(front + [p])
    ensures Holds(d0, Overwrite(d, p.region.Lo(), p.payload), front + [p])
  {
    var w := Overwrite(d, p.region.Lo(), p.payload);
    var all := front + [p];
    assert Slice(w, p.region) == p.payload;
    assert SameOutside(d, w, [p.region]) by {
      forall i | 0 <= i < |w| && forall k :: 0 <= k < 1 ==> ![p.region][k].Covers(i) ensures w[i] == d[i] {
        assert ![p.region][0].Covers(i);
      }
    }
    forall k | 0 <= k < |front| ensures Slice(w, front[k].region) == front[k].payload {
      SliceUntouched(d, w, [p.region], front[k].region);
    }
    forall k | 0 <= k < |all| ensures Slice(w, all[k].region) == all[k].payload {
      assert all[k] == if k < |front| then front[k] else p;
    }
    forall i | 0 <= i < |w| && forall k :: 0 <= k < |rs| ==> !rs[k].Covers(i) ensures w[i] == d0[i] {
      assert !rs[|front|].Covers(i);
      forall k | 0 <= k < |front| ensures !Regions(front)[k].Covers(i) { assert rs[k] == front[k].region; }
    }
  }

  lemma {:induction false} WriteAllHolds(d: Bytes, ps: seq<Patch>)
    requires FitAll(ps, |d|) && PairwiseDisjoint(Regions(ps))
    ensures Holds(d, WriteAll(d, ps), ps)
  {
    if ps != [] {
      var front, last := ps[..|ps| - 1], ps[|ps| - 1];
      var rs := Regions(ps);
      forall i, j | 0 <= i < j < |front| ensures !Regions(front)[i].Overlaps(Regions(front)[j]) {
        assert !rs[i].Overlaps(rs[j]);
      }
      WriteAllHolds(d, front);
      forall k | 0 <= k < |front| ensures !last.region.Overlaps(front[k].region) {
        assert !rs[k].Overlaps(rs[|ps| - 1]);
      }
      assert front + [last] == ps;
      HoldsExtend(d, WriteAll(d, front), front, last, rs);
    }
  }

  /** Two disks that hold the same patches over the same base are the same disk,
      whatever order the patches are listed in. */
  lemma HoldsUnique(d0: Bytes, d1: Bytes, d2: Bytes, ps: seq<Patch>, qs: seq<Patch>)
    requires Holds(d0, d1, ps) && Holds(d0, d2, qs)
    requires forall p :: p in ps <==> p in qs
    ensures d1 == d2
  {
    forall i | 0 <= i < |d1| ensures d1[i] == d2[i] {
      if k :| 0 <= k < |ps| && ps[k].region.Covers(i) {
        assert ps[k] in qs;
        var m :| 0 <= m < |qs| && qs[m] == ps[k];
        var at := i - ps[k].region.Lo();
        assert Slice(d1, ps[k].region)[at] == ps[k].payload[at] == Slice(d2, qs[m].region)[at];
      } else {
        forall m | 0 <= m < |qs| ensures !Regions(qs)[m].Covers(i) {
          assert qs[m] in ps;
          var k :| 0 <= k < |ps| && ps[k] == qs[m];
        }
        assert forall k :: 0 <= k < |ps| ==> !Regions(ps)[k].Covers(i);
      }
    }
  }

  /** Disjoint programs commute: any permutation writes the same disk. */
  lemma WriteOrderIrrelevant(d: Bytes, ps: seq<Patch>, qs: seq<Patch>)
    requires FitAll(ps, |d|) && PairwiseDisjoint(Regions(ps))
    requires multiset(qs) == multiset(ps)
    ensures FitAll(qs, |d|) && WriteAll(d, qs) == WriteAll(d, ps)
  {
    forall p ensures p in ps <==> p in qs {
      assert p in ps <==> p in multiset(ps);
      assert p in qs <==> p in multiset(qs);
    }
    assert FitAll(qs, |d|) by {
      forall k | 0 <= k < |qs| ensures qs[k].region.Within(|d|) && |qs[k].payload| == qs[k].region.Size() {
        assert qs[k] in ps;
      }
    }
    assert PairwiseDisjoint(Regions(qs)) by {
      forall i, j | 0 <= i < j < |qs| ensures !Regions(qs)[i].Overlaps(Regions(qs)[j]) {
        PermutedPair(ps, qs, i, j);
        var a, b :| 0 <= a < |ps| && 0 <= b < |ps| && a != b && ps[a] == qs[i] && ps[b] == qs[j];
        var rs := Regions(ps);
        assert a < b ==> !rs[a].Overlaps(rs[b]);
        assert b < a ==> !rs[b].Overlaps(rs[a]);
      }
    }
    WriteAllHolds(d, ps);
    WriteAllHolds(d, qs);
    HoldsUnique(d, WriteAll(d, ps), WriteAll(d, qs), ps, qs);
  }

  /** Two places of a permutation come from two places of the original. */
  lemma PermutedPair<T>(ps: seq<T>, qs: seq<T>, i: nat, j: nat)
    requires multiset(qs) == multiset(ps) && i < j < |qs|
    ensures exists a, b :: 0 <= a < |ps| && 0 <= b < |ps| && a != b && ps[a] == qs[i] && ps[b] == qs[j]
  {
    assert qs[i] in multiset(qs);
    var a :| 0 <= a < |ps| && ps[a] == qs[i];
    WithoutOne(ps, a);
    WithoutOne(qs, i);
    StillThere(qs, i, j);
    var b := FoundElsewhere(ps, a, qs[j]);
  }

  lemma StillThere<T>(s: seq<T>, i: nat, j: nat)
    requires i < j < |s|
    ensures s[j] in multiset(s[..i] + s[i + 1..])
  {
    assert (s[..i] + s[i + 1..])[j - 1] == s[j];
  }

  lemma FoundElsewhere<T>(s: seq<T>, a: nat, x: T) returns (b: nat)
    requires a < |s| && x in multiset(s[..a] + s[a + 1..])
    ensures b < |s| && b != a && s[b] == x
  {
    var rest := s[..a] + s[a + 1..];
    var m :| 0 <= m < |rest| && rest[m] == x;
    b := if m < a then m else m + 1;
  }

  lemma WithoutOne<T>(s: seq<T>, i: nat)
    requires i < |s|
    ensures multiset(s[..i] + s[i + 1..]) == multiset(s) - multiset{s[i]}
  {
    assert s == s[..i] + [s[i]] + s[i + 1..];
  }
}
