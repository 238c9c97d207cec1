// The update allowlist (RomUpdateLayoutV1.py): which ranges an update may
// program, which it hashes before and after, and why the two never meet.

module UpdateLayout {
  import opened Disk
  import opened Outcomes
  import opened Layout

  predicate Updatable(n: PartName) { n.Boot? || n.Dtbo? || n.Vendor? || n.System? }

  lemma UpdatableIsImageOrder()
    ensures forall n :: n in IMAGE_ORDER <==> Updatable(n)
    ensures forall i, j :: 0 <= i < j < |IMAGE_ORDER| ==> IMAGE_ORDER[i] != IMAGE_ORDER[j]
  {
  }

  /** The images in the order in which they are written. */
  function ImageAt(k: nat): (n: PartName)
    requires k < 4
    ensures Updatable(n)
    ensures n.Boot? ==> k == 0
    ensures n.Dtbo? ==> k == 1
    ensures n.Vendor? ==> k == 2
    ensures n.System? ==> k == 3
  {
    if k == 0 then Boot else if k == 1 then Dtbo else if k == 2 then Vendor else System
  }

  // ---- which partitions a range overlaps ----

  function Overlapping(lay: Layout, names: seq<PartName>, r: Region): (hits: seq<PartName>)
    ensures forall n :: n in hits <==> n in names && r.Overlaps(lay.parts(n))
    ensures hits == [] <==> forall n :: n in names ==> !r.Overlaps(lay.parts(n))
  {
    if names == [] then []
    else (if r.Overlaps(lay.parts(names[0])) then [names[0]] else []) + Overlapping(lay, names[1..], r)
  }

  function PartitionAt(lay: Layout, r: Region): seq<PartName> { Overlapping(lay, ALL_PARTS, r) }

  lemma {:induction false} OverlappingSingle(lay: Layout, names: seq<PartName>, r: Region, n: PartName)
    requires NoDuplicates(names) && n in names
    requires forall m :: r.Overlaps(lay.parts(m)) <==> m == n
    ensures Overlapping(lay, names, r) == [n]
  {
    var rest := Overlapping(lay, names[1..], r);
    if names[0] == n {
      assert n !in names[1..];
      assert rest == [];
    } else {
      OverlappingSingle(lay, names[1..], r, n);
    }
  }

  lemma AllPartsListed()
    ensures NoDuplicates(ALL_PARTS)
    ensures forall n :: n in ALL_PARTS
  {
    forall n: PartName ensures n in ALL_PARTS {
      assert n.Fsg? || n.Dtbo? || n.Boot? || n.Recovery? || n.Fsc? || n.Modemst1? || n.Modemst2? || n.System?
          || n.Vendor? || n.Persist? || n.Misc? || n.Devinfo? || n.Vbmeta? || n.Userdata? || n.Metadata?;
    }
  }

  /** A non-empty range inside a partition overlaps that partition and no other. */
  lemma InsideOverlapsOnly(lay: Layout, r: Region, n: PartName)
    requires lay.Valid() && r.sectors > 0 && r.Inside(lay.parts(n))
    ensures forall m :: r.Overlaps(lay.parts(m)) <==> m == n
    ensures !lay.gptPrimary.Overlaps(r) && !lay.gptTail.Overlaps(r)
    ensures r.Within(lay.diskBytes)
  {
    forall m | r.Overlaps(lay.parts(m)) ensures m == n {
      assert m == n || !lay.parts(n).Overlaps(lay.parts(m));
    }
    assert lay.parts(n).Within(lay.diskBytes);
    assert !lay.gptPrimary.Overlaps(lay.parts(n)) && !lay.gptTail.Overlaps(lay.parts(n));
  }

  lemma PartitionAtInside(lay: Layout, r: Region, n: PartName)
    requires lay.Valid() && r.sectors > 0 && r.Inside(lay.parts(n))
    ensures PartitionAt(lay, r) == [n]
  {
    InsideOverlapsOnly(lay, r, n);
    AllPartsListed();
    OverlappingSingle(lay, ALL_PARTS, r, n);
  }

  // ---- what the guard means ----

  ghost predicate IsZeroWrite(lay: Layout, w: Write) {
    || (w.tag.MetadataZero? && w.region == Region(lay.parts(Metadata).start, lay.metadataHeadZero))
    || (w.tag.UserdataZero? && w.region == Region(lay.parts(Userdata).start, lay.userdataHeadZero))
  }

  ghost predicate IsImageWrite(lay: Layout, w: Write) {
    && w.tag.Part? && Updatable(w.tag.name)
    && w.region.start == lay.Start(w.tag.name)
    && 0 < w.region.sectors <= lay.Sectors(w.tag.name)
  }

  /** The allowlist: a head of one of the four image partitions under its own
      name, or, when wiping, exactly one of the two zeroed heads. */
  ghost predicate WriteAllowed(lay: Layout, w: Write, wipe: bool) {
    IsImageWrite(lay, w) || (wipe && IsZeroWrite(lay, w))
  }

  ghost predicate PlanAllowed(lay: Layout, writes: seq<Write>, wipe: bool) {
    && (forall k :: 0 <= k < |writes| ==> WriteAllowed(lay, writes[k], wipe))
    && (forall i, j :: 0 <= i < j < |writes| ==> writes[i].tag != writes[j].tag)
  }

  /** The partition an allowed write lies in. */
  ghost function Target(w: Write): PartName {
    match w.tag
    case Part(n) => n
    case MetadataZero => Metadata
    case _ => Userdata
  }

  lemma AllowedIsInside(lay: Layout, w: Write, wipe: bool)
    requires lay.Valid() && WriteAllowed(lay, w, wipe)
    ensures w.region.sectors > 0 && w.region.start >= 0 && w.region.Inside(lay.parts(Target(w)))
    ensures w.region.Within(lay.diskBytes)
    ensures PartitionAt(lay, w.region) == [Target(w)]
    ensures !lay.gptPrimary.Overlaps(w.region) && !lay.gptTail.Overlaps(w.region)
  {
    PartitionAtInside(lay, w.region, Target(w));
    InsideOverlapsOnly(lay, w.region, Target(w));
  }

  function ZeroTags(): set<Label> { {MetadataZero, UserdataZero} }

  function ZeroRegion(lay: Layout, tag: Label): Region
    requires tag in ZeroTags()
  {
    if tag.MetadataZero? then MetadataHead(lay) else UserdataZeroHead(lay)
  }

  function ZeroTarget(tag: Label): PartName
    requires tag in ZeroTags()
  {
    if tag.MetadataZero? then Metadata else Userdata
  }

  predicate TouchesGpt(lay: Layout, r: Region) {
    r.Overlaps(lay.gptPrimary) || r.Overlaps(lay.gptTail)
  }

  /** The checks one planned write goes through, apart from the duplicate test. */
  method CheckUpdateWrite(lay: Layout, w: Write, wipe: bool) returns (ok: bool)
    requires lay.Valid()
    ensures ok <==> WriteAllowed(lay, w, wipe)
  {
    hide Layout.Valid, PartitionAt, Region.Inside, Region.Overlaps, TouchesGpt;
    var r := w.region;
    if WriteAllowed(lay, w, wipe) { AllowedGeometry(lay, w, wipe); }
    if r.sectors <= 0 || r.start < 0 { return false; }
    var hit := PartitionAt(lay, r);
    if |hit| != 1 { return false; }
    var name := hit[0];
    if wipe && (w.tag in ZeroTags() || name in {Metadata, Userdata}) {
      if w.tag !in ZeroTags() || ZeroRegion(lay, w.tag) != r || ZeroTarget(w.tag) != name { return false; }
      if TouchesGpt(lay, r) { return false; }
      return true;
    }
    if !Updatable(name) { return false; }
    if r.start != lay.Start(name) || r.start + r.sectors > lay.Start(name) + lay.Sectors(name) { return false; }
    if w.tag != Part(name) { return false; }
    if TouchesGpt(lay, r) { return false; }
    return true;
  }

  lemma AllowedGeometry(lay: Layout, w: Write, wipe: bool)
    requires lay.Valid() && WriteAllowed(lay, w, wipe)
    ensures w.region.sectors > 0 && w.region.start >= 0 && !TouchesGpt(lay, w.region)
    ensures PartitionAt(lay, w.region) == [Target(w)]
  {
    AllowedIsInside(lay, w, wipe);
  }

  method CheckUpdatePlan(lay: Layout, writes: seq<Write>, wipe: bool) returns (o: Outcome)
    requires lay.Valid()
    ensures o.Pass? <==> PlanAllowed(lay, writes, wipe)
    ensures o.Stopped? ==> o.why == PlanRefused
  {
    hide WriteAllowed, Layout.Valid;
    var seen: set<Label> := {};
    for i := 0 to |writes|
      invariant PlanAllowed(lay, writes[..i], wipe)
      invariant forall t :: t in seen <==> exists k :: 0 <= k < i && writes[k].tag == t
    {
      var ok := CheckUpdateWrite(lay, writes[i], wipe);
      if !ok { return Stopped(PlanRefused); }
      if writes[i].tag in seen { return Stopped(PlanRefused); }
      seen := seen + {writes[i].tag};
    }
    assert writes[..|writes|] == writes;
    o := Pass;
  }

  // ---- the plan builders: what they build is always accepted ----

  lemma ImageWritesAllowed(lay: Layout, sizes: map<PartName, int>, wipe: bool)
    requires lay.Valid()
    requires forall n :: n in IMAGE_ORDER ==> n in sizes && Fits(lay, n, sizes[n])
    ensures PlanAllowed(lay, ImageWrites(lay, sizes), wipe)
    ensures PlanAllowed(lay, ImageWrites(lay, sizes) + ZeroWrites(lay), true)
  {
    UpdatableIsImageOrder();
    var ws := ImageWrites(lay, sizes);
    forall k | 0 <= k < |ws| ensures WriteAllowed(lay, ws[k], wipe) && ws[k].tag == Part(IMAGE_ORDER[k]) {
      assert IMAGE_ORDER[k] in IMAGE_ORDER;
    }
  }

  method UpdateWrites(lay: Layout, sizes: map<PartName, int>) returns (o: Outcome, out: seq<Write>)
    requires lay.Valid() && forall n :: n in IMAGE_ORDER ==> n in sizes
    ensures o.Pass? <==> forall n :: n in IMAGE_ORDER ==> Fits(lay, n, sizes[n])
    ensures o.Stopped? ==> o.why == DoesNotFit
    ensures o.Pass? ==> out == ImageWrites(lay, sizes) && PlanAllowed(lay, out, false)
    ensures o.Pass? ==> |out| == 4 && ImagesInOrder(lay, sizes, out)
  {
    out :- BuildImageWrites(lay, sizes);
    ImageWritesAllowed(lay, sizes, false);
    o := CheckUpdatePlan(lay, out, false);
  }

  method WipeWrites(lay: Layout, sizes: map<PartName, int>) returns (o: Outcome, out: seq<Write>)
    requires lay.Valid() && forall n :: n in IMAGE_ORDER ==> n in sizes
    ensures o.Pass? <==> forall n :: n in IMAGE_ORDER ==> Fits(lay, n, sizes[n])
    ensures o.Stopped? ==> o.why == DoesNotFit
    ensures o.Pass? ==> out == ImageWrites(lay, sizes) + ZeroWrites(lay) && PlanAllowed(lay, out, true)
    ensures o.Pass? ==>
      && |out| == 6 && ImagesInOrder(lay, sizes, out)
      && out[4] == Write(MetadataZero, Region(lay.parts(Metadata).start, lay.metadataHeadZero))
      && out[5] == Write(UserdataZero, Region(lay.parts(Userdata).start, lay.userdataHeadZero))
  {
    out :- UpdateWrites(lay, sizes);
    ImageWritesAllowed(lay, sizes, true);
    out := out + ZeroWrites(lay);
    o := CheckUpdatePlan(lay, out, true);
  }

  lemma ZeroWritesAllowed(lay: Layout)
    requires lay.Valid()
    ensures forall k :: 0 <= k < |ZeroWrites(lay)| ==> WriteAllowed(lay, ZeroWrites(lay)[k], true)
  {
  }

  lemma FullImageWritesAllowed(lay: Layout)
    requires lay.Valid()
    ensures PlanAllowed(lay, FullImageWrites(lay), false)
  {
    var ws := FullImageWrites(lay);
    forall k | 0 <= k < |ws| ensures WriteAllowed(lay, ws[k], false) {
      assert k == 0 || k == 1 || k == 2 || k == 3;
    }
  }

  method RollbackWrites(lay: Layout) returns (o: Outcome, out: seq<Write>)
    requires lay.Valid()
    ensures o.Pass? && out == FullImageWrites(lay) && PlanAllowed(lay, out, false)
    ensures out == [Write(Part(Boot), lay.parts(Boot)), Write(Part(Dtbo), lay.parts(Dtbo)),
                    Write(Part(Vendor), lay.parts(Vendor)), Write(Part(System), lay.parts(System))]
  {
    out := FullImageWrites(lay);
    FullImageWritesAllowed(lay);
    o := CheckUpdatePlan(lay, out, false);
  }

  // ---- dropping writes from a plan ----

  predicate Wanted(w: Write, skip: set<PartName>) { w.tag.Part? && w.tag.name !in skip }

  function Keep(ws: seq<Write>, skip: set<PartName>): (ks: seq<Write>)
    ensures forall w :: w in ks <==> w in ws && Wanted(w, skip)
  {
    if ws == [] then [] else (if Wanted(ws[0], skip) then [ws[0]] else []) + Keep(ws[1..], skip)
  }

  ghost predicate DistinctTags(ws: seq<Write>) {
    forall i, j :: 0 <= i < j < |ws| ==> ws[i].tag != ws[j].tag
  }

  lemma {:induction false} KeepDistinct(ws: seq<Write>, skip: set<PartName>)
    requires DistinctTags(ws)
    ensures DistinctTags(Keep(ws, skip))
  {
    if ws != [] {
      var rest := ws[1..];
      var ks := Keep(rest, skip);
      assert DistinctTags(rest) by {
        forall i, j | 0 <= i < j < |rest| ensures rest[i].tag != rest[j].tag { assert ws[i + 1].tag != ws[j + 1].tag; }
      }
      KeepDistinct(rest, skip);
      forall j | 0 <= j < |ks| ensures ks[j].tag != ws[0].tag {
        assert ks[j] in rest;
        var m :| 0 <= m < |rest| && rest[m] == ks[j];
        assert ws[m + 1].tag != ws[0].tag;
      }
      ConsDistinct(ws[0], ks);
      assert Keep(ws, skip) == if Wanted(ws[0], skip) then [ws[0]] + ks else ks;
    }
  }

  /** What is kept of an accepted plan is accepted without the wipe flag. */
  lemma KeepAllowed(lay: Layout, all: seq<Write>, skip: set<PartName>, wipe: bool)
    requires PlanAllowed(lay, all, wipe)
    ensures PlanAllowed(lay, Keep(all, skip), false)
  {
    hide IsImageWrite, Keep;
    var ws := Keep(all, skip);
    KeepDistinct(all, skip);
    forall k | 0 <= k < |ws| ensures WriteAllowed(lay, ws[k], false) {
      assert ws[k] in ws;
      var m :| 0 <= m < |all| && all[m] == ws[k];
      assert WriteAllowed(lay, all[m], wipe);
    }
  }

  lemma KeptIndex(all: seq<Write>, skip: set<PartName>, m: nat) returns (k: nat)
    requires m < |all| && Wanted(all[m], skip)
    ensures k < |Keep(all, skip)| && Keep(all, skip)[k] == all[m]
  {
    hide Keep;
    assert all[m] in all && all[m] in Keep(all, skip);
    k :| 0 <= k < |Keep(all, skip)| && Keep(all, skip)[k] == all[m];
  }

  lemma ConsDistinct(w: Write, ks: seq<Write>)
    requires DistinctTags(ks) && forall j :: 0 <= j < |ks| ==> ks[j].tag != w.tag
    ensures DistinctTags([w] + ks)
  {
    var all := [w] + ks;
    forall i, j | 0 <= i < j < |all| ensures all[i].tag != all[j].tag {
      assert all[j] == ks[j - 1] && (i > 0 ==> all[i] == ks[i - 1]);
    }
  }

  // ---- what acceptance guarantees ----

  lemma AllowedTargetsDiffer(lay: Layout, a: Write, b: Write, wipe: bool)
    requires WriteAllowed(lay, a, wipe) && WriteAllowed(lay, b, wipe) && a.tag != b.tag
    ensures Target(a) != Target(b)
  {
  }

  lemma InsideDisjoint(lay: Layout, a: Region, b: Region, m: PartName, n: PartName)
    requires lay.Valid() && m != n && a.Inside(lay.parts(m)) && b.Inside(lay.parts(n))
    ensures !a.Overlaps(b)
  {
    assert !lay.parts(m).Overlaps(lay.parts(n));
  }

  /** Accepted plans write pairwise disjoint ranges, all on the disk. */
  lemma AllowedPlanDisjoint(lay: Layout, writes: seq<Write>, wipe: bool)
    requires lay.Valid() && PlanAllowed(lay, writes, wipe)
    ensures PairwiseDisjoint(WriteRegions(writes))
    ensures AllWithin(WriteRegions(writes), lay.diskBytes)
  {
    var rs := WriteRegions(writes);
    forall i, j | 0 <= i < j < |rs| ensures !rs[i].Overlaps(rs[j]) {
      AllowedIsInside(lay, writes[i], wipe);
      AllowedIsInside(lay, writes[j], wipe);
      AllowedTargetsDiffer(lay, writes[i], writes[j], wipe);
      InsideDisjoint(lay, rs[i], rs[j], Target(writes[i]), Target(writes[j]));
    }
    forall i | 0 <= i < |rs| ensures rs[i].Within(lay.diskBytes) { AllowedIsInside(lay, writes[i], wipe); }
  }

  /** So the programs of an accepted plan may be done in any order. */
  lemma AllowedPlanAnyOrder(lay: Layout, writes: seq<Write>, wipe: bool, d: Bytes, ps: seq<Patch>, qs: seq<Patch>)
    requires lay.Valid() && PlanAllowed(lay, writes, wipe)
    requires FitAll(ps, |d|) && Regions(ps) == WriteRegions(writes)
    requires multiset(qs) == multiset(ps)
    ensures FitAll(qs, |d|) && WriteAll(d, qs) == WriteAll(d, ps)
  {
    AllowedPlanDisjoint(lay, writes, wipe);
    WriteOrderIrrelevant(d, ps, qs);
  }

  /** The update guard is stricter than the plan guard install and restore use. */
  lemma UpdatePlanIsPlan(lay: Layout, writes: seq<Write>, wipe: bool)
    requires lay.Valid() && PlanAllowed(lay, writes, wipe)
    ensures forall k :: 0 <= k < |writes| ==> Programmable(lay, writes[k].region)
  {
    forall k | 0 <= k < |writes| ensures Programmable(lay, writes[k].region) {
      AllowedIsInside(lay, writes[k], wipe);
      assert MayProgram(Target(writes[k]));
    }
  }

  // ---- the protected regions ----

  function Min(a: int, b: int): int { if a < b then a else b }

  function UserdataHeadRegion(lay: Layout): (r: Region)
    ensures r.Lo() == lay.parts(Userdata).Lo()
    ensures lay.Valid() ==> r.sectors == lay.userdataHeadBackup
  {
    lay.Head(Userdata, Min(lay.userdataHeadBackup, lay.Sectors(Userdata)))
  }

  /** The part of `r` behind its first `skip` sectors. */
  function After(r: Region, skip: int): (a: Region)
    ensures a.Lo() == r.Lo() + skip * SECTOR && a.Hi() == r.Hi()
  {
    Region(r.start + skip, r.sectors - skip)
  }

  /** Hashed before the first write and again after the last readback. When
      wiping, metadata and the userdata head start behind their zeroed heads. */
  function InvariantRegions(lay: Layout, wipe: bool): seq<Write> {
    [Write(GptPrimary, lay.gptPrimary), Write(GptTail, lay.gptTail), PartWrite(lay, Misc)]
    + (if wipe then [] else [PartWrite(lay, Metadata)])
    + [PartWrite(lay, Persist), PartWrite(lay, Modemst1), PartWrite(lay, Modemst2), PartWrite(lay, Fsg),
       PartWrite(lay, Fsc), PartWrite(lay, Recovery), PartWrite(lay, Vbmeta), PartWrite(lay, Devinfo)]
    + (if wipe then [] else [Write(UserdataHead, UserdataHeadRegion(lay))])
    + [Write(UserdataTail, UserdataTailRegion(lay))]
    + (if wipe then
         [Write(MetadataAfterZero, After(lay.parts(Metadata), lay.metadataHeadZero)),
          Write(UserdataHeadAfterZero, After(UserdataHeadRegion(lay), lay.userdataHeadZero))]
       else [])
  }

  /** What one protected region is, without the order of the list. */
  ghost predicate IsProtected(lay: Layout, v: Write, wipe: bool) {
    match v.tag
    case GptPrimary => v.region == lay.gptPrimary
    case GptTail => v.region == lay.gptTail
    case Part(n) =>
      v.region == lay.parts(n) && !Updatable(n) && !n.Userdata? && (wipe ==> !n.Metadata?)
    case UserdataHead => !wipe && v.region == UserdataHeadRegion(lay)
    case UserdataTail => v.region == UserdataTailRegion(lay)
    case MetadataAfterZero => wipe && v.region == After(lay.parts(Metadata), lay.metadataHeadZero)
    case UserdataHeadAfterZero => wipe && v.region == After(UserdataHeadRegion(lay), lay.userdataHeadZero)
    case _ => false
  }

  lemma InvariantRegionsProtected(lay: Layout, wipe: bool)
    ensures forall k :: 0 <= k < |InvariantRegions(lay, wipe)| ==>
      IsProtected(lay, InvariantRegions(lay, wipe)[k], wipe)
  {
    var tables := [Write(GptPrimary, lay.gptPrimary), Write(GptTail, lay.gptTail), PartWrite(lay, Misc)];
    var metadata := if wipe then [] else [PartWrite(lay, Metadata)];
    var parts :=
      [PartWrite(lay, Persist), PartWrite(lay, Modemst1), PartWrite(lay, Modemst2), PartWrite(lay, Fsg),
       PartWrite(lay, Fsc), PartWrite(lay, Recovery), PartWrite(lay, Vbmeta), PartWrite(lay, Devinfo)];
    var head := if wipe then [] else [Write(UserdataHead, UserdataHeadRegion(lay))];
    var tail := [Write(UserdataTail, UserdataTailRegion(lay))];
    var after := if wipe then
        [Write(MetadataAfterZero, After(lay.parts(Metadata), lay.metadataHeadZero)),
         Write(UserdataHeadAfterZero, After(UserdataHeadRegion(lay), lay.userdataHeadZero))]
      else [];
    assert AllProtected(lay, tables, wipe) && AllProtected(lay, metadata, wipe) && AllProtected(lay, parts, wipe);
    assert AllProtected(lay, head, wipe) && AllProtected(lay, tail, wipe) && AllProtected(lay, after, wipe);
    assert InvariantRegions(lay, wipe) == tables + metadata + parts + head + tail + after;
    hide IsProtected, InvariantRegions;
    assert AllProtected(lay, tables + metadata + parts, wipe);
    assert AllProtected(lay, tables + metadata + parts + head + tail + after, wipe);
  }

  ghost predicate AllProtected(lay: Layout, vs: seq<Write>, wipe: bool) {
    forall k :: 0 <= k < |vs| ==> IsProtected(lay, vs[k], wipe)
  }

  lemma ProtectedWithin(lay: Layout, v: Write, wipe: bool)
    requires lay.Valid() && IsProtected(lay, v, wipe)
    ensures v.region.Within(lay.diskBytes)
  {
    assert lay.parts(Userdata).Within(lay.diskBytes) && lay.parts(Metadata).Within(lay.diskBytes);
    if v.tag.Part? { assert lay.parts(v.tag.name).Within(lay.diskBytes); }
  }

  /** No range the guard accepts meets a region the run promises to keep, so a
      faithful device never trips the check that compares them. */
  lemma AllowedAvoidsProtected(lay: Layout, w: Write, v: Write, wipe: bool)
    requires lay.Valid() && WriteAllowed(lay, w, wipe) && IsProtected(lay, v, wipe)
    ensures !w.region.Overlaps(v.region)
  {
    hide PartitionAt;
    AllowedIsInside(lay, w, wipe);
    match v.tag
    case GptPrimary =>
    case GptTail =>
    case Part(n) => InsideDisjoint(lay, w.region, v.region, Target(w), n);
    case MetadataAfterZero =>
      if Target(w) != Metadata { InsideDisjoint(lay, w.region, v.region, Target(w), Metadata); }
    case _ =>
      if Target(w) != Userdata { InsideDisjoint(lay, w.region, v.region, Target(w), Userdata); }
  }

  /** Byte `i` of partition `n` must not change: not between the first and last
      sectors of userdata, which are too many to hash, and when wiping not in the
      first sectors that are zeroed. */
  ghost predicate Watched(lay: Layout, wipe: bool, n: PartName, i: int) {
    var p := lay.parts(n);
    && p.start * SECTOR <= i < (p.start + p.sectors) * SECTOR
    && (n.Userdata? ==> || i < (p.start + lay.userdataHeadBackup) * SECTOR
                        || i >= (p.start + p.sectors - lay.userdataTailBackup) * SECTOR)
    && (n.Userdata? && wipe ==> i >= (p.start + lay.userdataHeadZero) * SECTOR)
    && (n.Metadata? && wipe ==> i >= (p.start + lay.metadataHeadZero) * SECTOR)
  }

  /** All these bytes of every partition the update must not write are hashed. */
  lemma ProtectedCoverage(lay: Layout, wipe: bool, n: PartName, i: int)
    requires lay.Valid() && !Updatable(n)
    requires Watched(lay, wipe, n, i)
    ensures exists v :: v in InvariantRegions(lay, wipe) && v.region.Covers(i)
  {
    var v :=
      if n.Userdata? then
        if UserdataTailRegion(lay).Covers(i) then Write(UserdataTail, UserdataTailRegion(lay))
        else if wipe then Write(UserdataHeadAfterZero, After(UserdataHeadRegion(lay), lay.userdataHeadZero))
        else Write(UserdataHead, UserdataHeadRegion(lay))
      else if n.Metadata? && wipe then
        Write(MetadataAfterZero, After(lay.parts(Metadata), lay.metadataHeadZero))
      else PartWrite(lay, n);
    assert v.region.Covers(i);
    ProtectedListed(lay, v, wipe);
  }

  lemma ProtectedListed(lay: Layout, v: Write, wipe: bool)
    requires IsProtected(lay, v, wipe)
    ensures v in InvariantRegions(lay, wipe)
  {
    if v.tag.Part? {
      var n := v.tag.name;
      assert n.Fsg? || n.Recovery? || n.Fsc? || n.Modemst1? || n.Modemst2? || n.Persist? || n.Misc? || n.Devinfo?
          || n.Vbmeta? || n.Metadata?;
    }
  }
}
