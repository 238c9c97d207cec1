// Undoing an install (RomFlashEngineV1.run_restore) and the theorem it exists
// for: wherever the install stopped, and whatever the ROM wrote where it may
// write, the restore brings the old contents back.

module Restores {
  import opened Options
  import opened Disk
  import opened Outcomes
  import opened Layout
  import opened UpdateLayout
  import opened Streams
  import opened Devices
  import opened Sessions
  import opened Survey
  import opened Orders
  import opened Phases
  import opened UpdateSurvey
  import opened UpdateEngine
  import opened Installs

  datatype UserdataMode = Zero | Original

  // ---- the plan ----

  function UserdataWrites(lay: Layout, mode: UserdataMode): (ws: seq<Write>)
    ensures |ws| == 2
  {
    match mode
    case Zero => [Write(UserdataZero, UserdataZeroHead(lay)), Write(UserdataFooterZero, UserdataFooterRegion(lay))]
    case Original => [Write(UserdataHead, lay.Head(Userdata, lay.userdataHeadBackup)),
      Write(UserdataTail, UserdataTailRegion(lay))]
  }

  /** Four full partitions, the ROM-writable ones that changed, and userdata. */
  function RestorePlan(lay: Layout, intact: set<PartName>, mode: UserdataMode): seq<Write> {
    FullImageWrites(lay) + Keep(RomWrites(lay), intact) + UserdataWrites(lay, mode)
  }

  /** What one planned restore write is. */
  ghost predicate IsRestoreWrite(lay: Layout, w: Write, mode: UserdataMode) {
    match w.tag
    case Part(n) => w.region == lay.parts(n) && (Updatable(n) || RomMayWrite(n))
    case UserdataZero => mode.Zero? && w.region == UserdataZeroHead(lay)
    case UserdataFooterZero => mode.Zero? && w.region == UserdataFooterRegion(lay)
    case UserdataHead => mode.Original? && w.region == lay.Head(Userdata, lay.userdataHeadBackup)
    case UserdataTail => mode.Original? && w.region == UserdataTailRegion(lay)
    case _ => false
  }

  function RestoreTarget(w: Write): PartName { if w.tag.Part? then w.tag.name else Userdata }

  lemma RestoreInside(lay: Layout, w: Write, mode: UserdataMode)
    requires lay.Valid() && IsRestoreWrite(lay, w, mode)
    ensures w.region.Inside(lay.parts(RestoreTarget(w))) && w.region.sectors > 0 && w.region.start >= 0
    ensures w.region.Within(lay.diskBytes) && Programmable(lay, w.region)
  {
    assert lay.parts(RestoreTarget(w)).Within(lay.diskBytes) && lay.parts(RestoreTarget(w)).sectors > 0;
    assert MayProgram(RestoreTarget(w));
  }

  lemma RestoreApart(lay: Layout, a: Write, b: Write, mode: UserdataMode)
    requires lay.Valid() && IsRestoreWrite(lay, a, mode) && IsRestoreWrite(lay, b, mode) && a.tag != b.tag
    ensures !a.region.Overlaps(b.region)
  {
    RestoreInside(lay, a, mode);
    RestoreInside(lay, b, mode);
    if RestoreTarget(a) != RestoreTarget(b) {
      InsideDisjoint(lay, a.region, b.region, RestoreTarget(a), RestoreTarget(b));
    }
  }

  lemma PlanPartsDistinct(lay: Layout, mode: UserdataMode)
    ensures DistinctTags(RomWrites(lay)) && DistinctTags(FullImageWrites(lay))
      && DistinctTags(UserdataWrites(lay, mode))
  {
  }

  lemma RomWritesAre(lay: Layout, mode: UserdataMode)
    ensures forall w :: w in RomWrites(lay) ==>
      w.tag.Part? && RomMayWrite(w.tag.name) && w == PartWrite(lay, w.tag.name)
    ensures forall w :: w in FullImageWrites(lay) ==>
      w.tag.Part? && Updatable(w.tag.name) && w == PartWrite(lay, w.tag.name)
    ensures forall w :: w in UserdataWrites(lay, mode) ==> !w.tag.Part? && IsRestoreWrite(lay, w, mode)
    ensures forall n :: RomMayWrite(n) ==> PartWrite(lay, n) in RomWrites(lay)
    ensures forall n :: Updatable(n) ==> PartWrite(lay, n) in FullImageWrites(lay)
  {
    hide RomWrites, FullImageWrites, UserdataWrites, IsRestoreWrite;
    RomWritesListed(lay);
    ImageWritesListed(lay);
    UserdataWritesListed(lay, mode);
  }

  lemma RomWritesListed(lay: Layout)
    ensures forall w :: w in RomWrites(lay) ==>
      w.tag.Part? && RomMayWrite(w.tag.name) && w == PartWrite(lay, w.tag.name)
    ensures forall n :: RomMayWrite(n) ==> PartWrite(lay, n) in RomWrites(lay)
  {
  }

  lemma ImageWritesListed(lay: Layout)
    ensures forall w :: w in FullImageWrites(lay) ==>
      w.tag.Part? && Updatable(w.tag.name) && w == PartWrite(lay, w.tag.name)
    ensures forall n :: Updatable(n) ==> PartWrite(lay, n) in FullImageWrites(lay)
  {
  }

  lemma UserdataWritesListed(lay: Layout, mode: UserdataMode)
    ensures forall w :: w in UserdataWrites(lay, mode) ==> !w.tag.Part? && IsRestoreWrite(lay, w, mode)
  {
  }

  lemma ConcatDistinct(xs: seq<Write>, ys: seq<Write>)
    requires DistinctTags(xs) && DistinctTags(ys)
    requires forall x, y :: x in xs && y in ys ==> x.tag != y.tag
    ensures DistinctTags(xs + ys)
  {
    var zs := xs + ys;
    forall i, j | 0 <= i < j < |zs| ensures zs[i].tag != zs[j].tag {
      if i < |xs| <= j { assert xs[i] in xs && ys[j - |xs|] in ys; }
      else if |xs| <= i { assert ys[i - |xs|].tag != ys[j - |xs|].tag; }
    }
  }

  lemma RestorePlanOk(lay: Layout, intact: set<PartName>, mode: UserdataMode)
    requires lay.Valid()
    ensures var ws := RestorePlan(lay, intact, mode);
            && DistinctTags(ws) && PairwiseDisjoint(WriteRegions(ws)) && AllWithin(WriteRegions(ws), lay.diskBytes)
            && (forall k :: 0 <= k < |ws| ==> IsRestoreWrite(lay, ws[k], mode) && Programmable(lay, ws[k].region))
  {
    var ws := RestorePlan(lay, intact, mode);
    RestorePlanTags(lay, intact, mode);
    forall k | 0 <= k < |ws|
      ensures IsRestoreWrite(lay, ws[k], mode) && Programmable(lay, ws[k].region) && ws[k].region.Within(lay.diskBytes)
    {
      assert ws[k] in ws;
      RestoreInside(lay, ws[k], mode);
    }
    forall i, j | 0 <= i < j < |ws| ensures !WriteRegions(ws)[i].Overlaps(WriteRegions(ws)[j]) {
      RestoreApart(lay, ws[i], ws[j], mode);
    }
  }

  lemma RestorePlanTags(lay: Layout, intact: set<PartName>, mode: UserdataMode)
    ensures DistinctTags(RestorePlan(lay, intact, mode))
    ensures forall w :: w in RestorePlan(lay, intact, mode) ==> IsRestoreWrite(lay, w, mode)
  {
    hide FullImageWrites, RomWrites, UserdataWrites, Keep, DistinctTags, IsRestoreWrite;
    RomWritesAre(lay, mode);
    PlanPartsDistinct(lay, mode);
    KeepDistinct(RomWrites(lay), intact);
    var full, rom, ud := FullImageWrites(lay), Keep(RomWrites(lay), intact), UserdataWrites(lay, mode);
    PartWritesRestore(lay, mode);
    ConcatDistinct(full, rom);
    ConcatDistinct(full + rom, ud);
  }

  lemma PartWritesRestore(lay: Layout, mode: UserdataMode)
    ensures forall w: Write ::
      w.tag.Part? && (Updatable(w.tag.name) || RomMayWrite(w.tag.name)) && w == PartWrite(lay, w.tag.name) ==>
      IsRestoreWrite(lay, w, mode)
  {
  }

  // ---- the capture ----

  predicate Exempt(t: Label) { t.Part? && (t.name.Vbmeta? || t.name.Devinfo?) }

  /** Every backed-up file still is what the manifest says, but for the two that are
      never written back. */
  ghost predicate BackupFilesOk(sha: Hash, c: Capture)
    requires c.manifest.Some?
  {
    forall t :: t in c.manifest.value.backups && t != Part(Vbmeta) && t != Part(Devinfo) ==>
      FileName(t, Plain) in c.files && sha(c.files[FileName(t, Plain)]) == c.manifest.value.backups[t]
  }

  method CheckBackupFiles(sha: Hash, c: Capture) returns (o: Outcome)
    requires c.manifest.Some?
    ensures o.Pass? <==> BackupFilesOk(sha, c)
    ensures o.Stopped? ==> o.why == SavedFileDiffers
  {
    var backups := c.manifest.value.backups;
    var todo := backups.Keys;
    while todo != {}
      invariant todo <= backups.Keys
      invariant forall t :: t in backups && t !in todo && !Exempt(t) ==>
        FileName(t, Plain) in c.files && sha(c.files[FileName(t, Plain)]) == backups[t]
      decreases todo
    {
      var t :| t in todo;
      todo := todo - {t};
      if !Exempt(t) {
        if FileName(t, Plain) !in c.files { return Stopped(SavedFileDiffers); }
        var digest := Sha256File(sha, c.files[FileName(t, Plain)], -1);
        if digest != backups[t] { return Stopped(SavedFileDiffers); }
      }
    }
    o := Pass;
  }

  /** A planned write that copies a file has that file, in the right length. */
  predicate HasSource(c: Capture, w: Write)
    requires c.manifest.Some?
  {
    && w.tag in c.manifest.value.backups && FileName(w.tag, Plain) in c.files
    && |c.files[FileName(w.tag, Plain)]| == w.region.Size()
  }

  predicate IsZeroTag(t: Label) { t.MetadataZero? || t.UserdataZero? || t.UserdataFooterZero? }

  /** A capture complete enough for any restore. */
  ghost predicate Whole(lay: Layout, sha: Hash, c: Capture) {
    && c.manifest.Some? && c.manifest.value.layout == LayoutFor(lay) && BackupFilesOk(sha, c)
    && forall w, mode :: IsRestoreWrite(lay, w, mode) && !IsZeroTag(w.tag) ==> HasSource(c, w)
  }

  lemma RestoreIsBackedUp(lay: Layout, w: Write, mode: UserdataMode)
    requires IsRestoreWrite(lay, w, mode) && !IsZeroTag(w.tag)
    ensures w in BackupRegions(lay)
  {
    var rs := BackupRegions(lay);
    var k: int := match w.tag
      case UserdataHead => 14
      case UserdataTail => 15
      case Part(n) => (match n case Boot => 0 case Dtbo => 1 case Misc => 2 case Metadata => 3 case Modemst1 => 4
        case Modemst2 => 5 case Fsg => 6 case Fsc => 7 case Persist => 8 case Vendor => 12 case _ => 13)
      case _ => 0;
    assert rs[k] == w;
  }

  /** A capture an install wrote is whole. */
  lemma BackupIsWhole(lay: Layout, sha: Hash, d0: Bytes, c: Capture)
    requires BackedUp(lay, sha, d0, c)
    ensures Whole(lay, sha, c)
  {
    hide BackupRegions, LayoutFor;
    var rs := BackupRegions(lay);
    forall w, mode | IsRestoreWrite(lay, w, mode) && !IsZeroTag(w.tag) ensures HasSource(c, w) {
      RestoreIsBackedUp(lay, w, mode);
      var k :| 0 <= k < |rs| && rs[k] == w;
      assert CopyOf(sha, d0, c.files, c.manifest.value.backups, rs[k]);
    }
    forall t | t in c.manifest.value.backups
      ensures FileName(t, Plain) in c.files && sha(c.files[FileName(t, Plain)]) == c.manifest.value.backups[t]
    {
      var k :| 0 <= k < |rs| && rs[k].tag == t;
      assert CopyOf(sha, d0, c.files, c.manifest.value.backups, rs[k]);
    }
  }

  // ---- which ROM-writable partitions changed ----

  /** `intact` are the ROM-writable partitions whose digest is still the saved one. */
  ghost predicate IntactOf(lay: Layout, sha: Hash, d: Bytes, c: Capture, intact: set<PartName>)
    requires c.manifest.Some?
  {
    forall n :: RomMayWrite(n) ==>
      && lay.parts(n).Within(|d|) && Part(n) in c.manifest.value.backups
      && (n in intact <==> sha(Slice(d, lay.parts(n))) == c.manifest.value.backups[Part(n)])
  }

  /** The first `k` of them have been compared. */
  ghost predicate Comparing(lay: Layout, sha: Hash, d: Bytes, c: Capture, files0: map<FileName, Bytes>,
                            files: map<FileName, Bytes>,
                            intact: set<PartName>, k: nat)
    requires c.manifest.Some? && k <= |ROM_MAY_WRITE|
  {
    && (forall i :: 0 <= i < k ==> var n := ROM_MAY_WRITE[i];
          && Part(n) in c.manifest.value.backups && lay.parts(n).Within(|d|)
          && (n in intact <==> sha(Slice(d, lay.parts(n))) == c.manifest.value.backups[Part(n)]))
    && (forall n :: n in intact ==> n in ROM_MAY_WRITE[..k])
    && (forall f :: f in files ==>
      f in files0 || (f.suffix == Current && f.tag.Part? && f.tag.name in ROM_MAY_WRITE[..k]))
  }

  lemma ComparedOne(lay: Layout, sha: Hash, d: Bytes, c: Capture, files0: map<FileName, Bytes>,
                    files: map<FileName, Bytes>,
                    intact: set<PartName>, k: nat)
    requires c.manifest.Some? && k < |ROM_MAY_WRITE| && Comparing(lay, sha, d, c, files0, files, intact, k)
    requires lay.parts(ROM_MAY_WRITE[k]).Within(|d|) && Part(ROM_MAY_WRITE[k]) in c.manifest.value.backups
    ensures var n := ROM_MAY_WRITE[k]; var data := Slice(d, lay.parts(n));
      Comparing(lay, sha, d, c, files0, files[FileName(Part(n), Current) := data],
                if sha(data) == c.manifest.value.backups[Part(n)] then intact + {n} else intact, k + 1)
  {
    hide Region.Within, Slice, Comparing, RomMayWrite;
    RomNames();
    var names := ROM_MAY_WRITE;
    assert forall i :: 0 <= i < k ==> names[i] in names[..k];
    ComparedNext(names, lay, sha, d, c, files0, files, intact, k);
  }

  lemma ComparedNext(names: seq<PartName>, lay: Layout, sha: Hash, d: Bytes, c: Capture, files0: map<FileName, Bytes>,
                     files: map<FileName, Bytes>, intact: set<PartName>, k: nat)
    requires names == ROM_MAY_WRITE && c.manifest.Some? && k < |names|
    requires Comparing(lay, sha, d, c, files0, files, intact, k)
    requires lay.parts(names[k]).Within(|d|) && Part(names[k]) in c.manifest.value.backups
    requires forall i :: 0 <= i < k ==> names[i] != names[k]
    ensures var n := names[k]; var data := Slice(d, lay.parts(n));
      Comparing(lay, sha, d, c, files0, files[FileName(Part(n), Current) := data],
                if sha(data) == c.manifest.value.backups[Part(n)] then intact + {n} else intact, k + 1)
  {
    hide Region.Within, Slice;
    assert names[..k + 1] == names[..k] + [names[k]];
    assert names[k] !in names[..k];
  }

  lemma NotReadYet(lay: Layout, sha: Hash, d: Bytes, c: Capture, files0: map<FileName, Bytes>,
                   files: map<FileName, Bytes>,
                   intact: set<PartName>, k: nat)
    requires c.manifest.Some? && k < |ROM_MAY_WRITE| && Comparing(lay, sha, d, c, files0, files, intact, k)
    requires forall f :: f in files0 ==> f.suffix != Current
    ensures FileName(Part(ROM_MAY_WRITE[k]), Current) !in files
  {
    RomNames();
  }

  lemma ComparedAll(lay: Layout, sha: Hash, d: Bytes, c: Capture, files0: map<FileName, Bytes>,
                    files: map<FileName, Bytes>, intact: set<PartName>)
    requires c.manifest.Some? && Comparing(lay, sha, d, c, files0, files, intact, |ROM_MAY_WRITE|)
    ensures IntactOf(lay, sha, d, c, intact)
    ensures forall f :: f in files ==> f in files0 || f.suffix == Current
  {
    RomNames();
    forall n | RomMayWrite(n)
      ensures && lay.parts(n).Within(|d|) && Part(n) in c.manifest.value.backups
              && (n in intact <==> sha(Slice(d, lay.parts(n))) == c.manifest.value.backups[Part(n)])
    {
      assert n in ROM_MAY_WRITE;
      var i :| 0 <= i < |ROM_MAY_WRITE| && ROM_MAY_WRITE[i] == n;
    }
  }

  method CompareRom(s: Session, lay: Layout, c: Capture) returns (o: Outcome, intact: set<PartName>)
    requires c.manifest.Some? && forall n :: RomMayWrite(n) ==> lay.parts(n).Within(s.dev.disk.Length)
    modifies s, s.dev
    ensures ReadOnly(old(s.Now()), s.Now())
    ensures o.Pass? ==> IntactOf(lay, s.dev.sha, s.dev.disk[..], c, intact)
    ensures o.Pass? ==> forall f :: f in s.capture.files ==> f in old(s.capture.files) || f.suffix == Current
    ensures o.Stopped? ==> o.why !in {ReadbackDiffers, ProtectedChanged}
    ensures old(s.Tireless()) ==> s.Tireless()
    ensures (&& old(s.Tireless()) && (forall n :: RomMayWrite(n) ==> Part(n) in c.manifest.value.backups)
             && (forall f :: f in old(s.capture.files) ==> f.suffix != Current)) ==> o.Pass?
  {
    hide ReadOnly, Comparing, IntactOf;
    RomNames();
    ghost var a := s.Now();
    ReadOnlyRefl(a);
    intact := {};
    NoneCompared(lay, s.dev.sha, a.disk, c, a.capture.files);
    for k := 0 to |ROM_MAY_WRITE|
      invariant ReadOnly(a, s.Now()) && s.dev.disk[..] == a.disk
      invariant Comparing(lay, s.dev.sha, a.disk, c, a.capture.files, s.capture.files, intact, k)
      invariant old(s.Tireless()) ==> s.Tireless()
    {
      var n := ROM_MAY_WRITE[k];
      assert n in ROM_MAY_WRITE;
      ghost var b := s.Now();
      var data, digest;
      if forall f :: f in a.capture.files ==> f.suffix != Current {
        NotReadYet(lay, s.dev.sha, a.disk, c, a.capture.files, s.capture.files, intact, k);
      }
      o, data, digest := s.ReadRegion(Part(n), lay.parts(n), Current);
      ReadOnlyTrans(a, b, s.Now());
      ReadOnlyDisk(b, s.Now());
      if o.Stopped? { return; }
      if Part(n) !in c.manifest.value.backups { return Stopped(SavedFileDiffers), intact; }
      ComparedOne(lay, s.dev.sha, a.disk, c, a.capture.files, b.capture.files, intact, k);
      if digest == c.manifest.value.backups[Part(n)] { intact := intact + {n}; }
    }
    ComparedAll(lay, s.dev.sha, a.disk, c, a.capture.files, s.capture.files, intact);
    o := Pass;
  }

  lemma NoneCompared(lay: Layout, sha: Hash, d: Bytes, c: Capture, files: map<FileName, Bytes>)
    requires c.manifest.Some?
    ensures Comparing(lay, sha, d, c, files, files, {}, 0)
  {
  }

  lemma RomNames()
    ensures forall n :: n in ROM_MAY_WRITE <==> RomMayWrite(n)
    ensures forall k :: 0 <= k < |ROM_MAY_WRITE| ==> ROM_MAY_WRITE[k] !in ROM_MAY_WRITE[..k]
  {
  }

  // ---- the writes ----

  function RestoreOrder(sha: Hash, c: Capture, w: Write): Order
    requires c.manifest.Some? && w.region.Size() >= 0 && (IsZeroTag(w.tag) || HasSource(c, w))
  {
    if IsZeroTag(w.tag) then ZeroOrder(sha, w)
    else Order(w.tag, w.region, c.files[FileName(w.tag, Plain)], false, c.manifest.value.backups[w.tag])
  }

  ghost predicate Sourced(c: Capture, ws: seq<Write>)
    requires c.manifest.Some?
  {
    forall k :: 0 <= k < |ws| ==> ws[k].region.Size() >= 0 && (IsZeroTag(ws[k].tag) || HasSource(c, ws[k]))
  }

  function RestoreOrders(sha: Hash, c: Capture, ws: seq<Write>): (os: seq<Order>)
    requires c.manifest.Some? && Sourced(c, ws)
    ensures |os| == |ws| && forall k :: 0 <= k < |os| ==> os[k] == RestoreOrder(sha, c, ws[k])
  {
    seq(|ws|, k requires 0 <= k < |ws| => RestoreOrder(sha, c, ws[k]))
  }

  /** Every source is there in the right length; checked before any write. */
  method CheckSources(c: Capture, ws: seq<Write>) returns (o: Outcome)
    requires c.manifest.Some? && forall k :: 0 <= k < |ws| ==> ws[k].region.Size() >= 0
    ensures o.Pass? <==> Sourced(c, ws)
    ensures o.Stopped? ==> o.why == SavedFileDiffers
  {
    for k := 0 to |ws|
      invariant forall i :: 0 <= i < k ==> IsZeroTag(ws[i].tag) || HasSource(c, ws[i])
    {
      if !IsZeroTag(ws[k].tag) && !HasSource(c, ws[k]) { return Stopped(SavedFileDiffers); }
    }
    o := Pass;
  }

  /** Restore work: it fits, is disjoint, and carries what the manifest says. */
  ghost predicate RestoreWorkOk(lay: Layout, sha: Hash, c: Capture, ws: seq<Write>)
    requires c.manifest.Some?
  {
    && Sourced(c, ws)
    && var os := RestoreOrders(sha, c, ws);
    && OrdersFit(os, lay.diskBytes) && TagsDiffer(os) && PairwiseDisjoint(OrderRegions(os)) && DigestsRight(sha, os)
    && OrderRegions(os) == WriteRegions(ws)
  }

  lemma RestoreOrderOk(lay: Layout, sha: Hash, c: Capture, w: Write, mode: UserdataMode)
    requires c.manifest.Some? && BackupFilesOk(sha, c) && IsRestoreWrite(lay, w, mode) && w.region.Within(lay.diskBytes)
    requires IsZeroTag(w.tag) || HasSource(c, w)
    ensures var order := RestoreOrder(sha, c, w);
            WriteOf(order) == w && OrderFits(order, lay.diskBytes) && sha(order.payload) == order.expected
  {
  }

  lemma RestoreOrdersOk(lay: Layout, sha: Hash, c: Capture, intact: set<PartName>, mode: UserdataMode)
    requires lay.Valid() && c.manifest.Some? && BackupFilesOk(sha, c) && Sourced(c, RestorePlan(lay, intact, mode))
    ensures RestoreWorkOk(lay, sha, c, RestorePlan(lay, intact, mode))
  {
    var ws := RestorePlan(lay, intact, mode);
    var os := RestoreOrders(sha, c, ws);
    RestorePlanOk(lay, intact, mode);
    hide RestorePlan, Layout.Valid, PairwiseDisjoint;
    forall k | 0 <= k < |os|
      ensures WriteOf(os[k]) == ws[k] && OrderFits(os[k], lay.diskBytes) && sha(os[k].payload) == os[k].expected {
      assert WriteRegions(ws)[k].Within(lay.diskBytes) && IsRestoreWrite(lay, ws[k], mode);
      RestoreOrderOk(lay, sha, c, ws[k], mode);
    }
    hide RestoreOrder, IsRestoreWrite, OrderFits;
    assert OrderRegions(os) == WriteRegions(ws);
    assert TagsDiffer(os) by {
      forall i, j | 0 <= i < j < |os| ensures os[i].tag != os[j].tag { assert ws[i].tag != ws[j].tag; }
    }
  }

  // ---- the run ----

  /** How run_restore may end. */
  ghost predicate RestoreEnd(lay: Layout, sha: Hash, faithful: bool, c: Capture, mode: UserdataMode,
                             intact: set<PartName>,
                             begun: bool, a: Snap, b: Snap, o: Outcome)
    requires lay.Valid() && |a.disk| == |b.disk| == lay.diskBytes
  {
    && (!begun ==>
          && b.disk == a.disk && OnlyReads(a.log, b.log) && NoClaims(b)
          && o.Stopped? && o.why !in {ReadbackDiffers, ProtectedChanged})
    && (begun ==> && c.manifest.Some? && BackupFilesOk(sha, c) && c.manifest.value.layout == LayoutFor(lay)
                  && IntactOf(lay, sha, a.disk, c, intact)
                  && RestoreWorkOk(lay, sha, c, RestorePlan(lay, intact, mode))
                  && RestoreUsed(sha, faithful, RestoreOrders(sha, c, RestorePlan(lay, intact, mode)), a.disk, |a.log|,
                    b, o))
  }

  ghost predicate RestoreUsed(sha: Hash, faithful: bool, orders: seq<Order>, d0: Bytes, base: nat, b: Snap,
                              o: Outcome) {
    && (faithful ==> SameOutside(d0, b.disk, OrderRegions(orders)))
    && (b.report.readbackVerified ==> AllReadBack(sha, b.disk, orders))
    && (b.capture.report.Some? && b.capture.report.value.readbackVerified ==> AllReadBack(sha, b.disk, orders))
    && (forall i :: base <= i < |b.log| && b.log[i].Power? ==>
          i == |b.log| - 1 && b.log[i] == Event.Power(Reset) && b.report.readbackVerified)
    && (o.Pass? ==> b.report.readbackVerified && b.report.power == Some(Reset) && EndsWithPower(b.log, base))
    && (o.Pass? && faithful ==> Holds(d0, b.disk, Patches(orders)))
    && (faithful ==> o != Stopped(ReadbackDiffers))
  }

  /** Identity and the comparison of the ROM-writable partitions. */
  method RestoreSurvey(s: Session, tool: Tool, c: Capture, kit: Option<Kit>) returns (o: Outcome, intact: set<PartName>)
    requires Ready(s, tool) && c.manifest.Some? && s.capture.files == map[]
    modifies s, s.dev
    ensures ReadOnly(old(s.Now()), s.Now())
    ensures o.Pass? ==>
      IdentityOk(tool, kit, s.dev.disk[..]) && IntactOf(tool.lay, s.dev.sha, s.dev.disk[..], c, intact)
    ensures o.Pass? ==> forall f :: f in s.capture.files ==> f.suffix != Readback
    ensures o.Stopped? ==> o.why !in {ReadbackDiffers, ProtectedChanged}
    ensures old(s.Tireless()) ==> s.Tireless()
    ensures (&& old(s.Tireless()) && IdentityOk(tool, kit, s.dev.disk[..])
             && (forall n :: RomMayWrite(n) ==> Part(n) in c.manifest.value.backups)) ==> o.Pass?
  {
    hide ReadOnly, IdentityOk, IntactOf;
    PartsWithin(tool.lay);
    intact := {};
    ghost var a := s.Now();
    o := CheckDiskIdentity(s, tool, kit);
    if o.Stopped? { return; }
    ghost var b := s.Now();
    ReadOnlyDisk(a, b);
    OnlyPlain(b.capture.files);
    o, intact := CompareRom(s, tool.lay, c);
    ReadOnlyTrans(a, b, s.Now());
    ReadOnlyDisk(b, s.Now());
  }

  /** The manifest, its files and its layout, before the device is touched. */
  method RestoreOffline(s: Session, lay: Layout, c: Capture) returns (o: Outcome)
    requires s.report == EMPTY_REPORT && s.capture == EMPTY_CAPTURE
    modifies s
    ensures s.capture.files == map[] && NoClaims(s.Now())
    ensures o.Pass? ==> c.manifest.Some? && BackupFilesOk(s.dev.sha, c) && c.manifest.value.layout == LayoutFor(lay)
    ensures o.Stopped? ==> o.why !in {ReadbackDiffers, ProtectedChanged}
    ensures old(s.Tireless()) ==> s.Tireless()
    ensures (&& old(s.Tireless()) && c.manifest.Some? && BackupFilesOk(s.dev.sha, c)
             && c.manifest.value.layout == LayoutFor(lay)) ==> o.Pass?
  {
    hide BackupFilesOk, LayoutFor;
    if c.manifest.None? { return Stopped(NotACapture); }
    :- CheckBackupFiles(s.dev.sha, c);
    :- s.Save();
    if c.manifest.value.layout != LayoutFor(lay) { return Stopped(LayoutDiffers); }
    o := Pass;
  }

  /** The plan guard and the source files, before the first write. */
  method RestorePlanned(s: Session, lay: Layout, c: Capture, writes: seq<Write>) returns (o: Outcome)
    requires lay.Valid() && c.manifest.Some? && AllWithin(WriteRegions(writes), lay.diskBytes)
    requires forall k :: 0 <= k < |writes| ==> Programmable(lay, writes[k].region)
    modifies s
    ensures s.capture.files == old(s.capture.files)
    ensures NoClaims(old(s.Now())) ==> NoClaims(s.Now())
    ensures o.Pass? ==> Sourced(c, writes)
    ensures o.Stopped? ==> o.why !in {ReadbackDiffers, ProtectedChanged}
    ensures old(s.Tireless()) ==> s.Tireless() && (Sourced(c, writes) ==> o.Pass?)
  {
    hide Sourced, Programmable, Layout.Valid, HasSource, IsZeroTag;
    o := CheckPlan(lay, writes);
    assert forall k :: 0 <= k < |writes| ==> WriteRegions(writes)[k].Within(lay.diskBytes);
    :- CheckSources(c, writes);
    s.report := s.report.(plan := writes);
    o := s.Save();
  }

  /** One call of run_restore from capture `c`, wherever it stops. */
  method RunRestore(s: Session, tool: Tool, c: Capture, kit: Option<Kit>, mode: UserdataMode)
      returns (o: Outcome, ghost intact: set<PartName>, ghost begun: bool)
    requires Ready(s, tool) && s.report == EMPTY_REPORT && s.capture == EMPTY_CAPTURE
    modifies s, s.dev, s.dev.disk
    ensures RestoreEnd(tool.lay, s.dev.sha, s.dev.Faithful(), c, mode, intact, begun, old(s.Now()), s.Now(), o)
    ensures begun ==> IdentityOk(tool, kit, old(s.dev.disk[..]))
    ensures (&& old(s.Tireless()) && s.dev.Faithful() && IdentityOk(tool, kit, old(s.dev.disk[..]))
             && Whole(tool.lay, s.dev.sha, c)) ==> o.Pass?
  {
    hide ReadOnly, IdentityOk, IntactOf, BackupFilesOk, RestoreWorkOk, Whole, PhaseEnd, Sourced, Layout.Valid,
         RestoreUsed, RestorePlan, LayoutFor, Programmable, PairwiseDisjoint, DistinctTags, IsRestoreWrite;
    ghost var lay, sha, faithful := tool.lay, s.dev.sha, s.dev.Faithful();
    begun, intact := false, {};
    ghost var a := s.Now();
    WholeParts(lay, sha, c);
    o := RestoreOffline(s, tool.lay, c);
    if o.Stopped? { return; }
    ghost var b := s.Now();
    var found;
    o, found := RestoreSurvey(s, tool, c, kit);
    intact := found;
    ReadOnlyDisk(b, s.Now());
    ReadOnlyNoClaims(b, s.Now());
    if o.Stopped? { return; }
    var writes := RestorePlan(tool.lay, found, mode);
    RestorePlanOk(lay, found, mode);
    WholeSources(lay, sha, c, found, mode);
    o := RestorePlanned(s, tool.lay, c, writes);
    if o.Stopped? { return; }
    begun := true;
    RestoreOrdersOk(lay, sha, c, found, mode);
    var orders := RestoreOrders(s.dev.sha, c, writes);
    RestoreWorkParts(lay, sha, c, writes);
    ghost var e := s.Now();
    o := WriteAndReadBack(s, tool.lay, orders, Unguarded, a.disk);
    ghost var g := s.Now();
    RestorePhase(lay, sha, faithful, orders, a, e, g, o);
    if o.Stopped? { return; }
    o := End(s, Reset);
    RestoreClosed(lay, sha, faithful, orders, a, e, g, s.Now(), o);
  }

  lemma WholeParts(lay: Layout, sha: Hash, c: Capture)
    ensures Whole(lay, sha, c) ==>
      && c.manifest.Some? && BackupFilesOk(sha, c) && c.manifest.value.layout == LayoutFor(lay)
                                   && (forall n :: RomMayWrite(n) ==> Part(n) in c.manifest.value.backups)
  {
    hide LayoutFor;
    if Whole(lay, sha, c) {
      forall n | RomMayWrite(n) ensures Part(n) in c.manifest.value.backups {
        assert IsRestoreWrite(lay, PartWrite(lay, n), Zero) && !IsZeroTag(PartWrite(lay, n).tag);
      }
    }
  }

  lemma WholeSources(lay: Layout, sha: Hash, c: Capture, intact: set<PartName>, mode: UserdataMode)
    requires lay.Valid() && c.manifest.Some?
    ensures Whole(lay, sha, c) ==> Sourced(c, RestorePlan(lay, intact, mode))
  {
    var ws := RestorePlan(lay, intact, mode);
    RestorePlanOk(lay, intact, mode);
    hide LayoutFor, RestorePlan, Layout.Valid;
    if Whole(lay, sha, c) {
      forall k | 0 <= k < |ws| ensures ws[k].region.Size() >= 0 && (IsZeroTag(ws[k].tag) || HasSource(c, ws[k])) {
        assert WriteRegions(ws)[k].Within(lay.diskBytes) && IsRestoreWrite(lay, ws[k], mode);
      }
    }
  }

  lemma RestoreWorkParts(lay: Layout, sha: Hash, c: Capture, ws: seq<Write>)
    requires c.manifest.Some? && RestoreWorkOk(lay, sha, c, ws)
    ensures Sourced(c, ws)
    ensures var os := RestoreOrders(sha, c, ws);
            OrdersFit(os, lay.diskBytes) && TagsDiffer(os) && PairwiseDisjoint(OrderRegions(os))
              && DigestsRight(sha, os)
  {
  }

  lemma RestorePhase(lay: Layout, sha: Hash, faithful: bool, orders: seq<Order>, a: Snap, e: Snap, g: Snap, o: Outcome)
    requires lay.Valid() && |a.disk| == |e.disk| == |g.disk| == lay.diskBytes && e.disk == a.disk
    requires OrdersFit(orders, lay.diskBytes) && DigestsRight(sha, orders)
      && PhaseEnd(lay, sha, faithful, a.disk, orders, e, g, o)
    requires OnlyReads(a.log, e.log) && NoClaims(e)
    ensures o.Stopped? ==> RestoreUsed(sha, faithful, orders, a.disk, |a.log|, g, o)
  {
  }

  lemma RestoreClosed(lay: Layout, sha: Hash, faithful: bool, orders: seq<Order>, a: Snap, e: Snap, g: Snap, h: Snap,
                      o: Outcome)
    requires lay.Valid() && |a.disk| == |e.disk| == |g.disk| == lay.diskBytes && e.disk == a.disk
    requires OrdersFit(orders, lay.diskBytes) && DigestsRight(sha, orders)
      && PhaseEnd(lay, sha, faithful, a.disk, orders, e, g, Pass)
    requires OnlyReads(a.log, e.log) && NoClaims(e) && Ended(g, h, Reset, o)
    ensures RestoreUsed(sha, faithful, orders, a.disk, |a.log|, h, o)
  {
  }
}
