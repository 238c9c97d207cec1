// What run_update and run_rollback promise together, over every disk, every
// job and every place a run can stop.

module UpdateTheorems {
  import opened Options
  import opened Disk
  import opened Outcomes
  import opened Layout
  import opened UpdateLayout
  import opened Streams
  import opened Devices
  import opened Sessions
  import opened Survey
  import opened Orders
  import opened Phases
  import opened UpdateSurvey
  import opened UpdateEngine
  import opened UpdateRun
  import opened Rollbacks
  import Compat

  // ---- the frame ----

  /** Everything an update may touch: the four partitions, and when wiping the
      two zeroed heads. */
  ghost function MayChange(lay: Layout, wipe: bool): seq<Region> {
    WriteRegions(FullImageWrites(lay) + if wipe then ZeroWrites(lay) else [])
  }

  lemma AllowedMayChange(lay: Layout, w: Write, wipe: bool)
    requires WriteAllowed(lay, w, wipe)
    ensures InsideOne(w.region, MayChange(lay, wipe))
  {
    var rs := MayChange(lay, wipe);
    var m :=
      if w.tag.MetadataZero? then 4 else if w.tag.UserdataZero? then 5
      else if w.tag.name.Boot? then 0 else if w.tag.name.Dtbo? then 1 else if w.tag.name.Vendor? then 2 else 3;
    assert w.region.Inside(rs[m]);
  }

  lemma OrdersMayChange(lay: Layout, sha: Hash, job: Job, state: map<PartName, Build>, d0: Bytes, d: Bytes)
    requires JobOk(lay, sha, job)
    requires SameOutside(d0, d, OrderRegions(ImageWork(lay, sha, job, state) + ZeroWork(lay, sha, job)))
    ensures SameOutside(d0, d, MayChange(lay, job.wipe))
  {
    var imgs, zs := ImageWork(lay, sha, job, state), ZeroWork(lay, sha, job);
    WorkFacts(lay, sha, job, state);
    hide MayChange, JobOk;
    var rs, wider := OrderRegions(imgs + zs), MayChange(lay, job.wipe);
    forall k | 0 <= k < |rs| ensures InsideOne(rs[k], wider) {
      var order := (imgs + zs)[k];
      if k < |imgs| {
        assert WriteAllowed(lay, WriteOf(imgs[k]), false);
      } else {
        assert WriteAllowed(lay, WriteOf(zs[k - |imgs|]), true);
      }
      assert rs[k] == WriteOf(order).region;
      AllowedMayChange(lay, WriteOf(order), job.wipe);
    }
    SameOutsideWiden(d0, d, rs, wider);
  }

  /** For every mode, flag and stopping point: on a faithful device no byte
      outside these ranges changes, and a rehearsal changes none at all. */
  lemma UpdateFrame(tool: Tool, sha: Hash, job: Job, state: map<PartName, Build>, begun: bool, a: Snap, b: Snap,
                    o: Outcome)
    requires tool.lay.Valid() && |a.disk| == |b.disk| == tool.lay.diskBytes
    requires RunEnd(tool, sha, true, job, state, begun, a, b, o)
    ensures SameOutside(a.disk, b.disk, MayChange(tool.lay, job.wipe))
    ensures job.mode.BackupOnly? ==> b.disk == a.disk
  {
    hide Recorded, JobOk, Safe, Ordered, MayChange;
    if begun { OrdersMayChange(tool.lay, sha, job, state, a.disk, b.disk); }
  }

  // ---- the order of events ----

  /** A zeroed head and an image range are different ranges. */
  lemma ZeroHeadIsNoImage(lay: Layout, sha: Hash, imgs: seq<Order>, z: nat)
    requires lay.Valid() && AllImages(lay, imgs) && z < |ZeroWrites(lay)|
    ensures ZeroWrites(lay)[z].region !in OrderRegions(imgs)
  {
    forall k | 0 <= k < |imgs| ensures imgs[k].region != ZeroWrites(lay)[z].region {
      ImageApartFromZero(lay, WriteOf(imgs[k]), ZeroWrites(lay)[z]);
    }
  }

  /** A head is zeroed only in a wiping update, and only after every image that
      was to be written has been programmed and read back equal. */
  lemma ZeroOnlyAfterImages(tool: Tool, sha: Hash, faithful: bool, job: Job, state: map<PartName, Build>, begun: bool,
                            a: Snap, b: Snap, o: Outcome, i: nat, z: nat, k: nat)
    requires tool.lay.Valid() && |a.disk| == |b.disk| == tool.lay.diskBytes
    requires RunEnd(tool, sha, faithful, job, state, begun, a, b, o)
    requires |a.log| <= i < |b.log| && z < |ZeroWrites(tool.lay)|
      && b.log[i] == Event.Program(ZeroWrites(tool.lay)[z].region)
    ensures begun && JobOk(tool.lay, sha, job) && job.wipe
    ensures k < |ImageWork(tool.lay, sha, job, state)| ==>
              ReadBackBefore(b.log, |a.log|, i, sha, ImageWork(tool.lay, sha, job, state)[k])
  {
    hide Recorded, JobOk, Safe, ReadBackBefore, Truthful, ZeroWrites, Welcome, StateOf, Layout.Valid;
    assert begun;
    var imgs, zs := ImageWork(tool.lay, sha, job, state), ZeroWork(tool.lay, sha, job);
    WorkFacts(tool.lay, sha, job, state);
    ZeroHeadIsNoImage(tool.lay, sha, imgs, z);
    assert b.log[i].region in OrderRegions(imgs) + OrderRegions(zs);
    ZeroWorkRegions(tool.lay, sha, job);
  }

  lemma ZeroWorkRegions(lay: Layout, sha: Hash, job: Job)
    requires lay.Valid() && job.wipe
    ensures |ZeroWork(lay, sha, job)| == |ZeroWrites(lay)|
    ensures forall z :: 0 <= z < |ZeroWrites(lay)| ==> ZeroWork(lay, sha, job)[z].region == ZeroWrites(lay)[z].region
  {
  }

  /** In an update, power is the last event and only follows the verified
      readback of everything written and unchanged protected regions. */
  lemma PowerIsEarned(tool: Tool, sha: Hash, faithful: bool, job: Job, state: map<PartName, Build>, begun: bool,
                      a: Snap, b: Snap, o: Outcome, i: nat)
    requires tool.lay.Valid() && |a.disk| == |b.disk| == tool.lay.diskBytes && job.mode.Update?
    requires RunEnd(tool, sha, faithful, job, state, begun, a, b, o)
    requires |a.log| <= i < |b.log| && b.log[i].Power?
    ensures begun && i == |b.log| - 1
    ensures Same(sha, tool.lay, job.wipe, a.disk, b.disk)
    ensures b.report.readbackVerified && b.report.invariantsUnchanged == Some(true)
    ensures forall k :: 0 <= k < |ImageWork(tool.lay, sha, job, state) + ZeroWork(tool.lay, sha, job)| ==>
              ReadBackBefore(b.log, |a.log|, i, sha,
                (ImageWork(tool.lay, sha, job, state) + ZeroWork(tool.lay, sha, job))[k])
  {
    hide Recorded, JobOk, Safe, ReadBackBefore, Truthful;
    assert begun;
    assert Powered(b.log, |a.log|);
  }

  // ---- a finished update ----

  function HeadRegion(lay: Layout, job: Job, n: PartName): Region
    requires n in job.images
  {
    ImageWrite(lay, n, job.images[n].nbytes).region
  }

  lemma HeadFacts(lay: Layout, sha: Hash, job: Job, n: PartName)
    requires JobOk(lay, sha, job) && Updatable(n)
    ensures n in job.images && HeadRegion(lay, job, n).Within(lay.diskBytes)
      && HeadRegion(lay, job, n).Inside(lay.parts(n))
    ensures |job.images[n].content| == HeadRegion(lay, job, n).Size() > 0
    ensures ValidLength(lay, n, job.images[n].nbytes)
  {
    UpdatableIsImageOrder();
    assert n in IMAGE_ORDER && Fits(lay, n, job.images[n].nbytes);
    assert lay.parts(n).Within(lay.diskBytes);
  }

  /** The heads found on the disk and the images do not collide. */
  ghost predicate HeadsDoNotCollide(lay: Layout, sha: Hash, job: Job, d0: Bytes) {
    forall n :: Updatable(n) && n in job.images && HeadRegion(lay, job, n).Within(|d0|) ==>
      NoCollision(sha, Slice(d0, HeadRegion(lay, job, n)), job.images[n].content)
  }

  /** A partition that was skipped already held the new image. */
  lemma SkippedHoldsImage(lay: Layout, sha: Hash, job: Job, state: map<PartName, Build>, d0: Bytes, n: PartName)
    requires JobOk(lay, sha, job) && |d0| == lay.diskBytes
    requires StateOf(sha, lay, d0, job.prev, job.images, state) && Updatable(n) && n in Unchanged(job, state)
    ensures n in job.images && HeadRegion(lay, job, n).Within(|d0|)
    ensures NoCollision(sha, Slice(d0, HeadRegion(lay, job, n)), job.images[n].content) ==>
      Slice(d0, HeadRegion(lay, job, n)) == job.images[n].content
  {
    HeadFacts(lay, sha, job, n);
    PartsWithin(lay);
    HeadOnDevice(lay, d0, n, job.images[n].nbytes);
  }

  /** What is programmed for partition `n`, if it is programmed. */
  lemma WorkOf(lay: Layout, sha: Hash, job: Job, state: map<PartName, Build>, k: nat)
    requires JobOk(lay, sha, job) && k < |ImageWork(lay, sha, job, state)|
    ensures var order := ImageWork(lay, sha, job, state)[k];
            && order.tag.Part? && Updatable(order.tag.name) && order.tag.name in job.images
              && order.tag.name !in Unchanged(job, state)
            && order.region == HeadRegion(lay, job, order.tag.name)
              && order.payload == job.images[order.tag.name].content
  {
    PlannedHaveImages(lay, sha, job, state);
    var ks := Keep(PlannedWrites(lay, job), Unchanged(job, state));
    assert ks[k] in ks;
  }

  lemma WorkFor(lay: Layout, sha: Hash, job: Job, state: map<PartName, Build>, n: PartName) returns (k: nat)
    requires JobOk(lay, sha, job) && Updatable(n) && n !in Unchanged(job, state)
    ensures k < |ImageWork(lay, sha, job, state)| && ImageWork(lay, sha, job, state)[k].tag == Part(n)
  {
    var m := PlannedFor(lay, sha, job, n);
    hide PlannedWrites, Keep, Unchanged, Layout.Valid, PayloadsOk, Fits, PlanAllowed;
    k := KeptIndex(PlannedWrites(lay, job), Unchanged(job, state), m);
  }

  lemma PlannedFor(lay: Layout, sha: Hash, job: Job, n: PartName) returns (m: nat)
    requires JobOk(lay, sha, job) && Updatable(n)
    ensures m < |PlannedWrites(lay, job)| && PlannedWrites(lay, job)[m].tag == Part(n)
  {
    hide Layout.Valid, PayloadsOk, Fits, PlanAllowed;
    m := if n.Boot? then 0 else if n.Dtbo? then 1 else if n.Vendor? then 2 else 3;
    assert IMAGE_ORDER[m] == n;
  }

  lemma HeadsApart(lay: Layout, sha: Hash, job: Job, m: PartName, n: PartName)
    requires JobOk(lay, sha, job) && Updatable(m) && Updatable(n) && m != n
    ensures m in job.images && n in job.images && !HeadRegion(lay, job, m).Overlaps(HeadRegion(lay, job, n))
  {
    HeadFacts(lay, sha, job, m);
    HeadFacts(lay, sha, job, n);
    InsideDisjoint(lay, HeadRegion(lay, job, m), HeadRegion(lay, job, n), m, n);
  }

  lemma HeadApartFromZero(lay: Layout, sha: Hash, job: Job, n: PartName, z: nat)
    requires JobOk(lay, sha, job) && Updatable(n) && z < |ZeroWork(lay, sha, job)|
    ensures n in job.images && !HeadRegion(lay, job, n).Overlaps(ZeroWork(lay, sha, job)[z].region)
    ensures !ZeroWork(lay, sha, job)[z].region.Overlaps(HeadRegion(lay, job, n))
  {
    HeadFacts(lay, sha, job, n);
    assert IsZeroWrite(lay, WriteOf(ZeroWork(lay, sha, job)[z]));
    ImageApartFromZero(lay, Write(Part(n), HeadRegion(lay, job, n)), WriteOf(ZeroWork(lay, sha, job)[z]));
  }

  /** Everything a run programs stays away from a skipped partition. */
  lemma SkippedUntouched(lay: Layout, sha: Hash, job: Job, state: map<PartName, Build>, d0: Bytes, d: Bytes,
                         n: PartName)
    requires JobOk(lay, sha, job) && |d0| == lay.diskBytes && Updatable(n) && n in Unchanged(job, state)
    requires SameOutside(d0, d, OrderRegions(ImageWork(lay, sha, job, state) + ZeroWork(lay, sha, job)))
    ensures n in job.images && HeadRegion(lay, job, n).Within(|d0|)
    ensures Slice(d, HeadRegion(lay, job, n)) == Slice(d0, HeadRegion(lay, job, n))
  {
    var imgs, zs := ImageWork(lay, sha, job, state), ZeroWork(lay, sha, job);
    HeadFacts(lay, sha, job, n);
    WorkFacts(lay, sha, job, state);
    var rs, r := OrderRegions(imgs + zs), HeadRegion(lay, job, n);
    hide JobOk, Layout.Valid, SameOutside;
    forall k | 0 <= k < |rs| ensures !rs[k].Overlaps(r) {
      if k < |imgs| {
        WorkOf(lay, sha, job, state, k);
        HeadsApart(lay, sha, job, imgs[k].tag.name, n);
      } else {
        HeadApartFromZero(lay, sha, job, n, k - |imgs|);
      }
    }
    SliceUntouched(d0, d, rs, r);
  }

  /** A partition that is not skipped gets its image. */
  lemma WrittenHead(lay: Layout, sha: Hash, job: Job, state: map<PartName, Build>, d0: Bytes, d: Bytes, n: PartName)
    requires JobOk(lay, sha, job) && |d0| == |d| == lay.diskBytes && Updatable(n) && n !in Unchanged(job, state)
    requires Holds(d0, d, Patches(ImageWork(lay, sha, job, state) + ZeroWork(lay, sha, job)))
    ensures n in job.images && HeadRegion(lay, job, n).Within(|d|)
    ensures Slice(d, HeadRegion(lay, job, n)) == job.images[n].content
      && sha(job.images[n].content) == job.images[n].digest
  {
    HeadFacts(lay, sha, job, n);
    assert PayloadsOk(sha, job.images);
    hide JobOk, SameOutside, Layout.Valid, ImageWork, ZeroWork, HeadRegion;
    var imgs, zs := ImageWork(lay, sha, job, state), ZeroWork(lay, sha, job);
    var k := WorkFor(lay, sha, job, state, n);
    WorkOf(lay, sha, job, state, k);
    assert Patches(imgs + zs)[k] == Patch(imgs[k].region, imgs[k].payload);
  }

  /** After a finished update every one of the four heads is the new image,
      although skipped partitions were never programmed. */
  lemma FinishedHead(lay: Layout, sha: Hash, job: Job, state: map<PartName, Build>, d0: Bytes, d: Bytes, n: PartName)
    requires JobOk(lay, sha, job) && |d0| == |d| == lay.diskBytes && HeadsDoNotCollide(lay, sha, job, d0)
      && Updatable(n)
    requires StateOf(sha, lay, d0, job.prev, job.images, state)
    requires Holds(d0, d, Patches(ImageWork(lay, sha, job, state) + ZeroWork(lay, sha, job)))
    ensures n in job.images && HeadRegion(lay, job, n).Within(|d|)
      && Slice(d, HeadRegion(lay, job, n)) == job.images[n].content
  {
    assert lay.Valid();
    hide JobOk, StateOf, SameOutside, ImageWork, ZeroWork, HeadRegion, Layout.Valid;
    if n in Unchanged(job, state) {
      SkippedHoldsImage(lay, sha, job, state, d0, n);
      HoldsOutside(d0, d, ImageWork(lay, sha, job, state) + ZeroWork(lay, sha, job));
      SkippedUntouched(lay, sha, job, state, d0, d, n);
    } else {
      WrittenHead(lay, sha, job, state, d0, d, n);
    }
  }

  function HeadPatch(lay: Layout, job: Job, n: PartName): Patch
    requires n in job.images
  {
    Patch(HeadRegion(lay, job, n), job.images[n].content)
  }

  /** The whole plan, as if nothing were skipped. */
  ghost function FullPatches(lay: Layout, sha: Hash, job: Job): seq<Patch>
    requires JobOk(lay, sha, job)
  {
    UpdatableIsImageOrder();
    assert Updatable(Boot) && Updatable(Dtbo) && Updatable(Vendor) && Updatable(System);
    assert PayloadsOk(sha, job.images);
    [HeadPatch(lay, job, Boot), HeadPatch(lay, job, Dtbo), HeadPatch(lay, job, Vendor), HeadPatch(lay, job, System)]
    + Patches(ZeroWork(lay, sha, job))
  }

  lemma FullHeadAt(lay: Layout, sha: Hash, job: Job, k: nat)
    requires JobOk(lay, sha, job) && k < 4
    ensures k < |FullPatches(lay, sha, job)| && ImageAt(k) in job.images
    ensures FullPatches(lay, sha, job)[k] == HeadPatch(lay, job, ImageAt(k))
    ensures FullPatches(lay, sha, job)[k].region.Within(lay.diskBytes)
    ensures |FullPatches(lay, sha, job)[k].payload| == FullPatches(lay, sha, job)[k].region.Size()
  {
    hide JobOk, ZeroWork, HeadRegion;
    HeadFacts(lay, sha, job, ImageAt(k));
  }

  lemma FullZeroAt(lay: Layout, sha: Hash, job: Job, k: nat)
    requires JobOk(lay, sha, job) && 4 <= k < |FullPatches(lay, sha, job)|
    ensures k - 4 < |ZeroWork(lay, sha, job)|
      && FullPatches(lay, sha, job)[k] == Patches(ZeroWork(lay, sha, job))[k - 4]
    ensures FullPatches(lay, sha, job)[k].region.Within(lay.diskBytes)
    ensures |FullPatches(lay, sha, job)[k].payload| == FullPatches(lay, sha, job)[k].region.Size()
  {
    assert lay.Valid();
    hide JobOk, ZeroWork, HeadRegion, Layout.Valid, PairwiseDisjoint;
    ZeroWorkOk(lay, sha, job);
    var zs := ZeroWork(lay, sha, job);
    assert FullPatches(lay, sha, job)[4..] == Patches(zs);
    assert FullPatches(lay, sha, job)[k] == FullPatches(lay, sha, job)[4..][k - 4];
    assert OrderFits(zs[k - 4], lay.diskBytes);
  }

  lemma FullPairDisjoint(lay: Layout, sha: Hash, job: Job, i: nat, j: nat)
    requires JobOk(lay, sha, job) && i < j < |FullPatches(lay, sha, job)|
    ensures !FullPatches(lay, sha, job)[i].region.Overlaps(FullPatches(lay, sha, job)[j].region)
  {
    assert lay.Valid();
    hide JobOk, Layout.Valid, FullPatches, HeadRegion, ZeroWork, ImageAt, Region.Overlaps, Region.Within;
    if i < 4 { FullHeadAt(lay, sha, job, i); } else { FullZeroAt(lay, sha, job, i); }
    if j < 4 { FullHeadAt(lay, sha, job, j); } else { FullZeroAt(lay, sha, job, j); }
    if j < 4 {
      ImagesDiffer(i, j);
      HeadsApart(lay, sha, job, ImageAt(i), ImageAt(j));
    } else if i < 4 {
      HeadApartFromZero(lay, sha, job, ImageAt(i), j - 4);
    } else {
      ZeroPairDisjoint(lay, sha, job, i - 4, j - 4);
    }
  }

  lemma ImagesDiffer(i: nat, j: nat)
    requires i < j < 4
    ensures ImageAt(i) != ImageAt(j)
  {
  }

  lemma ZeroPairDisjoint(lay: Layout, sha: Hash, job: Job, i: nat, j: nat)
    requires JobOk(lay, sha, job) && i < j < |ZeroWork(lay, sha, job)|
    ensures !Patches(ZeroWork(lay, sha, job))[i].region.Overlaps(Patches(ZeroWork(lay, sha, job))[j].region)
  {
    ZeroWorkOk(lay, sha, job);
    var zs := ZeroWork(lay, sha, job);
    hide JobOk, Layout.Valid, ZeroWork;
    assert !OrderRegions(zs)[i].Overlaps(OrderRegions(zs)[j]);
  }

  lemma FullPatchesDisjoint(lay: Layout, sha: Hash, job: Job)
    requires JobOk(lay, sha, job)
    ensures FitAll(FullPatches(lay, sha, job), lay.diskBytes) && PairwiseDisjoint(Regions(FullPatches(lay, sha, job)))
  {
    hide FullPatches, JobOk;
    var ps := FullPatches(lay, sha, job);
    forall k | 0 <= k < |ps| ensures ps[k].region.Within(lay.diskBytes) && |ps[k].payload| == ps[k].region.Size() {
      if k < 4 { FullHeadAt(lay, sha, job, k); } else { FullZeroAt(lay, sha, job, k); }
    }
    forall i, j | 0 <= i < j < |ps|
      ensures !Regions(ps)[i].Overlaps(Regions(ps)[j]) { FullPairDisjoint(lay, sha, job, i, j); }
  }

  lemma ExecutedInFull(lay: Layout, sha: Hash, job: Job, state: map<PartName, Build>, k: nat)
    requires JobOk(lay, sha, job) && k < |ImageWork(lay, sha, job, state) + ZeroWork(lay, sha, job)|
    ensures InsideOne(OrderRegions(ImageWork(lay, sha, job, state) + ZeroWork(lay, sha, job))[k],
      Regions(FullPatches(lay, sha, job)))
  {
    assert lay.Valid();
    hide JobOk, ImageWork, ZeroWork, FullPatches, Layout.Valid;
    var imgs, zs := ImageWork(lay, sha, job, state), ZeroWork(lay, sha, job);
    var r, wider := OrderRegions(imgs + zs)[k], Regions(FullPatches(lay, sha, job));
    FullPatchCount(lay, sha, job);
    var m := 4 + k - |imgs|;
    if k < |imgs| { m := ImageInFull(lay, sha, job, state, k); } else { FullZeroAt(lay, sha, job, m); }
    assert wider[m] == r && r.Inside(wider[m]);
  }

  lemma FullPatchCount(lay: Layout, sha: Hash, job: Job)
    requires JobOk(lay, sha, job)
    ensures |FullPatches(lay, sha, job)| == 4 + |ZeroWork(lay, sha, job)|
  {
    hide JobOk, ZeroWork;
  }

  lemma ImageInFull(lay: Layout, sha: Hash, job: Job, state: map<PartName, Build>, k: nat) returns (m: nat)
    requires JobOk(lay, sha, job) && k < |ImageWork(lay, sha, job, state)|
    ensures m < 4 <= |FullPatches(lay, sha, job)|
    ensures FullPatches(lay, sha, job)[m].region == ImageWork(lay, sha, job, state)[k].region
  {
    hide JobOk, ImageWork, ZeroWork, HeadRegion, FullPatches, Layout.Valid;
    WorkOf(lay, sha, job, state, k);
    FullPatchCount(lay, sha, job);
    var n := ImageWork(lay, sha, job, state)[k].tag.name;
    m := if n.Boot? then 0 else if n.Dtbo? then 1 else if n.Vendor? then 2 else 3;
    assert ImageAt(m) == n;
    FullHeadAt(lay, sha, job, m);
  }

  /** Skipping is sound: the disk is the one that writing all four images (and
      the zeroed heads) onto the old disk gives. */
  lemma SkippingIsSound(lay: Layout, sha: Hash, job: Job, state: map<PartName, Build>, d0: Bytes, d: Bytes)
    requires JobOk(lay, sha, job) && |d0| == |d| == lay.diskBytes && HeadsDoNotCollide(lay, sha, job, d0)
    requires StateOf(sha, lay, d0, job.prev, job.images, state)
    requires Holds(d0, d, Patches(ImageWork(lay, sha, job, state) + ZeroWork(lay, sha, job)))
    ensures FitAll(FullPatches(lay, sha, job), |d0|) && d == WriteAll(d0, FullPatches(lay, sha, job))
  {
    var ps := FullPatches(lay, sha, job);
    FullPatchesDisjoint(lay, sha, job);
    FinishedHoldsAll(lay, sha, job, state, d0, d);
    WriteAllHolds(d0, ps);
    HoldsUnique(d0, d, WriteAll(d0, ps), ps, ps);
  }

  /** In bytes: every image is there, with a wipe the zeroes are, and every other
      byte of the disk is as it was. */
  lemma FinishedInBytes(lay: Layout, sha: Hash, job: Job, state: map<PartName, Build>, d0: Bytes, d: Bytes)
    requires JobOk(lay, sha, job) && |d0| == |d| == lay.diskBytes && HeadsDoNotCollide(lay, sha, job, d0)
    requires StateOf(sha, lay, d0, job.prev, job.images, state)
    requires Holds(d0, d, Patches(ImageWork(lay, sha, job, state) + ZeroWork(lay, sha, job)))
    ensures Written(lay, job.images, job.wipe, d0, d)
  {
    var ps := FullPatches(lay, sha, job);
    FullPatchesDisjoint(lay, sha, job);
    FinishedHoldsAll(lay, sha, job, state, d0, d);
    FullPatchCount(lay, sha, job);
    FullPatchList(lay, sha, job);
    hide JobOk, FullPatches, ZeroWork, StateOf, HeadsDoNotCollide, Holds, Layout.Valid;
    HoldsWritten(lay, job.images, job.wipe, d0, d, ps);
  }

  lemma FullPatchList(lay: Layout, sha: Hash, job: Job)
    requires JobOk(lay, sha, job)
    ensures var ps := FullPatches(lay, sha, job);
      |ps| == (if job.wipe then 6 else 4) && forall k :: 0 <= k < |ps| ==> WritesPart(lay, job.images, ps, k)
  {
    FullPatchCount(lay, sha, job);
    var ps := FullPatches(lay, sha, job);
    assert |ZeroWork(lay, sha, job)| == if job.wipe then 2 else 0;
    hide FullPatches, WritesPart;
    forall k | 0 <= k < |ps| ensures WritesPart(lay, job.images, ps, k) {
      if k < 4 { ImagePart(lay, sha, job, k); } else { ZeroPart(lay, sha, job, k); }
    }
  }

  lemma ImagePart(lay: Layout, sha: Hash, job: Job, k: nat)
    requires JobOk(lay, sha, job) && k < 4 <= |FullPatches(lay, sha, job)|
    ensures WritesPart(lay, job.images, FullPatches(lay, sha, job), k)
  {
    var n := ImageAt(k);
    FullHeadAt(lay, sha, job, k);
    HeadFacts(lay, sha, job, n);
    assert |job.images[n].content| == job.images[n].nbytes;
    hide JobOk, FullPatches, Layout.Valid, ZeroWork;
    assert job.images[n].content[..job.images[n].nbytes] == job.images[n].content;
  }

  lemma ZeroPart(lay: Layout, sha: Hash, job: Job, k: nat)
    requires JobOk(lay, sha, job) && 4 <= k < |FullPatches(lay, sha, job)| && k < 6
    ensures WritesPart(lay, job.images, FullPatches(lay, sha, job), k)
  {
    FullZeroAt(lay, sha, job, k);
    hide JobOk, FullPatches, Layout.Valid;
  }

  lemma FinishedPatch(lay: Layout, sha: Hash, job: Job, state: map<PartName, Build>, d0: Bytes, d: Bytes, k: nat)
    requires JobOk(lay, sha, job) && |d0| == |d| == lay.diskBytes && HeadsDoNotCollide(lay, sha, job, d0)
    requires StateOf(sha, lay, d0, job.prev, job.images, state)
    requires Holds(d0, d, Patches(ImageWork(lay, sha, job, state) + ZeroWork(lay, sha, job)))
    requires k < |FullPatches(lay, sha, job)|
    ensures var p := FullPatches(lay, sha, job)[k]; p.region.Within(|d|) && Slice(d, p.region) == p.payload
  {
    hide StateOf, HeadsDoNotCollide, Holds, FullPatches, HeadRegion, ImageAt, Layout.Valid, JobOk, ImageWork, ZeroWork,
         Patches;
    JobOkValid(lay, sha, job);
    if k < 4 {
      FullPatchCount(lay, sha, job);
      FinishedHeadPatch(lay, sha, job, state, d0, d, k);
    } else {
      FinishedZeroPatch(lay, sha, job, state, d0, d, k);
    }
  }

  lemma FinishedZeroPatch(lay: Layout, sha: Hash, job: Job, state: map<PartName, Build>, d0: Bytes, d: Bytes, k: nat)
    requires JobOk(lay, sha, job)
    requires Holds(d0, d, Patches(ImageWork(lay, sha, job, state) + ZeroWork(lay, sha, job)))
    requires 4 <= k < |FullPatches(lay, sha, job)|
    ensures var p := FullPatches(lay, sha, job)[k]; p.region.Within(|d|) && Slice(d, p.region) == p.payload
  {
    assert lay.Valid();
    hide Holds, FullPatches, Layout.Valid, JobOk, ImageWork, ZeroWork, Patches;
    FullZeroAt(lay, sha, job, k);
    SecondHalfHeld(d0, d, ImageWork(lay, sha, job, state), ZeroWork(lay, sha, job), k - 4);
  }

  lemma FinishedHeadPatch(lay: Layout, sha: Hash, job: Job, state: map<PartName, Build>, d0: Bytes, d: Bytes, k: nat)
    requires JobOk(lay, sha, job) && |d0| == |d| == lay.diskBytes && HeadsDoNotCollide(lay, sha, job, d0)
    requires StateOf(sha, lay, d0, job.prev, job.images, state)
    requires Holds(d0, d, Patches(ImageWork(lay, sha, job, state) + ZeroWork(lay, sha, job)))
    requires k < 4 <= |FullPatches(lay, sha, job)|
    ensures var p := FullPatches(lay, sha, job)[k]; p.region.Within(|d|) && Slice(d, p.region) == p.payload
  {
    hide StateOf, HeadsDoNotCollide, Holds, FullPatches, HeadRegion, ImageAt, Layout.Valid, JobOk, ImageWork, ZeroWork,
         Patches;
    JobOkValid(lay, sha, job);
    FinishedHead(lay, sha, job, state, d0, d, ImageAt(k));
    FullHeadAt(lay, sha, job, k);
  }

  lemma SecondHalfHeld(d0: Bytes, d: Bytes, imgs: seq<Order>, zs: seq<Order>, k: nat)
    requires Holds(d0, d, Patches(imgs + zs)) && k < |zs|
    ensures Patches(zs)[k].region.Within(|d|) && Slice(d, Patches(zs)[k].region) == Patches(zs)[k].payload
  {
    assert Patches(imgs + zs)[|imgs| + k] == Patches(zs)[k];
  }

  lemma JobOkValid(lay: Layout, sha: Hash, job: Job)
    requires JobOk(lay, sha, job)
    ensures lay.Valid()
  {
  }

  lemma FinishedHoldsAll(lay: Layout, sha: Hash, job: Job, state: map<PartName, Build>, d0: Bytes, d: Bytes)
    requires JobOk(lay, sha, job) && |d0| == |d| == lay.diskBytes && HeadsDoNotCollide(lay, sha, job, d0)
    requires StateOf(sha, lay, d0, job.prev, job.images, state)
    requires Holds(d0, d, Patches(ImageWork(lay, sha, job, state) + ZeroWork(lay, sha, job)))
    requires FitAll(FullPatches(lay, sha, job), |d0|)
    ensures Holds(d0, d, FullPatches(lay, sha, job))
  {
    hide JobOk, StateOf, HeadsDoNotCollide, SameOutside, FullPatches, ImageWork, ZeroWork, Layout.Valid;
    JobOkValid(lay, sha, job);
    var imgs, zs, ps := ImageWork(lay, sha, job, state), ZeroWork(lay, sha, job), FullPatches(lay, sha, job);
    var done := Patches(imgs + zs);
    var rs, wider := Regions(done), Regions(ps);
    assert rs == OrderRegions(imgs + zs);
    forall k | 0 <= k < |rs| ensures InsideOne(rs[k], wider) { ExecutedInFull(lay, sha, job, state, k); }
    SameOutsideWiden(d0, d, rs, wider);
    forall k | 0 <= k < |ps|
      ensures Slice(d, ps[k].region) == ps[k].payload { FinishedPatch(lay, sha, job, state, d0, d, k); }
  }

  // ---- detection ----

  /** The builds of a disk are one map. */
  lemma OneState(sha: Hash, lay: Layout, d: Bytes, prev: map<PartName, Image>, next: map<PartName, Image>,
                 x: map<PartName, Build>, y: map<PartName, Build>)
    requires StateOf(sha, lay, d, prev, next, x) && StateOf(sha, lay, d, prev, next, y)
    ensures x == y
  {
    assert x.Keys == y.Keys;
    forall n | n in x ensures x[n] == y[n] { assert Updatable(n); }
  }

  /** Identifies the installed builds both ways on one phone: from saved copies of
      the partitions, and from heads hashed on the device. When both pass they
      agree; with valid image lengths on a working device both do pass. */
  method IdentifyBothWays(s: Session, lay: Layout, prev: map<PartName, Image>, next: map<PartName, Image>)
      returns (o1: Outcome, fromCopies: map<PartName, Build>, o2: Outcome, onDevice: map<PartName, Build>)
    requires forall n :: Updatable(n) ==> n in next && lay.parts(n).Within(s.dev.disk.Length)
    modifies s, s.dev
    ensures s.dev.disk[..] == old(s.dev.disk[..])
    ensures o1.Pass? && o2.Pass? ==>
              fromCopies == onDevice && StateOf(s.dev.sha, lay, s.dev.disk[..], prev, next, onDevice)
    ensures (&& old(s.Tireless()) && NoParts(old(s.capture.files)) && NoHeads(old(s.capture.files))
             && LengthsValid(lay, prev, next)) ==> o1.Pass? && o2.Pass?
  {
    hide ReadOnly, NoParts, Session.Tireless, StateOf, CopiesHold, SmallReadTwice, ValidLength;
    fromCopies, onDevice := map[], map[];
    ghost var a := s.Now();
    var backups, copies;
    o1, backups, copies := BackupPartitions(s, lay);
    ghost var b := s.Now();
    ReadOnlyDisk(a, b);
    if o1.Pass? {
      o1, fromCopies := Identify(s.dev.sha, copies, prev, next);
      if o1.Pass? { CopiesIdentify(s.dev.sha, lay, a.disk, copies, prev, next, fromCopies); }
    }
    o2, onDevice := IdentifyOnDevice(s, lay, prev, next);
    ReadOnlyDisk(b, s.Now());
    if o1.Pass? && o2.Pass? { OneState(s.dev.sha, lay, a.disk, prev, next, fromCopies, onDevice); }
  }

  lemma CopiesIdentify(sha: Hash, lay: Layout, d: Bytes, copies: map<PartName, Bytes>, prev: map<PartName, Image>,
                       next: map<PartName, Image>, state: map<PartName, Build>)
    requires forall n :: Updatable(n) ==> n in prev && n in next && lay.parts(n).Within(|d|)
    requires forall n :: Updatable(n) ==> n in copies && copies[n] == Slice(d, lay.parts(n))
    requires forall n :: n in state <==> Updatable(n)
    requires forall n :: Updatable(n) ==> state[n] == Identified(sha, copies[n], prev[n], next[n])
    ensures StateOf(sha, lay, d, prev, next, state)
  {
  }

  /** Even a device that writes anything anywhere can only finish an update with
      every protected region as it was, as long as it answers reads truthfully. */
  lemma FinishedKeepsProtected(tool: Tool, sha: Hash, faithful: bool, job: Job, state: map<PartName, Build>,
                               begun: bool,
                               a: Snap, b: Snap, o: Outcome, v: Write)
    requires tool.lay.Valid() && |a.disk| == |b.disk| == tool.lay.diskBytes && job.mode.Update?
    requires RunEnd(tool, sha, faithful, job, state, begun, a, b, o) && b.report.power.Some?
    requires v in InvariantRegions(tool.lay, job.wipe) && v.region.Within(|a.disk|)
    requires NoCollision(sha, Slice(b.disk, v.region), Slice(a.disk, v.region))
    ensures Slice(b.disk, v.region) == Slice(a.disk, v.region)
  {
    hide Recorded, JobOk, Safe, Ordered, AllReadBack, InvariantRegions, Same, StateOf, Welcome, Layout.Valid,
         SameOutside, Holds;
    assert begun && Same(sha, tool.lay, job.wipe, a.disk, b.disk);
    SameReads(sha, tool.lay, job.wipe, a.disk, b.disk, v);
  }

  lemma SameReads(sha: Hash, lay: Layout, wipe: bool, d0: Bytes, d: Bytes, v: Write)
    requires lay.Valid() && |d0| == |d| == lay.diskBytes && Same(sha, lay, wipe, d0, d)
    requires v in InvariantRegions(lay, wipe)
    ensures v.region.Within(|d0|) && sha(Slice(d, v.region)) == sha(Slice(d0, v.region))
  {
    hide InvariantRegions, Layout.Valid;
    InvariantWithin(lay, wipe, v);
    InvariantsWithin(lay, wipe);
    var vs := InvariantRegions(lay, wipe);
    var k :| 0 <= k < |vs| && vs[k] == v;
    assert Readings(sha, d, vs)[k] == Readings(sha, d0, vs)[k];
  }

  /** In bytes: the partition table, and of every partition the update must not
      write every byte that is hashed, is as it was. */
  lemma FinishedKeepsBytes(tool: Tool, sha: Hash, faithful: bool, job: Job, state: map<PartName, Build>, begun: bool,
                           a: Snap, b: Snap, o: Outcome, n: PartName, i: int)
    requires tool.lay.Valid() && |a.disk| == |b.disk| == tool.lay.diskBytes && job.mode.Update?
    requires RunEnd(tool, sha, faithful, job, state, begun, a, b, o) && b.report.power.Some?
    requires ProtectedDoNotCollide(tool.lay, sha, job.wipe, a.disk, b.disk)
    requires || (!Updatable(n) && Watched(tool.lay, job.wipe, n, i))
             || tool.lay.gptPrimary.Covers(i) || tool.lay.gptTail.Covers(i)
    ensures 0 <= i < |a.disk| && b.disk[i] == a.disk[i]
  {
    hide RunEnd, Watched, InvariantRegions, Layout.Valid;
    var v := HashedOver(tool.lay, job.wipe, n, i);
    InvariantsWithin(tool.lay, job.wipe);
    InvariantWithin(tool.lay, job.wipe, v);
    FinishedKeepsProtected(tool, sha, faithful, job, state, begun, a, b, o, v);
    assert Slice(a.disk, v.region)[i - v.region.Lo()] == a.disk[i];
    assert Slice(b.disk, v.region)[i - v.region.Lo()] == b.disk[i];
  }

  ghost predicate ProtectedDoNotCollide(lay: Layout, sha: Hash, wipe: bool, d0: Bytes, d: Bytes) {
    forall v :: v in InvariantRegions(lay, wipe) && v.region.Within(|d0|) && v.region.Within(|d|) ==>
      NoCollision(sha, Slice(d, v.region), Slice(d0, v.region))
  }

  lemma HashedOver(lay: Layout, wipe: bool, n: PartName, i: int) returns (v: Write)
    requires lay.Valid()
    requires (!Updatable(n) && Watched(lay, wipe, n, i)) || lay.gptPrimary.Covers(i) || lay.gptTail.Covers(i)
    ensures v in InvariantRegions(lay, wipe) && v.region.Covers(i)
  {
    if lay.gptPrimary.Covers(i) {
      v := Write(GptPrimary, lay.gptPrimary);
      ProtectedListed(lay, v, wipe);
    } else if lay.gptTail.Covers(i) {
      v := Write(GptTail, lay.gptTail);
      ProtectedListed(lay, v, wipe);
    } else {
      ProtectedCoverage(lay, wipe, n, i);
      v :| v in InvariantRegions(lay, wipe) && v.region.Covers(i);
    }
  }

  lemma InvariantWithin(lay: Layout, wipe: bool, v: Write)
    requires lay.Valid() && v in InvariantRegions(lay, wipe)
    ensures v.region.Within(lay.diskBytes)
  {
    hide InvariantRegions, Layout.Valid;
    InvariantsWithin(lay, wipe);
    var vs := InvariantRegions(lay, wipe);
    var k :| 0 <= k < |vs| && vs[k] == v;
    assert WriteRegions(vs)[k].Within(lay.diskBytes);
  }

  /** The limit of the closing checks: nothing compared or read back lies in a
      skipped partition, so damage there goes unseen. */
  lemma SkippedPartitionUnwatched(lay: Layout, sha: Hash, job: Job, state: map<PartName, Build>, d1: Bytes, d2: Bytes,
                                  n: PartName)
    requires JobOk(lay, sha, job) && |d1| == lay.diskBytes && Updatable(n) && n in Unchanged(job, state)
    requires SameOutside(d1, d2, [lay.parts(n)])
    requires AllReadBack(sha, d1, ImageWork(lay, sha, job, state))
    ensures AllReadBack(sha, d2, ImageWork(lay, sha, job, state)) && Same(sha, lay, job.wipe, d1, d2)
  {
    var imgs := ImageWork(lay, sha, job, state);
    forall k | 0 <= k < |imgs|
      ensures imgs[k].region.Within(|d2|) && sha(Slice(d2, imgs[k].region)) == imgs[k].expected {
      WorkOf(lay, sha, job, state, k);
      HeadFacts(lay, sha, job, imgs[k].tag.name);
      InsideDisjoint(lay, lay.parts(n), imgs[k].region, n, imgs[k].tag.name);
      SliceUntouched(d1, d2, [lay.parts(n)], imgs[k].region);
    }
    PartitionUnwatched(sha, lay, job.wipe, d1, d2, n);
  }

  /** No protected region lies in a partition the update may write. */
  lemma PartitionUnwatched(sha: Hash, lay: Layout, wipe: bool, d1: Bytes, d2: Bytes, n: PartName)
    requires lay.Valid() && |d1| == |d2| == lay.diskBytes && Updatable(n) && SameOutside(d1, d2, [lay.parts(n)])
    ensures Same(sha, lay, wipe, d1, d2)
  {
    var w := PartWrite(lay, n);
    assert WriteRegions([w]) == [lay.parts(n)] && WriteAllowed(lay, w, wipe);
    InvariantsUnchanged(sha, lay, [w], wipe, d1, d2);
  }

  // ---- what "verified" means on any device ----

  /** All that a finished update has last read of the disk it leaves. A wiping
      one has read the images back before it zeroed the heads, not after. */
  ghost predicate LastRead(lay: Layout, sha: Hash, job: Job, state: map<PartName, Build>, d0: Bytes, d: Bytes)
    requires JobOk(lay, sha, job) && |d0| == |d| == lay.diskBytes
  {
    && AllReadBack(sha, d, ZeroWork(lay, sha, job))
    && (!job.wipe ==> AllReadBack(sha, d, ImageWork(lay, sha, job, state)))
    && Same(sha, lay, job.wipe, d0, d)
  }

  /** A run that reports verified readback and unchanged regions, in memory or in
      the saved report, has last read just that, whatever its device does. */
  lemma VerifiedIsRead(tool: Tool, sha: Hash, faithful: bool, job: Job, state: map<PartName, Build>, begun: bool,
                       a: Snap, b: Snap, o: Outcome, r: Report)
    requires tool.lay.Valid() && |a.disk| == |b.disk| == tool.lay.diskBytes && job.mode.Update?
    requires RunEnd(tool, sha, faithful, job, state, begun, a, b, o)
    requires r == b.report || b.capture.report == Some(r)
    requires r.readbackVerified && r.invariantsUnchanged == Some(true)
    ensures begun && JobOk(tool.lay, sha, job) && LastRead(tool.lay, sha, job, state, a.disk, b.disk)
  {
    hide Recorded, Safe, Ordered, AllReadBack, Same;
    assert begun;
    assert ZeroWork(tool.lay, sha, job) == [] <==> !job.wipe;
  }

  /** Without a wipe, and for a partition that was not skipped, the claim is about
      the disk: on every device that answers reads truthfully the head of the
      partition is the new image. */
  lemma VerifiedHead(lay: Layout, sha: Hash, job: Job, state: map<PartName, Build>, d0: Bytes, d: Bytes, n: PartName)
    requires JobOk(lay, sha, job) && |d0| == |d| == lay.diskBytes && LastRead(lay, sha, job, state, d0, d)
    requires Updatable(n) && n !in Unchanged(job, state) && !job.wipe
    ensures n in job.images && HeadRegion(lay, job, n).Within(|d|)
    ensures NoCollision(sha, Slice(d, HeadRegion(lay, job, n)), job.images[n].content) ==>
      Slice(d, HeadRegion(lay, job, n)) == job.images[n].content
  {
    HeadFacts(lay, sha, job, n);
    var k := WorkFor(lay, sha, job, state, n);
    WorkOf(lay, sha, job, state, k);
    WorkDigest(lay, sha, job, state, k);
  }

  /** So an update that passed has its new images on the disk, whatever its device did. */
  lemma PassedHead(tool: Tool, sha: Hash, faithful: bool, job: Job, state: map<PartName, Build>, begun: bool, a: Snap,
                   b: Snap, o: Outcome, n: PartName)
    requires tool.lay.Valid() && |a.disk| == |b.disk| == tool.lay.diskBytes && job.mode.Update?
    requires RunEnd(tool, sha, faithful, job, state, begun, a, b, o) && o.Pass?
    requires Updatable(n) && n !in Unchanged(job, state) && !job.wipe
    ensures n in job.images && HeadRegion(tool.lay, job, n).Within(|b.disk|)
    ensures NoCollision(sha, Slice(b.disk, HeadRegion(tool.lay, job, n)), job.images[n].content) ==>
      Slice(b.disk, HeadRegion(tool.lay, job, n)) == job.images[n].content
  {
    hide Layout.Valid, JobOk, LastRead, HeadRegion, Unchanged, Recorded, Safe, Ordered, AllReadBack, Same, SameOutside;
    VerifiedIsRead(tool, sha, faithful, job, state, begun, a, b, o, b.report);
    VerifiedHead(tool.lay, sha, job, state, a.disk, b.disk, n);
  }

  lemma WorkDigest(lay: Layout, sha: Hash, job: Job, state: map<PartName, Build>, k: nat)
    requires JobOk(lay, sha, job) && k < |ImageWork(lay, sha, job, state)|
    ensures var order := ImageWork(lay, sha, job, state)[k]; order.expected == sha(order.payload)
  {
    ImageWorkOk(lay, sha, job, state);
  }

  /** With a wipe, or for a skipped partition, it is not: any change inside the
      partition leaves everything the run has last read as it was. */
  lemma ImageUnwatched(lay: Layout, sha: Hash, job: Job, state: map<PartName, Build>, d0: Bytes, d1: Bytes, d2: Bytes,
                       n: PartName)
    requires JobOk(lay, sha, job) && |d0| == |d1| == lay.diskBytes && Updatable(n)
    requires job.wipe || n in Unchanged(job, state)
    requires LastRead(lay, sha, job, state, d0, d1) && SameOutside(d1, d2, [lay.parts(n)])
    ensures LastRead(lay, sha, job, state, d0, d2)
  {
    ZeroesUnwatched(lay, sha, job, d1, d2, n);
    PartitionUnwatched(sha, lay, job.wipe, d1, d2, n);
    if !job.wipe { SkippedPartitionUnwatched(lay, sha, job, state, d1, d2, n); }
  }

  lemma ZeroesUnwatched(lay: Layout, sha: Hash, job: Job, d1: Bytes, d2: Bytes, n: PartName)
    requires JobOk(lay, sha, job) && |d1| == lay.diskBytes && Updatable(n) && SameOutside(d1, d2, [lay.parts(n)])
    requires AllReadBack(sha, d1, ZeroWork(lay, sha, job))
    ensures AllReadBack(sha, d2, ZeroWork(lay, sha, job))
  {
    assert lay.Valid();
    hide JobOk, Layout.Valid, SameOutside, Region.Within;
    var zs := ZeroWork(lay, sha, job);
    forall k | 0 <= k < |zs| ensures zs[k].region.Within(|d2|) && sha(Slice(d2, zs[k].region)) == zs[k].expected {
      assert zs[k].region.Within(|d1|) && sha(Slice(d1, zs[k].region)) == zs[k].expected;
      ZeroOrderUntouched(lay, WriteOf(zs[k]), d1, d2, n);
    }
  }

  lemma ZeroOrderUntouched(lay: Layout, w: Write, d1: Bytes, d2: Bytes, n: PartName)
    requires lay.Valid() && |d1| == lay.diskBytes && Updatable(n) && SameOutside(d1, d2, [lay.parts(n)])
    requires IsZeroWrite(lay, w)
    ensures w.region.Within(|d2|) && w.region.Within(|d1|) && Slice(d2, w.region) == Slice(d1, w.region)
  {
    AllowedIsInside(lay, w, true);
    InsideDisjoint(lay, lay.parts(n), w.region, n, Target(w));
    hide Layout.Valid;
    SliceUntouched(d1, d2, [lay.parts(n)], w.region);
  }

  /** So in exactly those two cases a device can damage a new image unseen: here
      is a disk with another head that every last read agrees with. */
  lemma DamageUnseen(lay: Layout, sha: Hash, job: Job, state: map<PartName, Build>, d0: Bytes, d1: Bytes, n: PartName)
      returns (d2: Bytes)
    requires JobOk(lay, sha, job) && |d0| == |d1| == lay.diskBytes && Updatable(n)
    requires job.wipe || n in Unchanged(job, state)
    requires LastRead(lay, sha, job, state, d0, d1)
    ensures |d2| == lay.diskBytes && LastRead(lay, sha, job, state, d0, d2)
    ensures n in job.images && HeadRegion(lay, job, n).Within(|d2|)
    ensures Slice(d2, HeadRegion(lay, job, n)) != job.images[n].content
  {
    hide JobOk, LastRead, HeadRegion, SameOutside, Layout.Valid, Unchanged;
    HeadFacts(lay, sha, job, n);
    d2 := OtherHead(d1, HeadRegion(lay, job, n), lay.parts(n), job.images[n].content);
    ImageUnwatched(lay, sha, job, state, d0, d1, d2, n);
  }

  /** The disk with a first byte of the range that differs from the content's. */
  lemma OtherHead(d: Bytes, r: Region, outer: Region, content: Bytes) returns (d2: Bytes)
    requires r.Within(|d|) && r.Inside(outer) && |content| == r.Size() > 0
    ensures SameOutside(d, d2, [outer]) && |d2| == |d| && Slice(d2, r) != content
  {
    var x: byte := if content[0] == 0 then 1 else 0;
    d2 := Overwrite(d, r.Lo(), [x]);
    assert Slice(d2, r)[0] == x;
    forall i | 0 <= i < |d2| && forall k :: 0 <= k < 1 ==> ![outer][k].Covers(i) ensures d2[i] == d[i] {
      assert ![outer][0].Covers(i);
    }
  }

  // ---- rehearsal, then update ----

  /** What a passed rehearsal says: everything an update of this disk would be
      checked for holds; nothing was changed, nothing is claimed to have been
      read back, and power was the last thing touched. */
  lemma RehearsalIsHonest(tool: Tool, sha: Hash, faithful: bool, job: Job, state: map<PartName, Build>, begun: bool,
                          a: Snap, b: Snap, o: Outcome)
    requires tool.lay.Valid() && |a.disk| == |b.disk| == tool.lay.diskBytes && job.mode.BackupOnly?
    requires RunEnd(tool, sha, faithful, job, state, begun, a, b, o)
    ensures b.disk == a.disk && !begun && !b.report.readbackVerified
    ensures b.capture.report.Some? ==> !b.capture.report.value.readbackVerified
    ensures o.Pass? ==>
      && Welcome(tool, sha, job, a.disk) && StateOf(sha, tool.lay, a.disk, job.prev, job.images, state)
                        && b.report.invariantsUnchanged == Some(true) && EndsWithPower(b.log, |a.log|)
    ensures Powered(b.log, |a.log|) ==>
      Welcome(tool, sha, job, a.disk) && b.capture.manifest.Some? && b.report.invariantsUnchanged == Some(true)
  {
    hide Welcome, Recorded, Safe, UpdateCore, StateOf, JobOk;
    if OnlyReads(a.log, b.log) { assert !Powered(b.log, |a.log|); }
  }

  /** `u` is the update that `job` rehearses, with whatever backup policy. */
  ghost predicate Rehearses(job: Job, u: Job) {
    && job.mode.BackupOnly? && CheckPolicy(job).Pass? && u.mode.Update? && CheckPolicy(u).Pass?
    && u == job.(mode := u.mode, snapshot := u.snapshot, userdataFull := u.userdataFull, powerAfter := u.powerAfter)
  }

  /** Without saved copies the previous images' heads are hashed on the device, in
      whole sectors; with them any length will do. */
  ghost predicate HeadsHashable(lay: Layout, u: Job) {
    !u.snapshot ==> forall n :: Updatable(n) && n in u.prev ==> ValidLength(lay, n, u.prev[n].nbytes)
  }

  lemma WelcomeRehearsal(tool: Tool, sha: Hash, job: Job, u: Job, d: Bytes)
    requires tool.lay.Valid() && |d| == tool.lay.diskBytes && Rehearses(job, u)
    ensures Welcome(tool, sha, u, d) <==> Welcome(tool, sha, job, d) && HeadsHashable(tool.lay, u)
  {
    hide PreCheckOk, PayloadsOk, IsHead, Compat.NotOlder, Compat.SameData, Compat.WipeBootable;
    if OfflineOk(tool.lay, sha, job) && forall n :: Updatable(n) ==> n in job.prev {
      UpdatableIsImageOrder();
      assert forall n :: Updatable(n) ==> n in IMAGE_ORDER && Fits(tool.lay, n, job.images[n].nbytes);
    }
  }

  /** Runs a rehearsal, then the update it rehearses on a working device. The
      rehearsal changes nothing, and if it passed the update passes; when nothing
      fails in the rehearsal the update passes only if it did. A hash-only update
      also needs image lengths in whole sectors, which no rehearsal looks at. */
  method RehearseThenUpdate(disk: array<byte>, tool: Tool, job: Job, u: Job, sha: Hash, trouble: Trouble,
                            hashesOnDevice: bool)
      returns (rehearsed: Outcome, updated: Outcome, ghost d1: Bytes)
    requires tool.lay.Valid() && tool.lay.diskBytes == disk.Length && trouble.Valid() && Rehearses(job, u)
    modifies disk
    ensures d1 == old(disk[..])
    ensures rehearsed.Pass? ==> (updated.Pass? <==> HeadsHashable(tool.lay, u))
    ensures trouble.Free() ==> (updated.Pass? <==> rehearsed.Pass? && HeadsHashable(tool.lay, u))
  {
    hide Welcome, Rehearses, HeadsHashable, Layout.Valid, RunEnd;
    ghost var state, begun, a, b;
    var capture;
    rehearsed, capture, state, begun, a, b := FaithfulRun(disk, tool, job, sha, trouble, hashesOnDevice);
    RehearsalUnwritten(tool, sha, job, state, begun, a, b, rehearsed, u);
    d1 := disk[..];
    WelcomeRehearsal(tool, sha, job, u, d1);
    updated, capture, state, begun, a, b := FaithfulRun(disk, tool, u, sha, UNTROUBLED, hashesOnDevice);
  }

  lemma RehearsalUnwritten(tool: Tool, sha: Hash, job: Job, state: map<PartName, Build>, begun: bool, a: Snap, b: Snap,
                           o: Outcome, u: Job)
    requires tool.lay.Valid() && |a.disk| == |b.disk| == tool.lay.diskBytes && Rehearses(job, u)
    requires RunEnd(tool, sha, true, job, state, begun, a, b, o)
    ensures b.disk == a.disk
  {
    hide RunEnd;
    RehearsalIsHonest(tool, sha, true, job, state, begun, a, b, o);
  }

  // ---- update, then rollback ----

  /** A stopped or finished snapshot update on a faithful device leaves a
      capture to go back from, and has changed only the four partitions. */
  lemma UpdateLeavesRollback(tool: Tool, sha: Hash, job: Job, state: map<PartName, Build>, begun: bool, a: Snap,
                             b: Snap, o: Outcome)
    requires tool.lay.Valid() && |a.disk| == |b.disk| == tool.lay.diskBytes
    requires RunEnd(tool, sha, true, job, state, begun, a, b, o)
    requires job.mode.Update? && job.snapshot && !job.wipe && b.capture.manifest.Some?
    ensures RollbackReady(tool.lay, sha, a.disk, b.disk, b.capture)
    ensures SameOutside(a.disk, b.disk, WriteRegions(FullImageWrites(tool.lay)))
    ensures PreCheckOk(tool, sha, job.kit, b.disk)
  {
    UpdateFrame(tool, sha, job, state, begun, a, b, o);
    assert FullImageWrites(tool.lay) + [] == FullImageWrites(tool.lay);
    PreCheckUntouched(tool, sha, job.kit, a.disk, b.disk);
    hide PreCheckOk, UpdateCore, Undoable, CopiesHold, FullImageWrites;
  }

  lemma NothingLived(tool: Tool, sha: Hash, kit: Option<Kit>, d: Bytes)
    requires tool.lay.Valid() && |d| == tool.lay.diskBytes && PreCheckOk(tool, sha, kit, d)
    ensures Lived(tool, sha, kit, d, d)
  {
    PartsWithin(tool.lay);
  }

  /** From readiness to restoration. */
  lemma BackAgain(tool: Tool, sha: Hash, kit: Option<Kit>, d0: Bytes, d1: Bytes, d2: Bytes, c: Capture, begun: bool,
                  e: Snap, g: Snap, o: Outcome)
    requires tool.lay.Valid() && |d0| == |d1| == |d2| == |g.disk| == tool.lay.diskBytes && e.disk == d2
    requires RollbackReady(tool.lay, sha, d0, d1, c) && Lived(tool, sha, kit, d1, d2)
    requires RollbackEnd(tool.lay, sha, true, c, begun, e, g, o) && o.Pass?
    ensures Restored(tool.lay, d0, g.disk)
    ensures SameOutside(d2, g.disk, WriteRegions(FullImageWrites(tool.lay)))
    ensures SameOutside(d0, d2, WriteRegions(FullImageWrites(tool.lay))) ==> g.disk == d0
  {
    hide PreCheckOk, Undoable, Invariants, AllReadBack, Lived, Classify, FilesOk, FullImageWrites;
    RollbackFacts(tool.lay, sha, c);
    RollbackRestores(tool.lay, sha, d0, d2, g.disk, c);
  }

  /** Any call of run_update on a faithful device that may fail at any operation.
      When nothing fails it passes exactly for a right job on a phone in the state
      the job expects. */
  method FaithfulRun(disk: array<byte>, tool: Tool, job: Job, sha: Hash, trouble: Trouble, hashesOnDevice: bool)
      returns (o: Outcome, capture: Capture, ghost state: map<PartName, Build>, ghost begun: bool, ghost a: Snap,
               ghost b: Snap)
    requires tool.lay.Valid() && tool.lay.diskBytes == disk.Length && trouble.Valid()
    modifies disk
    ensures a.disk == old(disk[..]) && b.disk == disk[..] && b.capture == capture
    ensures RunEnd(tool, sha, true, job, state, begun, a, b, o)
    ensures o.Pass? ==> Welcome(tool, sha, job, old(disk[..])) && capture.manifest.Some?
    ensures trouble.Free() ==> (o.Pass? <==> Welcome(tool, sha, job, old(disk[..])))
    ensures (&& trouble.Free() && OfflineOk(tool.lay, sha, job) && PreCheckOk(tool, sha, job.kit, old(disk[..]))
             && Identifiable(tool.lay, job)) ==>
        (o.Pass? <==> forall n :: Updatable(n) ==>
          || IsHead(sha, Slice(old(disk[..]), tool.lay.parts(n)), job.prev[n])
          || (job.reflash && IsHead(sha, Slice(old(disk[..]), tool.lay.parts(n)), job.images[n])))
    ensures o.Pass? && job.mode.Update? ==>
      && JobOk(tool.lay, sha, job)
      && (HeadsDoNotCollide(tool.lay, sha, job, old(disk[..])) ==>
            Written(tool.lay, job.images, job.wipe, old(disk[..]), disk[..]))
    ensures Foreign(tool.lay, sha, job, old(disk[..])) ==>
      o.Stopped? && capture.manifest.None? && disk[..] == old(disk[..])
  {
    hide Welcome, RunEnd, Layout.Valid, Foreign, OfflineOk, PreCheckOk, Identifiable, IsHead, JobOk, Written,
         HeadsDoNotCollide;
    PartsWithin(tool.lay);
    WelcomePlainly(tool, sha, job, disk[..]);
    var s := FaithfulSession(disk, sha, hashesOnDevice, trouble);
    a := s.Now();
    ghost var mark;
    o, state, begun, mark := RunUpdate(s, tool, job);
    b := s.Now();
    capture := s.capture;
    if o.Pass? { PassedIsWelcome(tool, sha, true, job, state, begun, a, b, o); }
    if o.Pass? && job.mode.Update? { PassedInBytes(tool, sha, job, state, begun, a, b, o); }
    if Foreign(tool.lay, sha, job, a.disk) { ForeignRefused(tool, sha, true, job, state, begun, a, b, o); }
  }

  lemma PassedInBytes(tool: Tool, sha: Hash, job: Job, state: map<PartName, Build>, begun: bool, a: Snap, b: Snap,
                      o: Outcome)
    requires tool.lay.Valid() && |a.disk| == |b.disk| == tool.lay.diskBytes && job.mode.Update?
    requires RunEnd(tool, sha, true, job, state, begun, a, b, o) && o.Pass?
    ensures JobOk(tool.lay, sha, job)
    ensures HeadsDoNotCollide(tool.lay, sha, job, a.disk) ==> Written(tool.lay, job.images, job.wipe, a.disk, b.disk)
  {
    hide Recorded, Safe, StateOf, JobOk, Welcome, Ordered, Truthful, HeadsDoNotCollide, Written, Holds, SameOutside,
         Layout.Valid;
    assert begun;
    if HeadsDoNotCollide(tool.lay, sha, job, a.disk) {
      FinishedInBytes(tool.lay, sha, job, state, a.disk, b.disk);
    }
  }

  /** Some head is not the previous kit's image, nor, where the new one may be
      written again, the new kit's. */
  ghost predicate Foreign(lay: Layout, sha: Hash, job: Job, d: Bytes) {
    exists n ::
      && Updatable(n) && n in job.prev && n in job.images && lay.parts(n).Within(|d|)
      && !IsHead(sha, Slice(d, lay.parts(n)), job.prev[n])
      && !(job.reflash && IsHead(sha, Slice(d, lay.parts(n)), job.images[n]))
  }

  /** What is asked of the phone beyond the checks: without reflash every head is
      the previous kit's image, with it each is one of the two. */
  lemma WelcomePlainly(tool: Tool, sha: Hash, job: Job, d: Bytes)
    requires tool.lay.Valid() && |d| == tool.lay.diskBytes
    ensures OfflineOk(tool.lay, sha, job) && PreCheckOk(tool, sha, job.kit, d) && Identifiable(tool.lay, job) ==>
      && (forall n :: Updatable(n) ==> n in job.prev && n in job.images && tool.lay.parts(n).Within(|d|))
      && (Welcome(tool, sha, job, d) <==> forall n :: Updatable(n) ==>
            || IsHead(sha, Slice(d, tool.lay.parts(n)), job.prev[n])
            || (job.reflash && IsHead(sha, Slice(d, tool.lay.parts(n)), job.images[n])))
  {
    hide PreCheckOk, IsHead, Layout.Valid, Permitted, Fits;
    PartsWithin(tool.lay);
  }

  /** On any device, a phone with a foreign head is refused having only been read. */
  lemma ForeignRefused(tool: Tool, sha: Hash, faithful: bool, job: Job, state: map<PartName, Build>, begun: bool,
                       a: Snap, b: Snap, o: Outcome)
    requires tool.lay.Valid() && |a.disk| == |b.disk| == tool.lay.diskBytes
    requires RunEnd(tool, sha, faithful, job, state, begun, a, b, o) && Foreign(tool.lay, sha, job, a.disk)
    ensures o.Stopped? && b.capture.manifest.None? && b.disk == a.disk && OnlyReads(a.log, b.log) && NoClaims(b)
  {
    hide Recorded, Safe, UpdateCore, StateOf, JobOk, PreCheckOk, OfflineOk, IsHead, Identifiable;
  }

  /** No run passes unless the job is right and the phone is as it expects. */
  lemma PassedIsWelcome(tool: Tool, sha: Hash, faithful: bool, job: Job, state: map<PartName, Build>, begun: bool,
                        a: Snap, b: Snap, o: Outcome)
    requires tool.lay.Valid() && |a.disk| == |b.disk| == tool.lay.diskBytes
    requires RunEnd(tool, sha, faithful, job, state, begun, a, b, o) && o.Pass?
    ensures Welcome(tool, sha, job, a.disk) && b.capture.manifest.Some?
  {
    hide Welcome, Recorded, Safe, UpdateCore, StateOf, JobOk;
  }

  /** An update on a faithful device that may fail at any operation. */
  method FaithfulUpdate(disk: array<byte>, tool: Tool, job: Job, sha: Hash, trouble: Trouble, hashesOnDevice: bool)
      returns (o: Outcome, capture: Capture)
    requires tool.lay.Valid() && tool.lay.diskBytes == disk.Length && trouble.Valid()
    requires job.mode.Update? && job.snapshot && !job.wipe
    modifies disk
    ensures capture.manifest.None? ==> disk[..] == old(disk[..])
    ensures capture.manifest.Some? ==>
              && RollbackReady(tool.lay, sha, old(disk[..]), disk[..], capture)
              && SameOutside(old(disk[..]), disk[..], WriteRegions(FullImageWrites(tool.lay)))
              && PreCheckOk(tool, sha, job.kit, disk[..])
    ensures o.Pass? ==> capture.manifest.Some?
    ensures trouble.Free() ==> (o.Pass? <==> Welcome(tool, sha, job, old(disk[..])))
  {
    hide RollbackReady, PreCheckOk, SameOutside, Layout.Valid, UpdateCore, Recorded, JobOk, Safe, FullImageWrites,
         Welcome, StateOf;
    ghost var state, begun, a, b;
    o, capture, state, begun, a, b := FaithfulRun(disk, tool, job, sha, trouble, hashesOnDevice);
    if capture.manifest.Some? { UpdateLeavesRollback(tool, sha, job, state, begun, a, b, o); }
  }

  /** A rollback with a device and a capture directory that do not fail. */
  method UnfailingRollback(disk: array<byte>, tool: Tool, kit: Option<Kit>, sha: Hash, capture: Capture,
                           hashesOnDevice: bool,
                           powerAfter: Option<PowerState>, ghost d0: Bytes, ghost d1: Bytes) returns (o: Outcome)
    requires tool.lay.Valid() && tool.lay.diskBytes == disk.Length == |d0| == |d1|
    requires RollbackReady(tool.lay, sha, d0, d1, capture)
    modifies disk
    ensures Lived(tool, sha, kit, d1, old(disk[..])) ==>
              && o.Pass? && Restored(tool.lay, d0, disk[..])
              && SameOutside(old(disk[..]), disk[..], WriteRegions(FullImageWrites(tool.lay)))
              && (SameOutside(d0, old(disk[..]), WriteRegions(FullImageWrites(tool.lay))) ==> disk[..] == d0)
  {
    hide RollbackReady, PreCheckOk, Lived, SameOutside, Layout.Valid, RollbackEnd, Acceptable, Restored,
         FullImageWrites;
    ghost var d2 := disk[..];
    var s := FaithfulSession(disk, sha, hashesOnDevice, UNTROUBLED);
    ghost var e := s.Now();
    if Lived(tool, sha, kit, d1, d2) {
      LivedPasses(tool, sha, kit, d1, d2);
      LivedStillReady(tool, sha, kit, d0, d1, d2, capture);
      ReadyIsAcceptable(tool.lay, sha, d0, d2, capture);
    }
    ghost var begun;
    o, begun := RunRollback(s, tool, capture, kit, powerAfter);
    if Lived(tool, sha, kit, d1, d2) { BackAgain(tool, sha, kit, d0, d1, d2, capture, begun, e, s.Now(), o); }
  }

  /** The four partitions are back. */
  ghost predicate Restored(lay: Layout, d0: Bytes, d: Bytes) {
    && |d| == |d0|
    && forall n :: Updatable(n) ==> lay.parts(n).Within(|d|) && Slice(d, lay.parts(n)) == Slice(d0, lay.parts(n))
  }

  lemma LivedPasses(tool: Tool, sha: Hash, kit: Option<Kit>, d1: Bytes, d2: Bytes)
    requires tool.lay.Valid() && |d1| == tool.lay.diskBytes && Lived(tool, sha, kit, d1, d2)
    ensures |d2| == |d1| && PreCheckOk(tool, sha, kit, d2)
  {
  }

  /** Runs a snapshot update that may stop anywhere, lets the phone live on, and
      rolls back from the capture. The four partitions are what they were and
      the rest is as the phone left it; undisturbed, the whole disk is as it was.
      Without a manifest nothing was written at all. */
  method UpdateThenRollback(disk: array<byte>, tool: Tool, job: Job, sha: Hash, trouble: Trouble, hashesOnDevice: bool,
                            life: Bytes -> Bytes, powerAfter: Option<PowerState>)
      returns (updated: Outcome, captured: bool, ghost d1: Bytes, ghost d2: Bytes, back: Outcome)
    requires tool.lay.Valid() && tool.lay.diskBytes == disk.Length
    requires job.mode.Update? && job.snapshot && !job.wipe
    requires trouble.Valid() && forall d :: |life(d)| == |d|
    modifies disk
    ensures !captured ==> disk[..] == old(disk[..])
    ensures |d1| == |d2| == disk.Length
    ensures captured ==> d2 == life(d1) && SameOutside(old(disk[..]), d1, WriteRegions(FullImageWrites(tool.lay)))
    ensures captured && Lived(tool, sha, job.kit, d1, d2) ==>
              && back.Pass? && Restored(tool.lay, old(disk[..]), disk[..])
              && SameOutside(d2, disk[..], WriteRegions(FullImageWrites(tool.lay)))
    ensures captured && d2 == d1 ==> back.Pass? && disk[..] == old(disk[..])
    ensures updated.Pass? ==> captured
    ensures trouble.Free() ==> (updated.Pass? <==> Welcome(tool, sha, job, old(disk[..])))
  {
    hide Welcome, RollbackReady, PreCheckOk, Lived, SameOutside, Layout.Valid, Restored, FullImageWrites;
    ghost var d0 := disk[..];
    back := Stopped(NotACapture);
    var capture;
    updated, capture := FaithfulUpdate(disk, tool, job, sha, trouble, hashesOnDevice);
    d1 := disk[..];
    d2 := d1;
    captured := capture.manifest.Some?;
    if !captured { return; }
    NothingLived(tool, sha, job.kit, d1);
    var lived := life(disk[..]);
    forall k | 0 <= k < disk.Length { disk[k] := lived[k]; }
    assert disk[..] == lived;
    d2 := disk[..];
    back := UnfailingRollback(disk, tool, job.kit, sha, capture, hashesOnDevice, powerAfter, d0, d1);
  }
}
