// A faulty device at work: what the closing checks of an update do not see.

module Damage {
  import opened Options
  import opened Disk
  import opened Outcomes
  import opened Layout
  import opened UpdateLayout
  import opened Devices
  import opened Sessions
  import opened Survey
  import opened Orders
  import opened Phases
  import opened UpdateSurvey
  import opened UpdateEngine
  import opened UpdateRun
  import opened UpdateTheorems

  // ---- programs on a device that also changes something else ----

  /** At program `k` of these the device changes nothing outside `vs` besides. */
  ghost predicate SparesAt(warp: (seq<Event>, Bytes) -> Bytes, log0: seq<Event>, bytes: nat, orders: seq<Order>,
                           vs: seq<Region>, k: nat)
    requires k < |orders|
  {
    var log := log0 + Programs(orders[..k + 1]);
    forall d :: |d| == bytes ==> SameOutside(d, warp(log, d), vs)
  }

  ghost predicate Spares(warp: (seq<Event>, Bytes) -> Bytes, log0: seq<Event>, bytes: nat, orders: seq<Order>,
                         vs: seq<Region>) {
    forall k :: 0 <= k < |orders| ==> SparesAt(warp, log0, bytes, orders, vs, k)
  }

  ghost predicate ApartFrom(orders: seq<Order>, vs: seq<Region>) {
    forall k, v :: 0 <= k < |orders| && 0 <= v < |vs| ==> !vs[v].Overlaps(orders[k].region)
  }

  /** The first `i` payloads are where they were programmed. */
  ghost predicate InPlace(orders: seq<Order>, i: nat, d: Bytes)
    requires i <= |orders|
  {
    forall k :: 0 <= k < i ==> orders[k].region.Within(|d|) && Slice(d, orders[k].region) == orders[k].payload
  }

  /** Then everything programmed stays in place, and nothing else changes outside `vs`. */
  lemma {:induction false} SparedPrograms(warp: (seq<Event>, Bytes) -> Bytes, log0: seq<Event>, d0: Bytes,
                                          orders: seq<Order>, vs: seq<Region>, i: nat)
    requires SizeKept(warp) && OrdersFit(orders, |d0|) && PairwiseDisjoint(OrderRegions(orders)) && i <= |orders|
    requires Spares(warp, log0, |d0|, orders, vs) && ApartFrom(orders, vs)
    ensures SameOutside(d0, AfterPrograms(warp, log0, d0, orders, i), OrderRegions(orders) + vs)
    ensures InPlace(orders, i, AfterPrograms(warp, log0, d0, orders, i))
  {
    hide SameOutside, PairwiseDisjoint, Spares, SparesAt, ApartFrom, OrdersFit, AfterPrograms, Programs;
    NoneAfter(warp, log0, d0, orders);
    SameOutsideRefl(d0, OrderRegions(orders) + vs);
    if i > 0 {
      SparedPrograms(warp, log0, d0, orders, vs, i - 1);
      hide InPlace;
      SparedProgram(warp, log0, d0, AfterPrograms(warp, log0, d0, orders, i - 1), orders, vs, i - 1);
      OneMoreAfter(warp, log0, d0, orders, i - 1);
    }
  }

  lemma SparedProgram(warp: (seq<Event>, Bytes) -> Bytes, log0: seq<Event>, d0: Bytes, d: Bytes, orders: seq<Order>,
                      vs: seq<Region>, i: nat)
    requires SizeKept(warp) && OrdersFit(orders, |d0|) && PairwiseDisjoint(OrderRegions(orders)) && i < |orders|
    requires Spares(warp, log0, |d0|, orders, vs) && ApartFrom(orders, vs)
    requires SameOutside(d0, d, OrderRegions(orders) + vs) && InPlace(orders, i, d)
    ensures |d| == |d0| && OrderFits(orders[i], |d0|)
    ensures var f := warp(log0 + Programs(orders[..i + 1]), Overwrite(d, orders[i].region.Lo(), orders[i].payload));
      SameOutside(d0, f, OrderRegions(orders) + vs) && InPlace(orders, i + 1, f)
  {
    var r, wider := orders[i].region, OrderRegions(orders) + vs;
    assert |d| == |d0|;
    var e := Overwrite(d, r.Lo(), orders[i].payload);
    var f := warp(log0 + Programs(orders[..i + 1]), e);
    assert SparesAt(warp, log0, |d0|, orders, vs, i) && SameOutside(e, f, vs);
    OverwriteSameOutside(d, r, orders[i].payload);
    hide SameOutside, Spares, SparesAt;
    StillInPlace(d, e, f, orders, vs, i);
    hide PairwiseDisjoint, ApartFrom, InPlace;
    assert InsideOne([r][0], wider) by { assert r.Inside(wider[i]); }
    SameOutsideWiden(d, e, [r], wider);
    forall v | 0 <= v < |vs| ensures InsideOne(vs[v], wider) { assert vs[v].Inside(wider[|orders| + v]); }
    SameOutsideWiden(e, f, vs, wider);
    SameOutsideTrans(d0, d, e, wider);
    SameOutsideTrans(d0, e, f, wider);
  }

  lemma StillInPlace(d: Bytes, e: Bytes, f: Bytes, orders: seq<Order>, vs: seq<Region>, i: nat)
    requires OrdersFit(orders, |d|) && PairwiseDisjoint(OrderRegions(orders)) && i < |orders| && ApartFrom(orders, vs)
    requires OrderFits(orders[i], |d|) && e == Overwrite(d, orders[i].region.Lo(), orders[i].payload)
    requires SameOutside(d, e, [orders[i].region]) && SameOutside(e, f, vs) && InPlace(orders, i, d)
    ensures InPlace(orders, i + 1, f)
  {
    Refilled(d, orders[i].region, orders[i].payload);
    hide SameOutside, PairwiseDisjoint, OrdersFit;
    forall k | 0 <= k < i + 1 ensures orders[k].region.Within(|f|) && Slice(f, orders[k].region) == orders[k].payload {
      if k < i {
        EarlierApart(orders, k, i);
        SliceUntouched(d, e, [orders[i].region], orders[k].region);
      }
      SameSize(e, f, vs);
      SliceUntouched(e, f, vs, orders[k].region);
    }
  }

  lemma EarlierApart(orders: seq<Order>, k: nat, i: nat)
    requires PairwiseDisjoint(OrderRegions(orders)) && k < i < |orders|
    ensures !orders[i].region.Overlaps(orders[k].region)
  {
    assert !OrderRegions(orders)[k].Overlaps(OrderRegions(orders)[i]);
  }

  lemma SparedReadBack(sha: Hash, warp: (seq<Event>, Bytes) -> Bytes, log0: seq<Event>, d0: Bytes, orders: seq<Order>,
                       vs: seq<Region>)
    requires SizeKept(warp) && OrdersFit(orders, |d0|) && PairwiseDisjoint(OrderRegions(orders))
    requires Spares(warp, log0, |d0|, orders, vs) && ApartFrom(orders, vs) && DigestsRight(sha, orders)
    ensures AllReadBack(sha, AfterPrograms(warp, log0, d0, orders, |orders|), orders)
    ensures SameOutside(d0, AfterPrograms(warp, log0, d0, orders, |orders|), OrderRegions(orders) + vs)
  {
    SparedPrograms(warp, log0, d0, orders, vs, |orders|);
    hide AfterPrograms, SameOutside, Spares;
  }

  // ---- the damage ----

  /** At every program or, in a wiping update, at that of the userdata head, which
      is its last, the device puts one wrong byte somewhere. */
  function Harm(wipe: bool, last: Region, at: int, x: byte, log: seq<Event>, d: Bytes): (e: Bytes)
    ensures |e| == |d|
  {
    if |log| > 0 && (wipe ==> log[|log| - 1] == Event.Program(last)) && 0 <= at < |d| then Overwrite(d, at, [x]) else d
  }

  lemma HarmWithin(wipe: bool, last: Region, at: int, x: byte, log: seq<Event>, d: Bytes, outer: Region)
    requires outer.Covers(at)
    ensures SameOutside(d, Harm(wipe, last, at, x, log, d), [outer])
  {
    forall i | 0 <= i < |d| && forall k :: 0 <= k < 1 ==> ![outer][k].Covers(i)
      ensures Harm(wipe, last, at, x, log, d)[i] == d[i]
    {
      assert ![outer][0].Covers(i);
    }
  }

  /** The update skips this partition when it holds what the job expects. */
  ghost predicate Skips(job: Job, n: PartName) {
    !job.reflash && n in job.images && n in job.prev && SameImage(job.images[n], job.prev[n])
  }

  /** Some program of the run comes after the last look at partition `n`. */
  ghost predicate Exposed(job: Job, n: PartName) {
    job.wipe || (Skips(job, n) && exists m :: Updatable(m) && !Skips(job, m))
  }

  lemma LastOfPrograms(log0: seq<Event>, orders: seq<Order>, k: nat)
    requires k < |orders|
    ensures var log := log0 + Programs(orders[..k + 1]);
      |log| > 0 && log[|log| - 1] == Event.Program(orders[k].region)
  {
  }

  /** The device of this harm. */
  ghost predicate Harms(warp: (seq<Event>, Bytes) -> Bytes, wipe: bool, last: Region, at: int, x: byte) {
    forall log, d :: warp(log, d) == Harm(wipe, last, at, x, log, d)
  }

  lemma SparesPartition(warp: (seq<Event>, Bytes) -> Bytes, wipe: bool, last: Region, at: int, x: byte,
                        log0: seq<Event>, bytes: nat, orders: seq<Order>, outer: Region)
    requires Harms(warp, wipe, last, at, x) && outer.Covers(at)
    ensures SizeKept(warp) && Spares(warp, log0, bytes, orders, [outer])
  {
    forall log, d ensures SameOutside(d, warp(log, d), [outer]) { HarmWithin(wipe, last, at, x, log, d, outer); }
  }

  /** Before the userdata head's program a wiping update sees no harm. */
  lemma SparesAll(warp: (seq<Event>, Bytes) -> Bytes, last: Region, at: int, x: byte, log0: seq<Event>, bytes: nat,
                  orders: seq<Order>)
    requires Harms(warp, true, last, at, x) && last !in OrderRegions(orders)
    ensures SizeKept(warp) && Spares(warp, log0, bytes, orders, [])
  {
    forall k | 0 <= k < |orders| ensures SparesAt(warp, log0, bytes, orders, [], k) {
      LastOfPrograms(log0, orders, k);
      assert OrderRegions(orders)[k] != last;
    }
  }

  /** The last of the programs does the harm. */
  lemma Harmed(warp: (seq<Event>, Bytes) -> Bytes, wipe: bool, last: Region, at: int, x: byte, log0: seq<Event>,
               d0: Bytes, orders: seq<Order>)
    requires Harms(warp, wipe, last, at, x) && 0 <= at < |d0|
    requires SizeKept(warp) && OrdersFit(orders, |d0|) && orders != [] && (wipe ==> orders[|orders| - 1].region == last)
    ensures AfterPrograms(warp, log0, d0, orders, |orders|)[at] == x
  {
    hide AfterPrograms, Programs, OrderFits;
    LastOfPrograms(log0, orders, |orders| - 1);
    OneMoreAfter(warp, log0, d0, orders, |orders| - 1);
  }

  lemma ImagesApart(lay: Layout, sha: Hash, job: Job, state: map<PartName, Build>, n: PartName)
    requires JobOk(lay, sha, job) && Updatable(n) && n in Unchanged(job, state)
    ensures ApartFrom(ImageWork(lay, sha, job, state), [lay.parts(n)])
  {
    var imgs := ImageWork(lay, sha, job, state);
    forall k | 0 <= k < |imgs| ensures !lay.parts(n).Overlaps(imgs[k].region) {
      WorkOf(lay, sha, job, state, k);
      HeadFacts(lay, sha, job, imgs[k].tag.name);
      InsideDisjoint(lay, lay.parts(n), imgs[k].region, n, imgs[k].tag.name);
    }
  }

  lemma ZeroesApart(lay: Layout, sha: Hash, job: Job, n: PartName)
    requires JobOk(lay, sha, job) && Updatable(n)
    ensures ApartFrom(ZeroWork(lay, sha, job), [lay.parts(n)])
  {
    var zs := ZeroWork(lay, sha, job);
    assert lay.Valid() && forall k :: 0 <= k < |zs| ==> IsZeroWrite(lay, WriteOf(zs[k]));
    hide JobOk, Layout.Valid, ZeroWork, Region.Overlaps;
    forall k | 0 <= k < |zs| ensures !lay.parts(n).Overlaps(zs[k].region) {
      ZeroApart(lay, WriteOf(zs[k]), n);
    }
  }

  lemma ZeroApart(lay: Layout, w: Write, n: PartName)
    requires lay.Valid() && IsZeroWrite(lay, w) && Updatable(n)
    ensures !lay.parts(n).Overlaps(w.region)
  {
    AllowedIsInside(lay, w, true);
    InsideDisjoint(lay, lay.parts(n), w.region, n, Target(w));
  }

  /** What the run reads back of the images is right, and the disk has changed only
      where it may. */
  lemma ImagesEndure(lay: Layout, sha: Hash, job: Job, state: map<PartName, Build>, n: PartName, x: byte,
                     warp: (seq<Event>, Bytes) -> Bytes, mark: seq<Event>, d0: Bytes)
    requires JobOk(lay, sha, job) && |d0| == lay.diskBytes && Updatable(n) && n in job.images
    requires Harms(warp, job.wipe, UserdataZeroHead(lay), HeadRegion(lay, job, n).Lo(), x)
    requires job.wipe || n in Unchanged(job, state)
    ensures SizeKept(warp)
    ensures var d1 := ImagesDisk(lay, sha, job, state, warp, mark, d0);
      AllReadBack(sha, d1, ImageWork(lay, sha, job, state)) && SameOutside(d0, d1, MayChange(lay, job.wipe))
  {
    var imgs, outer, last := ImageWork(lay, sha, job, state), lay.parts(n), UserdataZeroHead(lay);
    var at := HeadRegion(lay, job, n).Lo();
    HeadFacts(lay, sha, job, n);
    WorkFacts(lay, sha, job, state);
    WorkReady(lay, sha, imgs, false);
    var vs := if job.wipe then [] else [outer];
    if job.wipe {
      ZeroHeadIsNoImage(lay, sha, imgs, 1);
      SparesAll(warp, last, at, x, mark, |d0|, imgs);
    } else {
      SparesPartition(warp, false, last, at, x, mark, |d0|, imgs, outer);
      ImagesApart(lay, sha, job, state, n);
    }
    hide Harms, Spares, JobOk, Layout.Valid, ImageWork, AfterPrograms, MayChange, WorkOk;
    SparedReadBack(sha, warp, mark, d0, imgs, vs);
    SpreadMayChange(lay, sha, imgs, n, vs, job.wipe, d0, AfterPrograms(warp, mark, d0, imgs, |imgs|));
  }

  /** Allowed work and one of the four partitions are all within what may change. */
  lemma SpreadMayChange(lay: Layout, sha: Hash, orders: seq<Order>, n: PartName, vs: seq<Region>, wipe: bool, d0: Bytes,
                        d: Bytes)
    requires lay.Valid() && Updatable(n) && (vs == [] || vs == [lay.parts(n)])
    requires WorkOk(lay, sha, orders, false) || (wipe && WorkOk(lay, sha, orders, true))
    requires SameOutside(d0, d, OrderRegions(orders) + vs)
    ensures SameOutside(d0, d, MayChange(lay, wipe))
  {
    var rs, wider := OrderRegions(orders) + vs, MayChange(lay, wipe);
    forall k | 0 <= k < |rs| ensures InsideOne(rs[k], wider) {
      if k < |orders| {
        AllowedMayChange(lay, WriteOf(orders[k]), wipe);
      } else {
        AllowedMayChange(lay, PartWrite(lay, n), wipe);
      }
    }
    SameOutsideWiden(d0, d, rs, wider);
  }

  /** The zeroed heads read back, and the disk has changed only where it may. */
  lemma ZeroesEndure(lay: Layout, sha: Hash, job: Job, state: map<PartName, Build>, n: PartName, x: byte,
                     warp: (seq<Event>, Bytes) -> Bytes, mark: seq<Event>, d0: Bytes)
    requires JobOk(lay, sha, job) && |d0| == lay.diskBytes && Updatable(n) && n in job.images
    requires Harms(warp, job.wipe, UserdataZeroHead(lay), HeadRegion(lay, job, n).Lo(), x) && SizeKept(warp)
    requires SameOutside(d0, ImagesDisk(lay, sha, job, state, warp, mark, d0), MayChange(lay, job.wipe))
    ensures var d2 := FinishedDisk(lay, sha, job, state, warp, mark, d0);
      AllReadBack(sha, d2, ZeroWork(lay, sha, job)) && SameOutside(d0, d2, MayChange(lay, job.wipe))
  {
    var d1, imgs, zs := ImagesDisk(lay, sha, job, state, warp, mark, d0), ImageWork(lay, sha, job, state),
      ZeroWork(lay, sha, job);
    var outer, last, at := lay.parts(n), UserdataZeroHead(lay), HeadRegion(lay, job, n).Lo();
    HeadFacts(lay, sha, job, n);
    WorkFacts(lay, sha, job, state);
    WorkReady(lay, sha, zs, true);
    var log1 := mark + Programs(imgs) + Readbacks(d1, imgs);
    SparesPartition(warp, job.wipe, last, at, x, log1, |d1|, zs, outer);
    ZeroesApart(lay, sha, job, n);
    FinishedIs(lay, sha, job, state, warp, mark, d0);
    NothingToReadBack(sha, d1);
    hide Harms, Spares, JobOk, Layout.Valid, ImageWork, AfterPrograms, MayChange, WorkOk, ImagesDisk, FinishedDisk,
         ZeroWork, SameOutside, AllReadBack;
    if job.wipe {
      SparedReadBack(sha, warp, log1, d1, zs, [outer]);
      SpreadMayChange(lay, sha, zs, n, [outer], true, d1, AfterPrograms(warp, log1, d1, zs, |zs|));
      SameOutsideTrans(d0, d1, AfterPrograms(warp, log1, d1, zs, |zs|), MayChange(lay, true));
    }
  }

  lemma FinishedIs(lay: Layout, sha: Hash, job: Job, state: map<PartName, Build>,
                   warp: (seq<Event>, Bytes) -> Bytes, mark: seq<Event>, d0: Bytes)
    requires JobOk(lay, sha, job) && SizeKept(warp) && |d0| == lay.diskBytes
    ensures var d1, imgs, zs := ImagesDisk(lay, sha, job, state, warp, mark, d0), ImageWork(lay, sha, job, state),
                                ZeroWork(lay, sha, job);
      && OrdersFit(imgs, |d1|) && OrdersFit(zs, |d1|)
      && FinishedDisk(lay, sha, job, state, warp, mark, d0)
           == AfterPrograms(warp, mark + Programs(imgs) + Readbacks(d1, imgs), d1, zs, |zs|)
      && (zs == [] ==> FinishedDisk(lay, sha, job, state, warp, mark, d0) == d1)
  {
    hide JobOk, ImagesDisk, ImageWork, ZeroWork, Layout.Valid;
    WorkFacts(lay, sha, job, state);
  }

  /** Nothing a run on this device reads gives the harm away, and at the end it is there. */
  lemma HarmEndures(lay: Layout, sha: Hash, job: Job, state: map<PartName, Build>, n: PartName, x: byte,
                    warp: (seq<Event>, Bytes) -> Bytes, mark: seq<Event>, d0: Bytes)
    requires JobOk(lay, sha, job) && |d0| == lay.diskBytes && Updatable(n) && n in job.images
    requires Harms(warp, job.wipe, UserdataZeroHead(lay), HeadRegion(lay, job, n).Lo(), x)
    requires job.wipe || (n in Unchanged(job, state) && ImageWork(lay, sha, job, state) != [])
    ensures SizeKept(warp) && Endures(lay, sha, job, state, warp, mark, d0)
    ensures 0 <= HeadRegion(lay, job, n).Lo() < lay.diskBytes
    ensures FinishedDisk(lay, sha, job, state, warp, mark, d0)[HeadRegion(lay, job, n).Lo()] == x
  {
    assert lay.Valid();
    hide JobOk, ImageWork, ZeroWork, ImagesDisk, FinishedDisk, Layout.Valid, Harms, HeadRegion, MayChange, SameOutside,
         AfterPrograms, Unchanged;
    ImagesEndure(lay, sha, job, state, n, x, warp, mark, d0);
    ZeroesEndure(lay, sha, job, state, n, x, warp, mark, d0);
    SameAnyway(lay, sha, job.wipe, d0, FinishedDisk(lay, sha, job, state, warp, mark, d0));
    HarmStays(lay, sha, job, state, n, x, warp, mark, d0);
  }

  lemma SameAnyway(lay: Layout, sha: Hash, wipe: bool, d0: Bytes, d: Bytes)
    requires lay.Valid() && |d0| == |d| == lay.diskBytes && SameOutside(d0, d, MayChange(lay, wipe))
    ensures Same(sha, lay, wipe, d0, d)
  {
    hide IsImageWrite, IsZeroWrite, Layout.Valid, Invariants;
    FullImageWritesAllowed(lay);
    ZeroWritesAllowed(lay);
    InvariantsUnchanged(sha, lay, FullImageWrites(lay) + if wipe then ZeroWrites(lay) else [], wipe, d0, d);
  }

  lemma HarmStays(lay: Layout, sha: Hash, job: Job, state: map<PartName, Build>, n: PartName, x: byte,
                  warp: (seq<Event>, Bytes) -> Bytes, mark: seq<Event>, d0: Bytes)
    requires JobOk(lay, sha, job) && |d0| == lay.diskBytes && Updatable(n) && n in job.images && SizeKept(warp)
    requires Harms(warp, job.wipe, UserdataZeroHead(lay), HeadRegion(lay, job, n).Lo(), x)
    requires job.wipe || ImageWork(lay, sha, job, state) != []
    ensures 0 <= HeadRegion(lay, job, n).Lo() < lay.diskBytes
    ensures FinishedDisk(lay, sha, job, state, warp, mark, d0)[HeadRegion(lay, job, n).Lo()] == x
  {
    var d1, imgs, zs := ImagesDisk(lay, sha, job, state, warp, mark, d0), ImageWork(lay, sha, job, state),
      ZeroWork(lay, sha, job);
    HeadFacts(lay, sha, job, n);
    var last, at := UserdataZeroHead(lay), HeadRegion(lay, job, n).Lo();
    WorkFacts(lay, sha, job, state);
    FinishedIs(lay, sha, job, state, warp, mark, d0);
    FirstDisk(lay, sha, job, state, warp, mark, d0);
    assert job.wipe ==> zs[|zs| - 1].region == last;
    hide JobOk, ImageWork, ZeroWork, ImagesDisk, FinishedDisk, Layout.Valid, Harms, HeadRegion, WorkOk;
    if job.wipe {
      Harmed(warp, true, last, at, x, mark + Programs(imgs) + Readbacks(d1, imgs), d1, zs);
    } else {
      Harmed(warp, false, last, at, x, mark, d0, imgs);
    }
  }

  // ---- the run ----

  lemma WelcomeHead(tool: Tool, sha: Hash, job: Job, d: Bytes, n: PartName)
    requires tool.lay.Valid() && |d| == tool.lay.diskBytes && Welcome(tool, sha, job, d) && Updatable(n)
    ensures n in job.images && |job.images[n].content| > 0
  {
    UpdatableIsImageOrder();
    assert n in IMAGE_ORDER && Fits(tool.lay, n, job.images[n].nbytes);
  }

  /** What a run finds tells which partitions it skips. */
  lemma ExposedWork(tool: Tool, sha: Hash, faithful: bool, job: Job, state: map<PartName, Build>, a: Snap, b: Snap,
                    o: Outcome, n: PartName)
    requires tool.lay.Valid() && |a.disk| == |b.disk| == tool.lay.diskBytes
    requires RunEnd(tool, sha, faithful, job, state, true, a, b, o) && Updatable(n) && Exposed(job, n)
    ensures JobOk(tool.lay, sha, job)
    ensures job.wipe || (n in Unchanged(job, state) && ImageWork(tool.lay, sha, job, state) != [])
  {
    hide Recorded, Safe, UpdateCore, Welcome, JobOk, ImageWork, Identified, Layout.Valid;
    if !job.wipe {
      var m :| Updatable(m) && !Skips(job, m);
      var k := WorkFor(tool.lay, sha, job, state, m);
    }
  }

  lemma PassedClaims(tool: Tool, sha: Hash, faithful: bool, job: Job, state: map<PartName, Build>, begun: bool, a: Snap,
                     b: Snap, o: Outcome)
    requires tool.lay.Valid() && |a.disk| == |b.disk| == tool.lay.diskBytes && job.mode.Update?
    requires RunEnd(tool, sha, faithful, job, state, begun, a, b, o) && o.Pass?
    ensures b.report.readbackVerified && b.report.invariantsUnchanged == Some(true)
  {
    hide Recorded, Safe, Welcome, JobOk, StateOf, Ordered, AllReadBack, Same, SameOutside;
  }

  lemma OtherContent(d: Bytes, r: Region, content: Bytes, x: byte)
    requires r.Within(|d|) && |content| > 0 && r.Size() > 0 && d[r.Lo()] == x != content[0]
    ensures Slice(d, r) != content
  {
    assert Slice(d, r)[0] == x;
  }

  /** Runs a right update on a phone whose storage, at the last moment, spoils the
      first byte of an image the run no longer looks at: the run passes, reports
      verified readback and unchanged regions, and the image is not there. */
  method SpoiledUpdate(disk: array<byte>, tool: Tool, job: Job, sha: Hash, n: PartName, hashesOnDevice: bool)
      returns (o: Outcome, report: Report)
    requires tool.lay.Valid() && tool.lay.diskBytes == disk.Length && job.mode.Update?
    requires Welcome(tool, sha, job, disk[..]) && Updatable(n) && Exposed(job, n)
    modifies disk
    ensures o.Pass? && report.readbackVerified && report.invariantsUnchanged == Some(true)
    ensures n in job.images && HeadRegion(tool.lay, job, n).Within(disk.Length)
    ensures Slice(disk[..], HeadRegion(tool.lay, job, n)) != job.images[n].content
  {
    hide Welcome, RunEnd, Layout.Valid, Exposed, JobOk, HeadRegion, Endures, FinishedDisk, Unchanged, ImageWork;
    ghost var lay := tool.lay;
    WelcomeHead(tool, sha, job, disk[..], n);
    var x: byte := if job.images[n].content[0] == 0 then 1 else 0;
    var wipe, last, at := job.wipe, UserdataZeroHead(tool.lay), HeadRegion(tool.lay, job, n).Lo();
    var dev := new Device(disk, sha, (log, d) => Harm(wipe, last, at, x, log, d), 0, (log, b) => b, hashesOnDevice,
                          Unlimited);
    var s := new Session(dev, Unlimited);
    ghost var a := s.Now();
    ghost var state, begun, mark;
    o, state, begun, mark := RunUpdate(s, tool, job);
    report := s.report;
    ExposedWork(tool, sha, s.dev.Faithful(), job, state, a, s.Now(), o, n);
    HeadFacts(lay, sha, job, n);
    HarmEndures(lay, sha, job, state, n, x, dev.warp, mark, a.disk);
    PassedClaims(tool, sha, s.dev.Faithful(), job, state, begun, a, s.Now(), o);
    OtherContent(disk[..], HeadRegion(tool.lay, job, n), job.images[n].content, x);
  }

  /** In every other case a run that passed has the image there, whatever its device
      does to the disk: it was read back last, or nothing was programmed at all. */
  lemma UnexposedHead(tool: Tool, sha: Hash, faithful: bool, job: Job, state: map<PartName, Build>, begun: bool,
                      a: Snap, b: Snap, o: Outcome, warp: (seq<Event>, Bytes) -> Bytes, mark: seq<Event>, n: PartName)
    requires tool.lay.Valid() && |a.disk| == |b.disk| == tool.lay.diskBytes && job.mode.Update? && SizeKept(warp)
    requires RunEnd(tool, sha, faithful, job, state, begun, a, b, o) && o.Pass?
    requires JobOk(tool.lay, sha, job) && b.disk == FinishedDisk(tool.lay, sha, job, state, warp, mark, a.disk)
    requires Updatable(n) && !Exposed(job, n)
    ensures n in job.images && HeadRegion(tool.lay, job, n).Within(|b.disk|)
    ensures NoCollision(sha, Slice(b.disk, HeadRegion(tool.lay, job, n)), job.images[n].content) ==>
      Slice(b.disk, HeadRegion(tool.lay, job, n)) == job.images[n].content
  {
    hide Recorded, Safe, UpdateCore, Welcome, JobOk, ImageWork, ZeroWork, FinishedDisk, Layout.Valid, HeadRegion,
         Identified;
    HeadFacts(tool.lay, sha, job, n);
    assert begun && StateOf(sha, tool.lay, a.disk, job.prev, job.images, state);
    if n !in Unchanged(job, state) {
      PassedHead(tool, sha, faithful, job, state, begun, a, b, o, n);
    } else {
      forall m | Updatable(m) ensures m in Unchanged(job, state) { assert Skips(job, m); }
      NothingProgrammed(tool.lay, sha, job, state, warp, mark, a.disk);
      SkippedHoldsImage(tool.lay, sha, job, state, a.disk, n);
    }
  }

  lemma NothingProgrammed(lay: Layout, sha: Hash, job: Job, state: map<PartName, Build>,
                          warp: (seq<Event>, Bytes) -> Bytes, mark: seq<Event>, d0: Bytes)
    requires JobOk(lay, sha, job) && SizeKept(warp) && |d0| == lay.diskBytes && !job.wipe
    requires forall m :: Updatable(m) ==> m in Unchanged(job, state)
    ensures FinishedDisk(lay, sha, job, state, warp, mark, d0) == d0
  {
    hide JobOk, ImageWork, Layout.Valid, Unchanged;
    if ImageWork(lay, sha, job, state) != [] { WorkOf(lay, sha, job, state, 0); }
    FinishedIs(lay, sha, job, state, warp, mark, d0);
    FirstDisk(lay, sha, job, state, warp, mark, d0);
    NoneAfter(warp, mark, d0, ImageWork(lay, sha, job, state));
  }
}
