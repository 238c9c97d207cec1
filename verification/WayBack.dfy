// Going back from an update. A rollback takes the capture of a snapshot update
// and no other; from a hash-only or wiping one the way back is an update with the
// two kits exchanged and --reflash.

module WayBack {
  import opened Options
  import opened Disk
  import opened Outcomes
  import opened Layout
  import opened UpdateLayout
  import opened Streams
  import opened Devices
  import opened Sessions
  import opened Survey
  import opened Orders
  import opened Phases
  import opened UpdateSurvey
  import opened UpdateEngine
  import opened UpdateRun
  import opened Rollbacks
  import opened UpdateTheorems
  import Compat

  // ---- which captures a rollback takes ----

  /** Only the capture of a snapshot update without a wipe passes a rollback's
      structural checks, and on a faithful device every such capture does. */
  lemma WhichCapturesServe(tool: Tool, sha: Hash, faithful: bool, job: Job, state: map<PartName, Build>, begun: bool,
                           a: Snap, b: Snap, o: Outcome)
    requires tool.lay.Valid() && |a.disk| == |b.disk| == tool.lay.diskBytes
    requires RunEnd(tool, sha, faithful, job, state, begun, a, b, o)
    ensures CheckCapture(tool.lay, b.capture).Pass? ==>
      b.capture.manifest.Some? && job.mode.Update? && job.snapshot && !job.wipe
    ensures faithful && b.capture.manifest.Some? && job.mode.Update? && job.snapshot && !job.wipe ==>
      CheckCapture(tool.lay, b.capture).Pass?
  {
    hide PreCheckOk, UpdateCore, Safe, StateOf, JobOk, Expected, PayloadsOk, Permitted;
    if faithful && b.capture.manifest.Some? && job.mode.Update? && job.snapshot && !job.wipe {
      UpdateLeavesRollback(tool, sha, job, state, begun, a, b, o);
      ReadyIsAccepted(tool.lay, sha, a.disk, b.disk, b.capture);
    }
  }

  /** From what any other run of run_update left, a rollback on any device stops
      having only read. */
  lemma NeverRolledBack(tool: Tool, sha: Hash, faithful: bool, job: Job, state: map<PartName, Build>, begun: bool,
                        a: Snap, b: Snap, o: Outcome,
                        steady: bool, begun2: bool, e: Snap, g: Snap, o2: Outcome)
    requires tool.lay.Valid() && |a.disk| == |b.disk| == |e.disk| == |g.disk| == tool.lay.diskBytes
    requires RunEnd(tool, sha, faithful, job, state, begun, a, b, o)
    requires RollbackEnd(tool.lay, sha, steady, b.capture, begun2, e, g, o2)
    requires job.mode.BackupOnly? || !job.snapshot || job.wipe
    ensures !begun2 && o2.Stopped? && g.disk == e.disk && OnlyReads(e.log, g.log) && NoClaims(g)
  {
    WhichCapturesServe(tool, sha, faithful, job, state, begun, a, b, o);
    hide RunEnd, FilesOk, Classify, RollbackTruthful, CheckCapture;
  }

  // ---- the kits exchanged ----

  /** The update back: the previous kit over the new one, written whatever is there. */
  function Exchanged(job: Job): Job {
    job.(images := job.prev, prev := job.images, prevCompat := job.nextCompat, nextCompat := job.prevCompat,
         reflash := true)
  }

  /** The head of every partition is the image of one of the two kits. */
  ghost predicate EachIsOne(lay: Layout, sha: Hash, job: Job, d: Bytes) {
    forall n :: Updatable(n) ==>
      && n in job.images && n in job.prev && lay.parts(n).Within(|d|)
      && (IsHead(sha, Slice(d, lay.parts(n)), job.images[n]) || IsHead(sha, Slice(d, lay.parts(n)), job.prev[n]))
  }

  /** So the decision to go back is about nothing but the heads. */
  lemma ExchangedExpected(lay: Layout, sha: Hash, job: Job, d: Bytes)
    requires Identifiable(lay, job) && forall n :: Updatable(n) ==> n in job.images
    ensures Expected(lay, sha, Exchanged(job), d) <==> EachIsOne(lay, sha, job, d)
  {
    assert Identifiable(lay, Exchanged(job));
    hide Identifiable;
  }

  /** An allowed update can be taken back exactly if no level rose and, after a
      wipe, the previous build is one a wipe can boot. */
  lemma ExchangedPermitted(job: Job)
    requires Permitted(job)
    ensures Permitted(Exchanged(job)) <==>
      && Compat.SameLevels(job.prevCompat, job.nextCompat)
      && (job.wipe ==> Compat.WipeBootable(job.prevCompat))
  {
    Compat.BackIff(job.prevCompat, job.nextCompat);
    hide Compat.NotOlder, Compat.SameLevels;
  }

  /** The pre-checks read nothing an update may write, wiping or not. */
  lemma PreCheckKept(tool: Tool, sha: Hash, kit: Option<Kit>, wipe: bool, d0: Bytes, d: Bytes)
    requires tool.lay.Valid() && |d0| == tool.lay.diskBytes && SameOutside(d0, d, MayChange(tool.lay, wipe))
    ensures PreCheckOk(tool, sha, kit, d) <==> PreCheckOk(tool, sha, kit, d0)
  {
    hide PreCheckOk, SameOutside, Layout.Valid, IsImageWrite, IsZeroWrite;
    var ws := FullImageWrites(tool.lay) + if wipe then ZeroWrites(tool.lay) else [];
    FullImageWritesAllowed(tool.lay);
    ZeroWritesAllowed(tool.lay);
    PreCheckApart(tool, sha, kit, ws, wipe, d0, d);
  }

  // ---- update, then the kits exchanged ----

  /** A finished update leaves the image of one of the kits at every head. */
  lemma FinishedIsOne(tool: Tool, sha: Hash, job: Job, state: map<PartName, Build>, begun: bool, a: Snap, b: Snap,
                      o: Outcome)
    requires tool.lay.Valid() && |a.disk| == |b.disk| == tool.lay.diskBytes && job.mode.Update?
    requires RunEnd(tool, sha, true, job, state, begun, a, b, o) && o.Pass?
    ensures EachIsOne(tool.lay, sha, job, b.disk)
  {
    hide PreCheckOk, Recorded, Safe, Ordered, JobOk, Welcome, IsHead, Layout.Valid, Holds, StateOf;
    assert begun;
    StateComplete(sha, tool.lay, a.disk, job.prev, job.images, state);
    PartsWithin(tool.lay);
    forall n | Updatable(n)
      ensures n in job.images && n in job.prev && IsHead(sha, Slice(b.disk, tool.lay.parts(n)), job.images[n])
    {
      HeadIsNew(tool.lay, sha, job, state, a.disk, b.disk, n);
    }
  }

  lemma HeadIsNew(lay: Layout, sha: Hash, job: Job, state: map<PartName, Build>, d0: Bytes, d: Bytes, n: PartName)
    requires JobOk(lay, sha, job) && |d0| == |d| == lay.diskBytes && Updatable(n)
    requires StateOf(sha, lay, d0, job.prev, job.images, state)
    requires Holds(d0, d, Patches(ImageWork(lay, sha, job, state) + ZeroWork(lay, sha, job)))
    ensures n in job.images && lay.parts(n).Within(|d|) && IsHead(sha, Slice(d, lay.parts(n)), job.images[n])
  {
    assert lay.Valid();
    HeadFacts(lay, sha, job, n);
    PartsWithin(lay);
    HeadOnDevice(lay, d, n, job.images[n].nbytes);
    HeadOnDevice(lay, d0, n, job.images[n].nbytes);
    hide JobOk, SameOutside, Layout.Valid, ImageWork, ZeroWork, HeadRegion;
    if n in Unchanged(job, state) {
      HoldsOutside(d0, d, ImageWork(lay, sha, job, state) + ZeroWork(lay, sha, job));
      SkippedUntouched(lay, sha, job, state, d0, d, n);
    } else {
      WrittenHead(lay, sha, job, state, d0, d, n);
    }
  }

  /** With --reflash nothing is skipped: a finished update back leaves the previous
      image at every head. */
  lemma BackHeads(tool: Tool, sha: Hash, job: Job, state: map<PartName, Build>, begun: bool, a: Snap, b: Snap,
                  o: Outcome)
    requires tool.lay.Valid() && |a.disk| == |b.disk| == tool.lay.diskBytes && job.mode.Update? && job.reflash
    requires RunEnd(tool, sha, true, job, state, begun, a, b, o) && o.Pass?
    ensures JobOk(tool.lay, sha, job) && HeadsAre(tool.lay, job, b.disk)
    ensures SameOutside(a.disk, b.disk,
      OrderRegions(ImageWork(tool.lay, sha, job, state) + ZeroWork(tool.lay, sha, job)))
  {
    hide PreCheckOk, Recorded, Safe, Ordered, JobOk, Welcome, Layout.Valid, Holds, StateOf;
    assert begun;
    HoldsOutside(a.disk, b.disk, ImageWork(tool.lay, sha, job, state) + ZeroWork(tool.lay, sha, job));
    forall n | Updatable(n)
      ensures n in job.images && HeadRegion(tool.lay, job, n).Within(|b.disk|)
      ensures Slice(b.disk, HeadRegion(tool.lay, job, n)) == job.images[n].content
    {
      WrittenHead(tool.lay, sha, job, state, a.disk, b.disk, n);
    }
  }

  /** Every one of the four heads is the job's image, byte for byte. */
  ghost predicate HeadsAre(lay: Layout, job: Job, d: Bytes) {
    forall n :: Updatable(n) ==>
      && n in job.images && HeadRegion(lay, job, n).Within(|d|)
      && Slice(d, HeadRegion(lay, job, n)) == job.images[n].content
  }

  /** No image of the new kit reaches beyond the previous one. */
  ghost predicate NoLonger(job: Job) {
    forall n :: Updatable(n) ==> n in job.images && n in job.prev && job.images[n].nbytes <= job.prev[n].nbytes
  }

  /** What the update changed the update back covers. */
  lemma BackCovers(lay: Layout, sha: Hash, job: Job, state: map<PartName, Build>, state2: map<PartName, Build>,
                   d0: Bytes,
                   d1: Bytes, d2: Bytes)
    requires JobOk(lay, sha, job) && JobOk(lay, sha, Exchanged(job)) && !job.wipe && NoLonger(job)
    requires |d0| == |d1| == |d2| == lay.diskBytes
    requires HeadsAre(lay, Exchanged(job), d0) && HeadsAre(lay, Exchanged(job), d2)
    requires SameOutside(d0, d1, OrderRegions(ImageWork(lay, sha, job, state) + ZeroWork(lay, sha, job)))
    requires SameOutside(d1, d2,
      OrderRegions(ImageWork(lay, sha, Exchanged(job), state2) + ZeroWork(lay, sha, Exchanged(job))))
    ensures d2 == d0
  {
    hide JobOk, SameOutside, Layout.Valid, ImageWork;
    var there, back := ImageWork(lay, sha, job, state), ImageWork(lay, sha, Exchanged(job), state2);
    var rs, qs := OrderRegions(there), OrderRegions(back);
    assert there + [] == there && back + [] == back;
    forall k | 0 <= k < |rs| ensures InsideOne(rs[k], qs) { HeadCovered(lay, sha, job, state, state2, k); }
    SameOutsideWiden(d0, d1, rs, qs);
    SameOutsideTrans(d0, d1, d2, qs);
    BackSame(lay, sha, job, state2, d0, d2);
  }

  /** The update back over a disk that holds the previous images changes nothing. */
  lemma BackSame(lay: Layout, sha: Hash, job: Job, state: map<PartName, Build>, d0: Bytes, d: Bytes)
    requires JobOk(lay, sha, Exchanged(job)) && !job.wipe && |d0| == |d| == lay.diskBytes
    requires HeadsAre(lay, Exchanged(job), d0) && HeadsAre(lay, Exchanged(job), d)
    requires SameOutside(d0, d,
      OrderRegions(ImageWork(lay, sha, Exchanged(job), state) + ZeroWork(lay, sha, Exchanged(job))))
    ensures d == d0
  {
    hide JobOk, SameOutside, Layout.Valid, ImageWork, HeadRegion;
    var back := ImageWork(lay, sha, Exchanged(job), state);
    var qs := OrderRegions(back);
    assert back + [] == back;
    forall k | 0 <= k < |qs| ensures qs[k].Within(|d0|) && Slice(d, qs[k]) == Slice(d0, qs[k]) {
      WorkOf(lay, sha, Exchanged(job), state, k);
    }
    SameEverywhere(d0, d, qs);
  }

  lemma HeadCovered(lay: Layout, sha: Hash, job: Job, state: map<PartName, Build>, state2: map<PartName, Build>, k: nat)
    requires JobOk(lay, sha, job) && JobOk(lay, sha, Exchanged(job)) && NoLonger(job)
    requires k < |ImageWork(lay, sha, job, state)|
    ensures InsideOne(ImageWork(lay, sha, job, state)[k].region,
      OrderRegions(ImageWork(lay, sha, Exchanged(job), state2)))
  {
    WorkOf(lay, sha, job, state, k);
    var n := ImageWork(lay, sha, job, state)[k].tag.name;
    hide JobOk, ImageWork, Layout.Valid;
    var back := ImageWork(lay, sha, Exchanged(job), state2);
    var m := WorkFor(lay, sha, Exchanged(job), state2, n);
    WorkOf(lay, sha, Exchanged(job), state2, m);
    assert HeadRegion(lay, job, n).Inside(OrderRegions(back)[m]);
  }

  /** What decides the way back once an update wrote its manifest. */
  lemma UpdateLeft(tool: Tool, sha: Hash, job: Job, state: map<PartName, Build>, begun: bool, a: Snap, b: Snap,
                   o: Outcome)
    requires tool.lay.Valid() && |a.disk| == |b.disk| == tool.lay.diskBytes && job.mode.Update?
    requires RunEnd(tool, sha, true, job, state, begun, a, b, o)
    ensures b.capture.manifest.None? ==> b.disk == a.disk
    ensures b.capture.manifest.Some? ==>
      (Welcome(tool, sha, Exchanged(job), b.disk)
       <==> OfflineOk(tool.lay, sha, Exchanged(job)) && EachIsOne(tool.lay, sha, job, b.disk))
  {
    UpdateFrame(tool, sha, job, state, begun, a, b, o);
    PreCheckKept(tool, sha, job.kit, job.wipe, a.disk, b.disk);
    hide PreCheckOk, Recorded, Safe, UpdateCore, StateOf, JobOk, OfflineOk, Layout.Valid, MayChange, EachIsOne,
         Identifiable;
    if b.capture.manifest.Some? { ExchangedExpected(tool.lay, sha, job, b.disk); }
    hide Expected;
  }

  /** A job that is not all right, or a phone not as it expects, leads to no write. */
  lemma UnwelcomeUnwritten(tool: Tool, sha: Hash, job: Job, state: map<PartName, Build>, begun: bool, a: Snap, b: Snap,
                           o: Outcome)
    requires tool.lay.Valid() && |a.disk| == |b.disk| == tool.lay.diskBytes
    requires RunEnd(tool, sha, true, job, state, begun, a, b, o) && !Welcome(tool, sha, job, a.disk)
    ensures b.disk == a.disk
  {
    hide Recorded, Safe, UpdateCore, StateOf, JobOk, Welcome, RehearsalEnd;
  }

  lemma UpdateSpread(tool: Tool, sha: Hash, job: Job, state: map<PartName, Build>, begun: bool, a: Snap, b: Snap,
                     o: Outcome)
    requires tool.lay.Valid() && |a.disk| == |b.disk| == tool.lay.diskBytes && job.mode.Update?
    requires RunEnd(tool, sha, true, job, state, begun, a, b, o) && b.disk != a.disk
    ensures JobOk(tool.lay, sha, job)
    ensures SameOutside(a.disk, b.disk,
      OrderRegions(ImageWork(tool.lay, sha, job, state) + ZeroWork(tool.lay, sha, job)))
  {
    hide Recorded, Safe, StateOf, JobOk, Welcome, RehearsalEnd, SameOutside, Ordered, Truthful;
  }

  /** Runs any update, hash-only or not, wiping or not, that may stop anywhere, and
      then the update back on a working device. Once the first wrote its manifest
      the way back is open exactly if the exchanged job is itself all right and
      every head is the image of one of the kits: a head that a torn transfer left
      is neither and is refused, with nothing written. A finished update leaves
      such heads. Passing puts the previous images back; the whole disk is as it
      was if it held them, nothing was wiped and no new image was longer. */
  method UpdateThenBack(disk: array<byte>, tool: Tool, job: Job, sha: Hash, trouble: Trouble, hashesOnDevice: bool)
      returns (updated: Outcome, captured: bool, ghost d1: Bytes, back: Outcome)
    requires tool.lay.Valid() && tool.lay.diskBytes == disk.Length && trouble.Valid() && job.mode.Update?
    modifies disk
    ensures |d1| == disk.Length && (!captured ==> d1 == old(disk[..]))
    ensures captured ==> (back.Pass? <==> OfflineOk(tool.lay, sha, Exchanged(job)) && EachIsOne(tool.lay, sha, job, d1))
    ensures updated.Pass? ==> captured && EachIsOne(tool.lay, sha, job, d1)
    ensures back.Stopped? ==> disk[..] == d1
    ensures back.Pass? ==> HeadsAre(tool.lay, Exchanged(job), disk[..])
    ensures (&& back.Pass? && captured && !job.wipe && NoLonger(job)
             && HeadsAre(tool.lay, Exchanged(job), old(disk[..]))) ==>
      disk[..] == old(disk[..])
  {
    hide Welcome, RunEnd, Layout.Valid, EachIsOne, HeadsAre, NoLonger, OfflineOk;
    ghost var state, begun, a, b;
    var capture;
    updated, capture, state, begun, a, b := FaithfulRun(disk, tool, job, sha, trouble, hashesOnDevice);
    d1 := disk[..];
    captured := capture.manifest.Some?;
    if updated.Pass? { FinishedIsOne(tool, sha, job, state, begun, a, b, updated); }
    UpdateLeft(tool, sha, job, state, begun, a, b, updated);
    ghost var state2, begun2, e, g;
    var capture2;
    back, capture2, state2, begun2, e, g := FaithfulRun(disk, tool, Exchanged(job), sha, UNTROUBLED, hashesOnDevice);
    if !back.Pass? { UnwelcomeUnwritten(tool, sha, Exchanged(job), state2, begun2, e, g, back); }
    if back.Pass? { BackHeads(tool, sha, Exchanged(job), state2, begun2, e, g, back); }
    if back.Pass? && captured && !job.wipe && NoLonger(job) && HeadsAre(tool.lay, Exchanged(job), a.disk) {
      if b.disk != a.disk {
        UpdateSpread(tool, sha, job, state, begun, a, b, updated);
        BackCovers(tool.lay, sha, job, state, state2, a.disk, b.disk, g.disk);
      } else {
        BackSame(tool.lay, sha, job, state2, a.disk, g.disk);
      }
    }
  }
}
