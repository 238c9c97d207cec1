// run_update from beginning to end, and the theorems over all of its runs.

module UpdateRun {
  import opened Options
  import opened Disk
  import opened Outcomes
  import opened Layout
  import opened UpdateLayout
  import opened Streams
  import opened Devices
  import opened Sessions
  import opened Survey
  import opened Orders
  import opened Phases
  import opened UpdateSurvey
  import opened UpdateEngine

  /** What a report may claim about the disk `d` when it claims it. */
  ghost predicate Truthful(sha: Hash, faithful: bool, same: bool, d: Bytes, imgs: seq<Order>, zs: seq<Order>,
                           r: Report) {
    && (r.readbackVerified ==> AllReadBack(sha, d, zs) && (faithful || zs == [] ==> AllReadBack(sha, d, imgs)))
    && (r.invariantsUnchanged == Some(true) ==> same)
    && (r.power.Some? ==> r.readbackVerified && r.invariantsUnchanged == Some(true))
  }

  /** What holds of a run over the old disk `d0` wherever it stopped, in the
      log from entry `base` on. */
  ghost predicate UpdateCore(lay: Layout, sha: Hash, faithful: bool, same: bool, imgs: seq<Order>, zs: seq<Order>,
                             d0: Bytes, base: nat, b: Snap, o: Outcome)
  {
    && (faithful ==> SameOutside(d0, b.disk, OrderRegions(imgs + zs)))
    && Ordered(b.log, base, sha, imgs, zs)
    && (Powered(b.log, base) ==> same && b.report.readbackVerified && b.report.invariantsUnchanged == Some(true))
    && Truthful(sha, faithful, same, b.disk, imgs, zs, b.report)
    && (b.capture.report.Some? ==> Truthful(sha, faithful, same, b.disk, imgs, zs, b.capture.report.value))
    && (o.Pass? ==> b.report.power.Some? && EndsWithPower(b.log, base))
    && (o.Pass? && faithful ==> Holds(d0, b.disk, Patches(imgs + zs)))
    && (faithful ==> o != Stopped(ReadbackDiffers) && o != Stopped(ProtectedChanged))
  }

  /** How a run that starts writing in snap `a` may end in snap `b`. */
  ghost predicate UpdateEnd(lay: Layout, sha: Hash, faithful: bool, same: bool, imgs: seq<Order>, zs: seq<Order>,
                            a: Snap, b: Snap, o: Outcome)
    requires lay.Valid() && |a.disk| == |b.disk| == lay.diskBytes
  {
    && b.capture.manifest == a.capture.manifest && KeepsFiles(a.capture.files, b.capture.files)
    && |a.log| <= |b.log| && b.log[..|a.log|] == a.log
    && b.report.journal.mode == a.report.journal.mode && b.report.journal.wipeData == a.report.journal.wipeData
    && b.report.plan == a.report.plan
    && (faithful && zs == [] && Safe(lay, sha, a.disk, a) ==> Safe(lay, sha, a.disk, b))
    && UpdateCore(lay, sha, faithful, same, imgs, zs, a.disk, |a.log|, b, o)
  }

  ghost predicate Apart(imgs: seq<Order>, zs: seq<Order>) {
    forall i, k :: 0 <= i < |imgs| && 0 <= k < |zs| ==> !imgs[i].region.Overlaps(zs[k].region)
  }

  lemma ApartRegions(lay: Layout, sha: Hash, imgs: seq<Order>, zs: seq<Order>)
    requires lay.Valid() && WorkOk(lay, sha, imgs, false) && Apart(imgs, zs)
    ensures forall i, k :: 0 <= i < |imgs| && 0 <= k < |zs| ==> imgs[i].region != zs[k].region
  {
    forall i, k | 0 <= i < |imgs| && 0 <= k < |zs| ensures imgs[i].region != zs[k].region {
      assert WriteAllowed(lay, WriteOf(imgs[i]), false) && !imgs[i].region.Overlaps(zs[k].region);
    }
  }

  lemma ConcatRegions(imgs: seq<Order>, zs: seq<Order>)
    ensures OrderRegions(imgs + zs) == OrderRegions(imgs) + OrderRegions(zs)
    ensures Patches(imgs + zs) == Patches(imgs) + Patches(zs)
  {
  }

  lemma SameOutsideJoin(d0: Bytes, d1: Bytes, d2: Bytes, rs: seq<Region>, qs: seq<Region>)
    requires SameOutside(d0, d1, rs) && SameOutside(d1, d2, qs)
    ensures SameOutside(d0, d2, rs + qs)
  {
    forall i | 0 <= i < |d2| && forall k :: 0 <= k < |rs + qs| ==> !(rs + qs)[k].Covers(i) ensures d2[i] == d0[i] {
      forall k | 0 <= k < |rs| ensures !rs[k].Covers(i) { assert (rs + qs)[k] == rs[k]; }
      forall k | 0 <= k < |qs| ensures !qs[k].Covers(i) { assert (rs + qs)[|rs| + k] == qs[k]; }
    }
  }

  lemma HoldsJoin(d0: Bytes, d1: Bytes, d2: Bytes, ps: seq<Patch>, qs: seq<Patch>)
    requires Holds(d0, d1, ps) && Holds(d1, d2, qs)
    requires forall i, k :: 0 <= i < |ps| && 0 <= k < |qs| ==> !ps[i].region.Overlaps(qs[k].region)
    ensures Holds(d0, d2, ps + qs)
  {
    assert Regions(ps + qs) == Regions(ps) + Regions(qs);
    SameOutsideJoin(d0, d1, d2, Regions(ps), Regions(qs));
    forall i | 0 <= i < |ps| ensures Slice(d2, ps[i].region) == ps[i].payload {
      assert forall k :: 0 <= k < |qs| ==> Regions(qs)[k] == qs[k].region && !qs[k].region.Overlaps(ps[i].region);
      SliceUntouched(d1, d2, Regions(qs), ps[i].region);
    }
    assert forall k :: 0 <= k < |ps + qs| ==> (ps + qs)[k] == if k < |ps| then ps[k] else qs[k - |ps|];
  }

  lemma ReadBackUntouched(sha: Hash, d1: Bytes, d2: Bytes, imgs: seq<Order>, zs: seq<Order>)
    requires AllReadBack(sha, d1, imgs) && SameOutside(d1, d2, OrderRegions(zs)) && Apart(imgs, zs)
    ensures AllReadBack(sha, d2, imgs)
  {
    forall i | 0 <= i < |imgs|
      ensures imgs[i].region.Within(|d2|) && sha(Slice(d2, imgs[i].region)) == imgs[i].expected {
      assert forall k :: 0 <= k < |zs| ==>
        OrderRegions(zs)[k] == zs[k].region && !zs[k].region.Overlaps(imgs[i].region);
      SliceUntouched(d1, d2, OrderRegions(zs), imgs[i].region);
    }
  }

  // ---- the three ways a run ends ----

  lemma EndInImages(lay: Layout, sha: Hash, faithful: bool, same: bool, imgs: seq<Order>, zs: seq<Order>, a: Snap,
                    c: Snap, o: Outcome)
    requires lay.Valid() && |a.disk| == |c.disk| == lay.diskBytes && NoClaims(a) && o.Stopped?
    requires WorkOk(lay, sha, imgs, false) && AllImages(lay, imgs) && Apart(imgs, zs)
    requires PhaseEnd(lay, sha, faithful, a.disk, imgs, a, c, o)
    ensures UpdateEnd(lay, sha, faithful, same, imgs, zs, a, c, o)
  {
    ApartRegions(lay, sha, imgs, zs);
    OrderedEarly(a.log, c.log, sha, imgs, zs);
    OnlyTheseUnpowered(a.log, c.log, imgs);
    ConcatRegions(imgs, zs);
    SameOutsideRefl(c.disk, OrderRegions(zs));
    hide Ordered, Safe, SameOutside, WorkOk, AllImages, Apart;
    if faithful { SameOutsideJoin(a.disk, c.disk, c.disk, OrderRegions(imgs), OrderRegions(zs)); }
  }

  lemma EndInZeros(lay: Layout, sha: Hash, faithful: bool, same: bool, imgs: seq<Order>, zs: seq<Order>, a: Snap,
                   c: Snap, e: Snap, o: Outcome)
    requires lay.Valid() && |a.disk| == |c.disk| == |e.disk| == lay.diskBytes && NoClaims(a) && o.Stopped? && zs != []
    requires WorkOk(lay, sha, imgs, false) && AllImages(lay, imgs) && WorkOk(lay, sha, zs, true) && Apart(imgs, zs)
    requires PhaseEnd(lay, sha, faithful, a.disk, imgs, a, c, Pass)
    requires PhaseEnd(lay, sha, faithful, a.disk, zs, c, e, o)
    ensures UpdateEnd(lay, sha, faithful, same, imgs, zs, a, e, o)
  {
    ApartRegions(lay, sha, imgs, zs);
    OrderedMiddle(a.log, c.disk, imgs, zs, sha, c.log, e.log);
    OnlyTheseUnpowered(c.log, e.log, zs);
    PhaseOnlyThese(a.log, c.disk, imgs, c.log);
    OnlyTheseUnpowered(a.log, c.log, imgs);
    StillUnpowered(a.log, c.log, e.log);
    ConcatRegions(imgs, zs);
    SameRunTrans(a, c, e);
    hide Ordered, Safe, SameOutside, AllImages, Apart;
    if faithful { SameOutsideJoin(a.disk, c.disk, e.disk, OrderRegions(imgs), OrderRegions(zs)); }
  }

  /** What is on the disk once both phases have passed. */
  ghost predicate BothDone(lay: Layout, sha: Hash, faithful: bool, imgs: seq<Order>, zs: seq<Order>, a: Snap, e: Snap)
    requires lay.Valid() && |a.disk| == |e.disk| == lay.diskBytes
  {
    && SameRun(a, e)
    && (exists mid, d: Bytes :: AllReadBack(sha, d, imgs) && mid == a.log + Programs(imgs) + Readbacks(d, imgs)
          && AllReadBack(sha, e.disk, zs) && e.log == mid + Programs(zs) + Readbacks(e.disk, zs))
    && AllReadBack(sha, e.disk, zs) && (faithful || zs == [] ==> AllReadBack(sha, e.disk, imgs))
    && (faithful ==> Holds(a.disk, e.disk, Patches(imgs + zs)))
    && (faithful && zs == [] && Safe(lay, sha, a.disk, a) ==> Safe(lay, sha, a.disk, e))
  }

  lemma BothPhasesDone(lay: Layout, sha: Hash, faithful: bool, imgs: seq<Order>, zs: seq<Order>, a: Snap, c: Snap,
                       e: Snap)
    requires lay.Valid() && |a.disk| == |c.disk| == |e.disk| == lay.diskBytes
    requires WorkOk(lay, sha, imgs, false) && AllImages(lay, imgs) && WorkOk(lay, sha, zs, true) && Apart(imgs, zs)
    requires PhaseEnd(lay, sha, faithful, a.disk, imgs, a, c, Pass)
    requires if zs == [] then e == c else PhaseEnd(lay, sha, faithful, a.disk, zs, c, e, Pass)
    ensures BothDone(lay, sha, faithful, imgs, zs, a, e)
  {
    hide Safe;
    ConcatRegions(imgs, zs);
    if zs == [] {
      assert imgs + zs == imgs;
      assert e.log == c.log + Programs(zs) + Readbacks(e.disk, zs);
    } else {
      SameRunTrans(a, c, e);
      if faithful {
        ReadBackUntouched(sha, c.disk, e.disk, imgs, zs);
        assert forall i, k :: 0 <= i < |Patches(imgs)| && 0 <= k < |Patches(zs)| ==>
          !Patches(imgs)[i].region.Overlaps(Patches(zs)[k].region);
        HoldsJoin(a.disk, c.disk, e.disk, Patches(imgs), Patches(zs));
      }
    }
    assert AllReadBack(sha, c.disk, imgs) && c.log == a.log + Programs(imgs) + Readbacks(c.disk, imgs);
  }

  lemma EndOrdered(lay: Layout, sha: Hash, faithful: bool, same: bool, imgs: seq<Order>, zs: seq<Order>, a: Snap,
                   e: Snap, g: Snap, o: Outcome)
    requires lay.Valid() && |a.disk| == |e.disk| == lay.diskBytes
    requires WorkOk(lay, sha, imgs, false) && Apart(imgs, zs)
    requires BothDone(lay, sha, faithful, imgs, zs, a, e) && Closed(same, e, g, o)
    ensures |a.log| <= |g.log| && g.log[..|a.log|] == a.log && Ordered(g.log, |a.log|, sha, imgs, zs)
    ensures Powered(g.log, |a.log|) ==> same && g.report.invariantsUnchanged == Some(true)
  {
    hide Safe, Holds, SameRun, Claimed;
    var mid, d: Bytes :| AllReadBack(sha, d, imgs) && mid == a.log + Programs(imgs) + Readbacks(d, imgs)
      && AllReadBack(sha, e.disk, zs) && e.log == mid + Programs(zs) + Readbacks(e.disk, zs);
    ApartRegions(lay, sha, imgs, zs);
    hide WorkOk, Apart;
    PhaseOnlyThese(a.log, d, imgs, mid);
    OnlyTheseUnpowered(a.log, mid, imgs);
    PhaseOnlyThese(mid, e.disk, zs, e.log);
    OnlyTheseUnpowered(mid, e.log, zs);
    StillUnpowered(a.log, mid, e.log);
    PoweredAtEnd(same, a.log, e, g, o);
    hide AllReadBack, Powered;
    OrderedEnd(a.log, d, e.disk, imgs, zs, sha, mid, e.log, g.log);
  }

  lemma PoweredAtEnd(same: bool, log0: seq<Event>, e: Snap, g: Snap, o: Outcome)
    requires Closed(same, e, g, o) && |log0| <= |e.log| && !Powered(e.log, |log0|)
    ensures Powered(g.log, |log0|) ==> same && g.report.invariantsUnchanged == Some(true)
  {
    if OnlyReads(e.log, g.log) { StillUnpowered(log0, e.log, g.log); }
  }

  lemma EndClosed(lay: Layout, sha: Hash, faithful: bool, same: bool, imgs: seq<Order>, zs: seq<Order>, a: Snap,
                  e: Snap, g: Snap, o: Outcome)
    requires lay.Valid() && |a.disk| == |e.disk| == |g.disk| == lay.diskBytes && NoClaims(a)
    requires WorkOk(lay, sha, imgs, false) && Apart(imgs, zs)
    requires BothDone(lay, sha, faithful, imgs, zs, a, e) && Closed(same, e, g, o)
    requires faithful ==> same
    ensures UpdateEnd(lay, sha, faithful, same, imgs, zs, a, g, o)
  {
    EndOrdered(lay, sha, faithful, same, imgs, zs, a, e, g, o);
    ConcatRegions(imgs, zs);
    if Safe(lay, sha, a.disk, e) { ClosedSafe(lay, sha, same, a.disk, e, g, o); }
    hide Ordered, Safe, AllReadBack, Apart, WorkOk, OnlyReads, Powered;
    assert faithful ==> Regions(Patches(imgs + zs)) == OrderRegions(imgs + zs);
  }

  lemma ClosedSafe(lay: Layout, sha: Hash, same: bool, d0: Bytes, e: Snap, g: Snap, o: Outcome)
    requires lay.Valid() && |e.disk| == |d0| == lay.diskBytes
    requires Safe(lay, sha, d0, e) && Closed(same, e, g, o)
    ensures Safe(lay, sha, d0, g)
  {
  }

  // ---- execution ----

  ghost predicate Same(sha: Hash, lay: Layout, wipe: bool, d0: Bytes, d: Bytes)
    requires lay.Valid() && |d0| == |d| == lay.diskBytes
  {
    Invariants(sha, lay, d, wipe) == Invariants(sha, lay, d0, wipe)
  }

  /** Disjoint, allowed work on a faithful device never changes what is compared. */
  lemma FaithfulSame(lay: Layout, sha: Hash, wipe: bool, imgs: seq<Order>, zs: seq<Order>, d0: Bytes, d: Bytes)
    requires lay.Valid() && |d0| == |d| == lay.diskBytes
    requires WorkOk(lay, sha, imgs, false) && WorkOk(lay, sha, zs, true) && (zs == [] || wipe)
    requires SameOutside(d0, d, OrderRegions(imgs + zs))
    ensures Same(sha, lay, wipe, d0, d)
  {
    var orders := imgs + zs;
    var ws := seq(|orders|, k requires 0 <= k < |orders| => WriteOf(orders[k]));
    assert WriteRegions(ws) == OrderRegions(orders);
    forall k | 0 <= k < |ws| ensures WriteAllowed(lay, ws[k], wipe) {
      if k < |imgs| { assert WriteAllowed(lay, WriteOf(imgs[k]), false); }
      else { assert WriteAllowed(lay, WriteOf(zs[k - |imgs|]), true); }
    }
    InvariantsUnchanged(sha, lay, ws, wipe, d0, d);
  }

  lemma HoldsOutside(d0: Bytes, d: Bytes, orders: seq<Order>)
    requires Holds(d0, d, Patches(orders))
    ensures SameOutside(d0, d, OrderRegions(orders))
  {
    hide SameOutside;
    assert Regions(Patches(orders)) == OrderRegions(orders);
  }

  lemma FaithfulAtClose(lay: Layout, sha: Hash, faithful: bool, wipe: bool, imgs: seq<Order>, zs: seq<Order>, a: Snap,
                        e: Snap)
    requires lay.Valid() && |a.disk| == |e.disk| == lay.diskBytes
    requires WorkOk(lay, sha, imgs, false) && WorkOk(lay, sha, zs, true) && (zs == [] || wipe)
    requires BothDone(lay, sha, faithful, imgs, zs, a, e)
    ensures faithful ==> Same(sha, lay, wipe, a.disk, e.disk)
  {
    hide WorkOk, Same, SameOutside, Layout.Valid, AllReadBack, Safe, SameRun, Holds;
    if faithful {
      HoldsOutside(a.disk, e.disk, imgs + zs);
      FaithfulSame(lay, sha, wipe, imgs, zs, a.disk, e.disk);
    }
  }

  /** The disk a run that began with log `mark` leaves once everything is
      programmed, whatever its device does to the disk at each program. */
  ghost function FinishedDisk(lay: Layout, sha: Hash, job: Job, state: map<PartName, Build>,
                              warp: (seq<Event>, Bytes) -> Bytes, mark: seq<Event>, d0: Bytes): (d: Bytes)
    requires JobOk(lay, sha, job) && SizeKept(warp) && |d0| == lay.diskBytes
    ensures |d| == |d0|
  {
    var d1 := ImagesDisk(lay, sha, job, state, warp, mark, d0);
    var imgs, zs := ImageWork(lay, sha, job, state), ZeroWork(lay, sha, job);
    WorkFacts(lay, sha, job, state);
    AfterPrograms(warp, mark + Programs(imgs) + Readbacks(d1, imgs), d1, zs, |zs|)
  }

  /** The disk between the two phases: what the images are read back from. */
  ghost function ImagesDisk(lay: Layout, sha: Hash, job: Job, state: map<PartName, Build>,
                            warp: (seq<Event>, Bytes) -> Bytes, mark: seq<Event>, d0: Bytes): (d: Bytes)
    requires JobOk(lay, sha, job) && SizeKept(warp) && |d0| == lay.diskBytes
    ensures |d| == |d0|
  {
    var imgs := ImageWork(lay, sha, job, state);
    WorkFacts(lay, sha, job, state);
    AfterPrograms(warp, mark, d0, imgs, |imgs|)
  }

  /** The device's disturbances stay unnoticed: each phase reads back what it
      wrote, and the protected regions are as before. */
  ghost predicate Endures(lay: Layout, sha: Hash, job: Job, state: map<PartName, Build>,
                          warp: (seq<Event>, Bytes) -> Bytes, mark: seq<Event>, d0: Bytes)
    requires JobOk(lay, sha, job) && SizeKept(warp) && |d0| == lay.diskBytes
  {
    && AllReadBack(sha, ImagesDisk(lay, sha, job, state, warp, mark, d0), ImageWork(lay, sha, job, state))
    && AllReadBack(sha, FinishedDisk(lay, sha, job, state, warp, mark, d0), ZeroWork(lay, sha, job))
    && Same(sha, lay, job.wipe, d0, FinishedDisk(lay, sha, job, state, warp, mark, d0))
  }

  /** Writes and verifies the images that change, then zeroes the heads when
      wiping. Nothing was written before. */
  method WritePhases(s: Session, tool: Tool, job: Job, writes: seq<Write>, state: map<PartName, Build>)
      returns (o: Outcome)
    requires Ready(s, tool) && JobOk(tool.lay, s.dev.sha, job) && writes == PlannedWrites(tool.lay, job)
    requires NoClaims(s.Now())
    modifies s, s.dev, s.dev.disk
    ensures var imgs, zs := ImageWork(tool.lay, s.dev.sha, job, state), ZeroWork(tool.lay, s.dev.sha, job);
      && (o.Stopped? ==> forall same: bool ::
            UpdateEnd(tool.lay, s.dev.sha, s.dev.Faithful(), same, imgs, zs, old(s.Now()), s.Now(), o))
      && (o.Pass? ==> BothDone(tool.lay, s.dev.sha, s.dev.Faithful(), imgs, zs, old(s.Now()), s.Now()))
      && (o.Pass? ==> s.dev.disk[..] == FinishedDisk(tool.lay, s.dev.sha, job, state, s.dev.warp, old(s.dev.log),
                                                     old(s.dev.disk[..]))
                      && AllReadBack(s.dev.sha, ImagesDisk(tool.lay, s.dev.sha, job, state, s.dev.warp,
                                                           old(s.dev.log), old(s.dev.disk[..])), imgs)
                      && AllReadBack(s.dev.sha, s.dev.disk[..], zs))
    ensures o.Pass? ==> s.capture.files == old(s.capture.files)
    ensures |old(s.dev.log)| <= |s.dev.log| && s.dev.log[..|old(s.dev.log)|] == old(s.dev.log)
    ensures forall p :: PowerIs(s.dev.log, |old(s.dev.log)|, p)
    ensures old(s.Tireless()) ==> s.Tireless()
    ensures (&& old(s.Tireless()) && AllPlain(old(s.capture.files))
             && (s.dev.Faithful()
                 || Endures(tool.lay, s.dev.sha, job, state, s.dev.warp, old(s.dev.log), old(s.dev.disk[..])))) ==>
      o.Pass?
  {
    hide UpdateEnd, PhaseEnd, WorkOk, AllImages, Apart, NoClaims, JobOk, Invariants, BothDone, IsZeroWrite,
         AllPlain, DigestsRight, GuardAccepts, Session.Tireless, Device.Faithful, ImageWork, ZeroWork, AfterPrograms,
         AllReadBack, Endures, ImagesDisk, FinishedDisk, Layout.Valid, Programs, Readbacks, Keep, PlannedWrites,
         Powered, PowerIs;
    ghost var lay, sha, faithful := tool.lay, s.dev.sha, s.dev.Faithful();
    ghost var a := s.Now();
    ghost var imgs, zs := ImageWork(lay, sha, job, state), ZeroWork(lay, sha, job);
    WorkFacts(lay, sha, job, state);
    WorkReady(lay, sha, imgs, false);
    WorkReady(lay, sha, zs, true);
    WorkLists(lay, sha, job, state);
    FirstDisk(lay, sha, job, state, s.dev.warp, a.log, a.disk);
    if AllPlain(a.capture.files) { PlainNames(a.capture.files); }
    var orders := ImageOrders(Keep(writes, Unchanged(job, state)), job.images);
    o := WriteAndReadBack(s, tool.lay, orders, Guarded(false), a.disk);
    ghost var c := s.Now();
    forall p ensures PowerIs(c.log, |a.log|, p) { UnpoweredIs(c.log, |a.log|, p); }
    PhaseFiles(lay, sha, faithful, a.disk, imgs, a, c, o);
    if o.Stopped? {
      forall same: bool ensures UpdateEnd(lay, sha, faithful, same, imgs, zs, a, c, o) {
        EndInImages(lay, sha, faithful, same, imgs, zs, a, c, o);
      }
      return;
    }
    SecondDisk(lay, sha, job, state, s.dev.warp, a, c);
    if job.wipe {
      var zeros := ZeroOrders(tool.lay, s.dev.sha);
      o := WriteAndReadBack(s, tool.lay, zeros, Guarded(true), a.disk);
      ghost var e := s.Now();
      forall p ensures PowerIs(e.log, |a.log|, p) {
        UnpoweredIs(e.log, |c.log|, p);
        LaterPowerIs(a.log, c.log, e.log, p);
      }
      PhaseFiles(lay, sha, faithful, a.disk, zs, c, e, o);
      if o.Stopped? {
        forall same: bool ensures UpdateEnd(lay, sha, faithful, same, imgs, zs, a, e, o) {
          EndInZeros(lay, sha, faithful, same, imgs, zs, a, c, e, o);
        }
        return;
      }
    }
    NothingToReadBack(sha, c.disk);
    BothPhasesDone(lay, sha, faithful, imgs, zs, a, c, s.Now());
  }

  lemma NothingToReadBack(sha: Hash, d: Bytes)
    ensures AllReadBack(sha, d, [])
  {
  }

  /** Writes, verifies and closes. */
  method Execute(s: Session, tool: Tool, job: Job, writes: seq<Write>, inv: seq<Reading>, state: map<PartName, Build>)
      returns (o: Outcome)
    requires Ready(s, tool) && JobOk(tool.lay, s.dev.sha, job) && writes == PlannedWrites(tool.lay, job)
    requires NoClaims(s.Now()) && inv == Invariants(s.dev.sha, tool.lay, s.dev.disk[..], job.wipe)
    modifies s, s.dev, s.dev.disk
    ensures UpdateEnd(tool.lay, s.dev.sha, s.dev.Faithful(),
                      Same(s.dev.sha, tool.lay, job.wipe, old(s.dev.disk[..]), s.dev.disk[..]),
                      ImageWork(tool.lay, s.dev.sha, job, state), ZeroWork(tool.lay, s.dev.sha, job),
                      old(s.Now()), s.Now(), o)
    ensures |old(s.dev.log)| <= |s.dev.log| && s.dev.log[..|old(s.dev.log)|] == old(s.dev.log)
    ensures PowerIs(s.dev.log, |old(s.dev.log)|, job.powerAfter.GetOr(Off))
    ensures o.Pass? ==> s.report.power == Some(job.powerAfter.GetOr(Off))
    ensures o.Pass? ==>
      && Endures(tool.lay, s.dev.sha, job, state, s.dev.warp, old(s.dev.log), old(s.dev.disk[..]))
      && s.dev.disk[..]
        == FinishedDisk(tool.lay, s.dev.sha, job, state, s.dev.warp, old(s.dev.log), old(s.dev.disk[..]))
    ensures (&& old(s.Tireless()) && AllPlain(old(s.capture.files))
             && (s.dev.Faithful()
                 || Endures(tool.lay, s.dev.sha, job, state, s.dev.warp, old(s.dev.log), old(s.dev.disk[..])))) ==>
      o.Pass?
  {
    hide UpdateEnd, WorkOk, AllImages, Apart, NoClaims, JobOk, Invariants, Closed, BothDone, AllPlain,
         Session.Tireless, Device.Faithful, ImageWork, ZeroWork, AllReadBack, Endures, ImagesDisk, FinishedDisk,
         Layout.Valid, PowerIs;
    ghost var lay, sha, faithful := tool.lay, s.dev.sha, s.dev.Faithful();
    ghost var a := s.Now();
    ghost var imgs, zs := ImageWork(lay, sha, job, state), ZeroWork(lay, sha, job);
    WorkFacts(lay, sha, job, state);
    if AllPlain(a.capture.files) { PlainNames(a.capture.files); }
    o := WritePhases(s, tool, job, writes, state);
    ghost var e := s.Now();
    if o.Stopped? { return; }
    ghost var d1 := ImagesDisk(lay, sha, job, state, s.dev.warp, a.log, a.disk);
    EnduresIff(lay, sha, job, state, s.dev.warp, a.log, a.disk, d1, e.disk);
    FaithfulAtClose(lay, sha, faithful, job.wipe, imgs, zs, a, e);
    DoneNoClaims(lay, sha, faithful, imgs, zs, a, e);
    o := Close(s, tool, job.wipe, inv, job.powerAfter.GetOr(Off), AfterRun);
    LaterPowerIs(a.log, e.log, s.dev.log, job.powerAfter.GetOr(Off));
    ClosedDisk(Same(sha, lay, job.wipe, a.disk, e.disk), e, s.Now(), o);
    EndClosed(lay, sha, faithful, Same(sha, lay, job.wipe, a.disk, e.disk), imgs, zs, a, e, s.Now(), o);
  }

  /** Only regions as first read; readbacks and hashes of protected regions come later. */
  ghost predicate AllPlain(files: map<FileName, Bytes>) { forall f :: f in files ==> f.suffix.Plain? }

  lemma AllPlainNow(files: map<FileName, Bytes>)
    requires forall f :: f in files ==> f.suffix.Plain?
    ensures AllPlain(files)
  {
  }

  lemma PlainNames(files: map<FileName, Bytes>)
    requires AllPlain(files)
    ensures forall f :: f in files ==> f.suffix != Readback
    ensures forall t :: FileName(Invariant(t), AfterRun) !in files
  {
  }

  lemma WorkReady(lay: Layout, sha: Hash, orders: seq<Order>, wipe: bool)
    requires lay.Valid() && WorkOk(lay, sha, orders, wipe)
    ensures DigestsRight(sha, orders) && forall k :: 0 <= k < |orders| ==> GuardAccepts(lay, Guarded(wipe), orders[k])
  {
  }

  lemma PhaseFiles(lay: Layout, sha: Hash, faithful: bool, d0: Bytes, orders: seq<Order>, a: Snap, b: Snap, o: Outcome)
    requires lay.Valid() && |a.disk| == |b.disk| == |d0| == lay.diskBytes && OrdersFit(orders, |d0|)
    requires PhaseEnd(lay, sha, faithful, d0, orders, a, b, o)
    ensures o.Pass? ==> b.capture.files == a.capture.files && AllReadBack(sha, b.disk, orders)
                        && b.log == a.log + Programs(orders) + Readbacks(b.disk, orders)
  {
  }

  /** The orders the loops compute are the run's work. */
  lemma WorkLists(lay: Layout, sha: Hash, job: Job, state: map<PartName, Build>)
    requires JobOk(lay, sha, job)
    ensures forall w :: w in Keep(PlannedWrites(lay, job), Unchanged(job, state)) ==> HasImage(job.images, w)
    ensures (forall k :: 0 <= k < |Keep(PlannedWrites(lay, job), Unchanged(job, state))| ==>
               HasImage(job.images, Keep(PlannedWrites(lay, job), Unchanged(job, state))[k]))
    ensures ImageOrders(Keep(PlannedWrites(lay, job), Unchanged(job, state)), job.images)
         == ImageWork(lay, sha, job, state)
    ensures lay.metadataHeadZero >= 0 && lay.userdataHeadZero >= 0
    ensures ZeroWork(lay, sha, job) == if job.wipe then ZeroOrders(lay, sha) else []
  {
    PlannedHaveImages(lay, sha, job, state);
  }

  lemma FirstDisk(lay: Layout, sha: Hash, job: Job, state: map<PartName, Build>,
                  warp: (seq<Event>, Bytes) -> Bytes, mark: seq<Event>, d0: Bytes)
    requires JobOk(lay, sha, job) && SizeKept(warp) && |d0| == lay.diskBytes
    ensures var imgs := ImageWork(lay, sha, job, state);
      && OrdersFit(imgs, |d0|)
      && ImagesDisk(lay, sha, job, state, warp, mark, d0) == AfterPrograms(warp, mark, d0, imgs, |imgs|)
      && (Endures(lay, sha, job, state, warp, mark, d0) ==>
            AllReadBack(sha, AfterPrograms(warp, mark, d0, imgs, |imgs|), imgs))
  {
    hide JobOk, ImageWork, ZeroWork, AfterPrograms, AllReadBack, Same, Layout.Valid, WorkOk;
    WorkFacts(lay, sha, job, state);
  }

  lemma SecondDisk(lay: Layout, sha: Hash, job: Job, state: map<PartName, Build>,
                   warp: (seq<Event>, Bytes) -> Bytes, a: Snap, c: Snap)
    requires JobOk(lay, sha, job) && SizeKept(warp) && |a.disk| == lay.diskBytes
    requires var imgs := ImageWork(lay, sha, job, state);
      && c.disk == ImagesDisk(lay, sha, job, state, warp, a.log, a.disk) && OrdersWithin(imgs, |c.disk|)
      && c.log == a.log + Programs(imgs) + Readbacks(c.disk, imgs)
    ensures var zs := ZeroWork(lay, sha, job);
      && OrdersFit(zs, |c.disk|)
      && FinishedDisk(lay, sha, job, state, warp, a.log, a.disk) == AfterPrograms(warp, c.log, c.disk, zs, |zs|)
      && (!job.wipe ==> FinishedDisk(lay, sha, job, state, warp, a.log, a.disk) == c.disk)
      && (Endures(lay, sha, job, state, warp, a.log, a.disk) ==>
            AllReadBack(sha, AfterPrograms(warp, c.log, c.disk, zs, |zs|), zs))
  {
    hide JobOk, ImageWork, AllReadBack, Same, Layout.Valid, WorkOk, ImagesDisk;
    WorkFacts(lay, sha, job, state);
  }

  lemma EnduresIff(lay: Layout, sha: Hash, job: Job, state: map<PartName, Build>,
                   warp: (seq<Event>, Bytes) -> Bytes, mark: seq<Event>, d0: Bytes, d1: Bytes, d2: Bytes)
    requires JobOk(lay, sha, job) && SizeKept(warp) && |d0| == lay.diskBytes
    requires d1 == ImagesDisk(lay, sha, job, state, warp, mark, d0)
    requires d2 == FinishedDisk(lay, sha, job, state, warp, mark, d0)
    requires AllReadBack(sha, d1, ImageWork(lay, sha, job, state)) && AllReadBack(sha, d2, ZeroWork(lay, sha, job))
    ensures lay.Valid() && (Endures(lay, sha, job, state, warp, mark, d0) <==> Same(sha, lay, job.wipe, d0, d2))
  {
    hide ImageWork, ZeroWork, AllReadBack, Same, ImagesDisk, FinishedDisk;
  }

  lemma WorkFacts(lay: Layout, sha: Hash, job: Job, state: map<PartName, Build>)
    requires JobOk(lay, sha, job)
    ensures var imgs, zs := ImageWork(lay, sha, job, state), ZeroWork(lay, sha, job);
            && WorkOk(lay, sha, imgs, false) && AllImages(lay, imgs) && WorkOk(lay, sha, zs, true) && Apart(imgs, zs)
            && OrdersFit(imgs, lay.diskBytes) && TagsDiffer(imgs) && PairwiseDisjoint(OrderRegions(imgs))
            && OrdersFit(zs, lay.diskBytes) && TagsDiffer(zs) && PairwiseDisjoint(OrderRegions(zs))
            && (zs == [] <==> !job.wipe)
  {
    ImageWorkOk(lay, sha, job, state);
    ZeroWorkOk(lay, sha, job);
    WorkApart(lay, sha, ImageWork(lay, sha, job, state), ZeroWork(lay, sha, job));
  }

  lemma DoneNoClaims(lay: Layout, sha: Hash, faithful: bool, imgs: seq<Order>, zs: seq<Order>, a: Snap, e: Snap)
    requires lay.Valid() && |a.disk| == |e.disk| == lay.diskBytes
    requires BothDone(lay, sha, faithful, imgs, zs, a, e) && NoClaims(a)
    ensures NoClaims(e) && e.report.invariantsUnchanged.None? && e.report.power.None?
  {
  }

  lemma ClosedDisk(same: bool, e: Snap, g: Snap, o: Outcome)
    requires Closed(same, e, g, o)
    ensures g.disk == e.disk && (o.Pass? ==> same)
  {
  }

  // ---- the whole run ----

  ghost predicate NoPrograms(log0: seq<Event>, log: seq<Event>) {
    && |log0| <= |log| && log[..|log0|] == log0
    && forall i :: |log0| <= i < |log| ==> log[i].Read? || (log[i].Power? && i == |log| - 1)
  }

  /** What a rehearsal's report may claim: never a readback, power only after
      the comparison, and never that a read-only session changed anything. */
  ghost predicate RehearsalClaims(r: Report) {
    && !r.readbackVerified && r.invariantsUnchanged != Some(false)
    && (r.power.Some? ==> r.invariantsUnchanged == Some(true))
  }

  /** The saved report says how the run was called. */
  ghost predicate ModeSaved(s: Snap) {
    s.capture.report.Some? && s.capture.report.value.journal.mode == s.report.journal.mode
  }

  /** How a rehearsal that passed every check may end. */
  ghost predicate Rehearsed(a: Snap, b: Snap, o: Outcome) {
    && b.disk == a.disk && NoPrograms(a.log, b.log)
    && b.capture.manifest == a.capture.manifest && KeepsFiles(a.capture.files, b.capture.files)
    && b.report.journal == a.report.journal && (ModeSaved(a) ==> ModeSaved(b))
    && RehearsalClaims(b.report)
    && (b.capture.report.Some? ==> RehearsalClaims(b.capture.report.value))
    && (Powered(b.log, |a.log|) ==> b.report.invariantsUnchanged == Some(true))
    && (o.Pass? ==> && b.report.invariantsUnchanged == Some(true) && b.report.power.Some?
                    && EndsWithPower(b.log, |a.log|))
    && |a.log| <= |b.log| && b.log[..|a.log|] == a.log
    && o != Stopped(ReadbackDiffers) && o != Stopped(ProtectedChanged)
  }

  /** A rehearsal ends with the protected regions compared and power. */
  method Rehearse(s: Session, tool: Tool, job: Job, inv: seq<Reading>) returns (o: Outcome)
    requires Ready(s, tool) && inv == Invariants(s.dev.sha, tool.lay, s.dev.disk[..], job.wipe) && NoClaims(s.Now())
    modifies s, s.dev
    ensures Rehearsed(old(s.Now()), s.Now(), o)
    ensures |old(s.dev.log)| <= |s.dev.log| && s.dev.log[..|old(s.dev.log)|] == old(s.dev.log)
    ensures PowerIs(s.dev.log, |old(s.dev.log)|, job.powerAfter.GetOr(Reset))
    ensures o.Pass? ==> s.report.power == Some(job.powerAfter.GetOr(Reset))
    ensures old(s.Tireless()) && AllPlain(old(s.capture.files)) ==> o.Pass?
  {
    hide Invariants, Layout.Valid, AllPlain, ReadOnly, NoClaims, Rehearsed, RehearsalStep, PowerIs, OnlyReads;
    ghost var a := s.Now();
    if AllPlain(s.capture.files) { PlainNames(s.capture.files); }
    var after;
    o, after := HashInvariants(s, tool, AfterRun, job.wipe);
    ghost var b := s.Now();
    RehearsalRead(a, b);
    ReadOnlyLog(a, b);
    LogKept(a.log, b.log);
    ReadsNoPower(a.log, b.log);
    if o.Stopped? { return; }
    s.report := s.report.(invariantsUnchanged := Some(after == inv));
    // a session that only read cannot have changed them: the stop on a difference is never taken
    assert after == inv;
    o := s.Save();
    RehearsalCompared(a, b, s.Now());
    if o.Stopped? { return; }
    o := RehearsalPower(s, job.powerAfter.GetOr(Reset), a, b);
    PoweredOnce(a.log, b.log, job.powerAfter.GetOr(Reset));
  }

  /** Power, last of all. */
  method RehearsalPower(s: Session, state: PowerState, ghost a: Snap, ghost b: Snap) returns (o: Outcome)
    requires RehearsalStep(a, b, s.Now()) && s.dev.log == b.log
    modifies s, s.dev
    ensures Rehearsed(a, s.Now(), o)
    ensures s.dev.log == b.log || s.dev.log == b.log + [Power(state)]
    ensures o.Pass? ==> s.report.power == Some(state)
    ensures old(s.Tireless()) ==> s.Tireless() && o.Pass?
  {
    hide RehearsalStep, Rehearsed;
    ghost var c := s.Now();
    o := s.Save();
    RehearsalNext(a, b, c, s.Now());
    if o.Stopped? { return; }
    c := s.Now();
    o := s.dev.PowerTo(state);
    RehearsalNext(a, b, c, s.Now());
    if o.Stopped? { return; }
    c := s.Now();
    s.report := s.report.(power := Some(state));
    o := s.Save();
    RehearsalNext(a, b, c, s.Now());
  }

  lemma LogKept(log0: seq<Event>, log: seq<Event>)
    requires OnlyReads(log0, log)
    ensures |log0| <= |log| && log[..|log0|] == log0
  {
  }

  /** The comparison was made; since the last read at most power was touched. */
  ghost predicate RehearsalStep(a: Snap, b: Snap, c: Snap) {
    && NoClaims(b) && ReadOnly(a, b)
    && c.disk == b.disk && c.capture == b.capture.(report := c.capture.report)
    && c.report == b.report.(invariantsUnchanged := Some(true), power := c.report.power)
    && (c.capture.report.Some? ==> RehearsalClaims(c.capture.report.value)) && (ModeSaved(a) ==> ModeSaved(c))
    && (c.log == b.log || (|c.log| == |b.log| + 1 && c.log[..|b.log|] == b.log && c.log[|b.log|].Power?))
  }

  lemma RehearsalCompared(a: Snap, b: Snap, c: Snap)
    requires NoClaims(b) && ReadOnly(a, b) && c.disk == b.disk && c.log == b.log
    requires c.capture == b.capture.(report := c.capture.report)
    requires c.report == b.report.(invariantsUnchanged := Some(true))
    requires c.capture.report == b.capture.report || c.capture.report == Some(c.report)
    ensures RehearsalStep(a, b, c)
    ensures forall o: Outcome :: o.Stopped? && o.why !in {ReadbackDiffers, ProtectedChanged} ==> Rehearsed(a, c, o)
  {
    StepRehearsed(a, b, c);
  }

  /** One more save, or power. */
  lemma RehearsalNext(a: Snap, b: Snap, c: Snap, d: Snap)
    requires RehearsalStep(a, b, c) && d.disk == c.disk && d.capture == c.capture.(report := d.capture.report)
    requires d.report == c.report.(power := d.report.power)
    requires d.capture.report == c.capture.report || d.capture.report == Some(d.report)
    requires d.log == c.log
      || (c.log == b.log && |d.log| == |c.log| + 1 && d.log[..|c.log|] == c.log && d.log[|c.log|].Power?)
    ensures RehearsalStep(a, b, d)
    ensures forall o: Outcome :: o.Stopped? && o.why !in {ReadbackDiffers, ProtectedChanged} ==> Rehearsed(a, d, o)
    ensures d.log != b.log && d.report.power.Some? ==> Rehearsed(a, d, Pass)
  {
    StepRehearsed(a, b, d);
  }

  lemma StepRehearsed(a: Snap, b: Snap, c: Snap)
    requires RehearsalStep(a, b, c)
    ensures forall o: Outcome :: o.Stopped? && o.why !in {ReadbackDiffers, ProtectedChanged} ==> Rehearsed(a, c, o)
    ensures c.log != b.log && c.report.power.Some? ==> Rehearsed(a, c, Pass)
  {
    assert forall i :: |a.log| <= i < |b.log| ==> c.log[i] == b.log[i];
  }

  lemma RehearsalRead(a: Snap, b: Snap)
    requires NoClaims(a) && ReadOnly(a, b)
    ensures NoClaims(b)
    ensures forall o: Outcome :: o.Stopped? && o.why !in {ReadbackDiffers, ProtectedChanged} ==> Rehearsed(a, b, o)
  {
  }

  function ExecutedWrites(lay: Layout, job: Job, state: map<PartName, Build>): seq<Write>
    requires forall n :: n in IMAGE_ORDER ==> n in job.images
  {
    Keep(PlannedWrites(lay, job), Unchanged(job, state)) + if job.wipe then ZeroWrites(lay) else []
  }

  /** How a whole rehearsal may end. Without a manifest it has only read and claims
      nothing; it passes only with one, the protected regions compared and power
      as its last event, and touches power only after that comparison. */
  ghost predicate RehearsalEnd(a: Snap, b: Snap, o: Outcome) {
    && (b.capture.manifest.None? ==> NoClaims(b) && OnlyReads(a.log, b.log) && o.Stopped?)
    && (b.capture.manifest.Some? ==> ModeSaved(b) && b.report.journal.mode == Some(BackupOnly))
    && RehearsalClaims(b.report)
    && (b.capture.report.Some? ==> RehearsalClaims(b.capture.report.value))
    && (Powered(b.log, |a.log|) ==> b.report.invariantsUnchanged == Some(true))
    && (o.Pass? ==> && b.report.invariantsUnchanged == Some(true) && b.report.power.Some?
                    && EndsWithPower(b.log, |a.log|))
  }

  /** What run_update leaves in every case. `begun` says that it passed every
      check and went on to write. */
  ghost predicate RunEnd(tool: Tool, sha: Hash, faithful: bool, job: Job, state: map<PartName, Build>, begun: bool,
                         a: Snap, b: Snap, o: Outcome)
    requires tool.lay.Valid() && |a.disk| == |b.disk| == tool.lay.diskBytes
  {
    && (!begun ==>
      b.disk == a.disk && NoPrograms(a.log, b.log) && o != Stopped(ReadbackDiffers) && o != Stopped(ProtectedChanged))
    && (!begun && !job.mode.BackupOnly? ==> NoClaims(b) && OnlyReads(a.log, b.log) && o.Stopped?)
    && (job.mode.BackupOnly? ==> !begun && RehearsalEnd(a, b, o))
    && (o.Pass? ==> && StateOf(sha, tool.lay, a.disk, job.prev, job.images, state)
                    && (forall n :: n in state ==> state[n] == Prev || (job.reflash && state[n] == New)))
    && (begun ==> && job.mode.Update? && JobOk(tool.lay, sha, job)
                  && StateOf(sha, tool.lay, a.disk, job.prev, job.images, state)
                  && (forall n :: n in state ==> state[n] == Prev || (job.reflash && state[n] == New))
                  && b.capture.manifest.Some? && b.report.plan == ExecutedWrites(tool.lay, job, state)
                  && UpdateCore(tool.lay, sha, faithful, Same(sha, tool.lay, job.wipe, a.disk, b.disk),
                                ImageWork(tool.lay, sha, job, state), ZeroWork(tool.lay, sha, job), a.disk, |a.log|, b,
                                  o))
    && (b.capture.manifest.Some? ==> Recorded(tool, sha, a.disk, job, b.capture) && Welcome(tool, sha, job, a.disk))
    && (b.capture.manifest.Some? && job.mode.Update? ==>
          && b.report.journal.mode == Some(Update) && b.report.journal.wipeData == job.wipe
          && (faithful && !job.wipe ==> Safe(tool.lay, sha, a.disk, b)))
  }

  /** Where a run stands before its first write. */
  ghost predicate Unwritten(tool: Tool, sha: Hash, job: Job, a: Snap, c: Snap)
    requires tool.lay.Valid() && |a.disk| == tool.lay.diskBytes
  {
    && c.disk == a.disk && OnlyReads(a.log, c.log) && NoClaims(c)
    && (c.capture.manifest.Some? ==>
          && Recorded(tool, sha, a.disk, job, c.capture) && Welcome(tool, sha, job, a.disk)
          && c.report.journal.mode == Some(job.mode) && c.report.journal.wipeData == job.wipe
          && Safe(tool.lay, sha, a.disk, c))
  }

  /** A disk still as it was is accounted for by any journal. */
  lemma UntouchedUndoable(lay: Layout, sha: Hash, d: Bytes, j: Journal)
    requires lay.Valid() && |d| == lay.diskBytes
    ensures Undoable(lay, sha, d, d, j)
  {
    forall n | Updatable(n) ensures Accounted(lay, sha, d, d, j, n) {}
  }

  lemma Inspected(tool: Tool, sha: Hash, job: Job, a: Snap, b: Snap, c: Snap)
    requires tool.lay.Valid() && |a.disk| == tool.lay.diskBytes
    requires b.disk == a.disk && b.log == a.log && NoClaims(b) && b.capture.manifest.None?
    requires b.report.journal == Journal(Some(job.mode), job.wipe, map[])
    requires b.capture.report.Some? && b.capture.report.value.journal == b.report.journal
    requires Noted(b, c) && OfflineOk(tool.lay, sha, job)
    requires c.capture.manifest.Some? ==>
      Recorded(tool, sha, c.disk, job, c.capture) && Expected(tool.lay, sha, job, c.disk)
    ensures Unwritten(tool, sha, job, a, c)
  {
    hide OfflineOk, Expected, Recorded, Undoable, Welcome;
    NotedDisk(b, c);
    if c.capture.manifest.Some? { RecordedWelcome(tool, sha, a.disk, job, c.capture); }
    UntouchedUndoable(tool.lay, sha, a.disk, b.report.journal);
  }

  lemma RecordedWelcome(tool: Tool, sha: Hash, d: Bytes, job: Job, c: Capture)
    requires tool.lay.Valid() && |d| == tool.lay.diskBytes && Recorded(tool, sha, d, job, c)
    requires OfflineOk(tool.lay, sha, job) && Expected(tool.lay, sha, job, d)
    ensures Welcome(tool, sha, job, d)
  {
    hide OfflineOk, Expected;
  }

  lemma Replanned(tool: Tool, sha: Hash, job: Job, a: Snap, c: Snap, e: Snap)
    requires tool.lay.Valid() && |a.disk| == tool.lay.diskBytes && Unwritten(tool, sha, job, a, c)
    requires e.disk == c.disk && e.log == c.log && e.report == c.report.(plan := e.report.plan)
    requires e.capture == c.capture.(report := e.capture.report)
    requires e.capture.report == c.capture.report || e.capture.report == Some(e.report)
    ensures Unwritten(tool, sha, job, a, e)
  {
    hide Undoable, Welcome, Recorded;
    if c.capture.manifest.Some? {
      RecordedKept(tool, sha, a.disk, job, c.capture, e.capture);
      UntouchedUndoable(tool.lay, sha, a.disk, e.report.journal);
    }
  }

  lemma RecordedKept(tool: Tool, sha: Hash, d: Bytes, job: Job, c1: Capture, c2: Capture)
    requires tool.lay.Valid() && |d| == tool.lay.diskBytes && Recorded(tool, sha, d, job, c1)
    requires c2.manifest == c1.manifest && KeepsFiles(c1.files, c2.files)
    ensures Recorded(tool, sha, d, job, c2)
  {
    hide PreCheckOk, Invariants, HeadsHashed;
  }

  lemma OrderedRebase(log0: seq<Event>, log1: seq<Event>, log: seq<Event>, sha: Hash, imgs: seq<Order>, zs: seq<Order>)
    requires OnlyReads(log0, log1) && |log1| <= |log| && log[..|log1|] == log1
    requires Ordered(log, |log1|, sha, imgs, zs)
    ensures Ordered(log, |log0|, sha, imgs, zs)
  {
    hide ReadBackBefore;
    assert forall i :: |log0| <= i < |log1| ==> log[i] == log1[i];
    forall i, k, z | |log0| <= i < |log| && 0 <= k < |imgs| && 0 <= z < |zs| && log[i] == Event.Program(zs[z].region)
      ensures ReadBackBefore(log, |log0|, i, sha, imgs[k])
    {
      assert ReadBackBefore(log, |log1|, i, sha, imgs[k]);
      ReadBackLater(log, log, |log0|, |log1|, i, i, sha, imgs[k]);
    }
    forall i, k | |log0| <= i < |log| && log[i].Power? && 0 <= k < |imgs + zs|
      ensures ReadBackBefore(log, |log0|, i, sha, (imgs + zs)[k])
    {
      ReadBackLater(log, log, |log0|, |log1|, i, i, sha, (imgs + zs)[k]);
    }
  }

  lemma Ended(tool: Tool, sha: Hash, faithful: bool, job: Job, same: bool, imgs: seq<Order>, zs: seq<Order>, a: Snap,
              e: Snap, b: Snap, o: Outcome)
    requires tool.lay.Valid() && |a.disk| == |b.disk| == tool.lay.diskBytes
    requires Unwritten(tool, sha, job, a, e) && e.capture.manifest.Some? && (zs == [] <==> !job.wipe)
    requires UpdateEnd(tool.lay, sha, faithful, same, imgs, zs, e, b, o)
    ensures UpdateCore(tool.lay, sha, faithful, same, imgs, zs, a.disk, |a.log|, b, o)
    ensures Recorded(tool, sha, a.disk, job, b.capture) && Welcome(tool, sha, job, a.disk) && b.capture.manifest.Some?
    ensures b.report.journal.mode == Some(job.mode) && b.report.journal.wipeData == job.wipe
    ensures b.report.plan == e.report.plan
    ensures faithful && !job.wipe ==> Safe(tool.lay, sha, a.disk, b)
  {
    hide Safe, Ordered, Recorded, Powered, Welcome;
    if OnlyReads(a.log, e.log) && |e.log| <= |b.log| && b.log[..|e.log|] == e.log {
      PoweredRebase(a.log, e.log, b.log);
    }
    RecordedKept(tool, sha, a.disk, job, e.capture, b.capture);
    OrderedRebase(a.log, e.log, b.log, sha, imgs, zs);
  }

  lemma PoweredRebase(log0: seq<Event>, log1: seq<Event>, log: seq<Event>)
    requires OnlyReads(log0, log1) && |log1| <= |log| && log[..|log1|] == log1
    ensures Powered(log, |log0|) ==> Powered(log, |log1|)
  {
    assert forall i :: |log0| <= i < |log1| ==> log[i] == log1[i];
  }

  lemma JobChecked(lay: Layout, sha: Hash, job: Job)
    requires lay.Valid() && PayloadsOk(sha, job.images)
    requires forall n :: n in IMAGE_ORDER ==> n in job.images && Fits(lay, n, job.images[n].nbytes)
    requires PlanAllowed(lay, PlannedWrites(lay, job), job.wipe) && CheckPolicy(job).Pass? && Permitted(job)
    ensures JobOk(lay, sha, job) && OfflineOk(lay, sha, job)
  {
  }

  lemma UnwrittenFacts(tool: Tool, sha: Hash, job: Job, a: Snap, c: Snap)
    requires tool.lay.Valid() && |a.disk| == tool.lay.diskBytes && Unwritten(tool, sha, job, a, c)
    ensures c.disk == a.disk && OnlyReads(a.log, c.log) && NoClaims(c)
    ensures c.capture.manifest.Some? ==>
              && Recorded(tool, sha, a.disk, job, c.capture) && Welcome(tool, sha, job, a.disk)
              && c.report.journal.mode == Some(job.mode) && c.report.journal.wipeData == job.wipe
              && Safe(tool.lay, sha, a.disk, c)
  {
  }

  /** What the phone is told at the end: as asked, else off after an update and
      reset after a rehearsal. */
  function AfterPower(job: Job): (p: PowerState)
    ensures job.powerAfter.Some? ==> p == job.powerAfter.value
    ensures job.powerAfter.None? && job.mode.Update? ==> p == Off
    ensures job.powerAfter.None? && job.mode.BackupOnly? ==> p == Reset
  {
    job.powerAfter.GetOr(if job.mode.BackupOnly? then Reset else Off)
  }

  /** One call of run_update, wherever it stops. */
  method RunUpdate(s: Session, tool: Tool, job: Job)
      returns (o: Outcome, ghost state: map<PartName, Build>, ghost begun: bool, ghost mark: seq<Event>)
    requires Ready(s, tool) && s.report == EMPTY_REPORT && s.capture == EMPTY_CAPTURE
    modifies s, s.dev, s.dev.disk
    ensures RunEnd(tool, s.dev.sha, s.dev.Faithful(), job, state, begun, old(s.Now()), s.Now(), o)
    ensures PowerIs(s.dev.log, |old(s.dev.log)|, AfterPower(job))
    ensures o.Pass? ==> s.report.power == Some(AfterPower(job))
    ensures begun ==> OnlyReads(old(s.dev.log), mark)
    ensures begun && o.Pass? ==>
      && JobOk(tool.lay, s.dev.sha, job)
      && Endures(tool.lay, s.dev.sha, job, state, s.dev.warp, mark, old(s.dev.disk[..]))
      && s.dev.disk[..] == FinishedDisk(tool.lay, s.dev.sha, job, state, s.dev.warp, mark, old(s.dev.disk[..]))
    ensures old(s.Tireless()) && job.mode.Update? && Welcome(tool, s.dev.sha, job, old(s.dev.disk[..])) ==>
      && begun && JobOk(tool.lay, s.dev.sha, job)
      && (Endures(tool.lay, s.dev.sha, job, state, s.dev.warp, mark, old(s.dev.disk[..])) ==> o.Pass?)
    ensures old(s.Tireless()) && s.dev.Faithful() && Welcome(tool, s.dev.sha, job, old(s.dev.disk[..])) ==> o.Pass?
  {
    hide OfflineOk, PreCheckOk, Expected, Endures, FinishedDisk, RehearsalEnd, Welcome, AllPlain, Permitted, ReadOnly,
         Recorded, Invariants, StateOf, Decide, Safe,
         JobOk, UpdateCore, Same, PayloadsOk, WriteAllowed,
         Unwritten, PlanAllowed, Unchanged, Keep, Fits, Noted, PowerIs;
    ghost var a := s.Now();
    begun, state, mark := false, map[], [];
    WelcomeParts(tool, s.dev.sha, job, a.disk);
    StoppedEarly(a);
    ReadsNoPower(a.log, a.log);
    var writes, inv, found;
    o, writes := Offline(s, tool, job);
    if o.Stopped? { return; }
    ghost var b := s.Now();
    JobChecked(tool.lay, s.dev.sha, job);
    o, inv, found := Inspect(s, tool, job);
    state := found;
    ghost var c := s.Now();
    NotedDisk(b, c);
    Inspected(tool, s.dev.sha, job, a, b, c);
    UnwrittenLog(tool, s.dev.sha, job, a, c);
    if o.Stopped? { UnwrittenEnd(tool, s.dev.sha, s.dev.Faithful(), job, state, a, c, o); return; }
    StateComplete(s.dev.sha, tool.lay, a.disk, job.prev, job.images, state);
    DecideIff(job.images, job.prev, job.reflash, state);
    AllPlainNow(s.capture.files);
    o, begun, mark := Proceed(s, tool, job, writes, inv, found, a);
  }

  lemma WelcomeParts(tool: Tool, sha: Hash, job: Job, d: Bytes)
    requires tool.lay.Valid() && |d| == tool.lay.diskBytes
    ensures Welcome(tool, sha, job, d) <==>
      OfflineOk(tool.lay, sha, job) && PreCheckOk(tool, sha, job.kit, d) && Expected(tool.lay, sha, job, d)
  {
  }

  /** A rehearsal that stopped before its manifest. */
  lemma StoppedEarly(a: Snap)
    ensures forall b: Snap, o: Outcome ::
      NoClaims(b) && OnlyReads(a.log, b.log) && o.Stopped? && b.capture.manifest.None? ==> RehearsalEnd(a, b, o)
  {
  }

  lemma UnwrittenEnd(tool: Tool, sha: Hash, faithful: bool, job: Job, state: map<PartName, Build>, a: Snap, c: Snap,
                     o: Outcome)
    requires tool.lay.Valid() && |a.disk| == tool.lay.diskBytes && Unwritten(tool, sha, job, a, c)
    requires o.Stopped? && o.why !in {ReadbackDiffers, ProtectedChanged}
    ensures |c.disk| == |a.disk| && RunEnd(tool, sha, faithful, job, state, false, a, c, o)
  {
    hide Recorded, Welcome;
    if c.capture.manifest.Some? { SafeModeSaved(tool.lay, sha, a.disk, c); }
    hide Safe;
  }

  lemma SafeModeSaved(lay: Layout, sha: Hash, d0: Bytes, c: Snap)
    requires lay.Valid() && |d0| == |c.disk| == lay.diskBytes && Safe(lay, sha, d0, c)
    ensures ModeSaved(c)
  {
  }

  /** After the survey: rehearse, or write. */
  method Proceed(s: Session, tool: Tool, job: Job, writes: seq<Write>, inv: seq<Reading>, state: map<PartName, Build>,
                 ghost a: Snap)
      returns (o: Outcome, ghost begun: bool, ghost mark: seq<Event>)
    requires Ready(s, tool) && JobOk(tool.lay, s.dev.sha, job) && writes == PlannedWrites(tool.lay, job)
      && !job.mode.Rollback?
    requires |a.disk| == tool.lay.diskBytes && Unwritten(tool, s.dev.sha, job, a, s.Now()) && s.capture.manifest.Some?
    requires inv == Invariants(s.dev.sha, tool.lay, s.dev.disk[..], job.wipe)
    requires StateOf(s.dev.sha, tool.lay, a.disk, job.prev, job.images, state)
    requires forall n :: n in state ==> state[n] == Prev || (job.reflash && state[n] == New)
    modifies s, s.dev, s.dev.disk
    ensures RunEnd(tool, s.dev.sha, s.dev.Faithful(), job, state, begun, a, s.Now(), o)
    ensures PowerIs(s.dev.log, |a.log|, AfterPower(job))
    ensures o.Pass? ==> s.report.power == Some(AfterPower(job))
    ensures begun ==> OnlyReads(a.log, mark)
    ensures begun && o.Pass? ==>
      && Endures(tool.lay, s.dev.sha, job, state, s.dev.warp, mark, a.disk)
      && s.dev.disk[..] == FinishedDisk(tool.lay, s.dev.sha, job, state, s.dev.warp, mark, a.disk)
    ensures old(s.Tireless()) && AllPlain(old(s.capture.files)) && job.mode.Update? ==>
      begun && (Endures(tool.lay, s.dev.sha, job, state, s.dev.warp, mark, a.disk) ==> o.Pass?)
    ensures old(s.Tireless()) && s.dev.Faithful() && AllPlain(old(s.capture.files)) ==> o.Pass?
  {
    hide Recorded, Invariants, StateOf, Safe, JobOk, UpdateEnd, UpdateCore, Same, Unwritten, Unchanged, Keep,
         Layout.Valid, Welcome, Endures, FinishedDisk, Rehearsed,
         AllPlain, RunEnd, ImageWork, ZeroWork, ZeroWrites, PowerIs, OnlyReads, ExecutedWrites;
    begun, mark := false, [];
    ghost var lay, sha, faithful := tool.lay, s.dev.sha, s.dev.Faithful();
    ghost var c := s.Now();
    UnwrittenFacts(tool, sha, job, a, c);
    UnwrittenLog(tool, sha, job, a, c);
    if job.mode.BackupOnly? {
      o := Rehearse(s, tool, job, inv);
      ReadsPowerIs(a.log, c.log, s.dev.log, AfterPower(job));
      RehearsedEnd(tool, sha, faithful, job, state, a, c, s.Now(), o);
      return;
    }
    s.report := s.report.(plan := Keep(writes, Unchanged(job, state)) + if job.wipe then ZeroWrites(tool.lay) else []);
    o := s.Save();
    ghost var e := s.Now();
    Replanned(tool, sha, job, a, c, e);
    if o.Stopped? { UnwrittenEnd(tool, sha, faithful, job, state, a, e, o); return; }
    UnwrittenFacts(tool, sha, job, a, e);
    begun, mark := true, e.log;
    JobParts(lay, sha, job);
    ExecutedList(lay, job, state, writes);
    o := Execute(s, tool, job, writes, inv, state);
    ReadsPowerIs(a.log, e.log, s.dev.log, AfterPower(job));
    WorkFacts(lay, sha, job, state);
    Ended(tool, sha, faithful, job, Same(sha, lay, job.wipe, a.disk, s.dev.disk[..]), ImageWork(lay, sha, job, state),
          ZeroWork(lay, sha, job), a, e, s.Now(), o);
    ExecutedEnd(tool, sha, faithful, job, state, a, s.Now(), o);
  }

  lemma UnwrittenLog(tool: Tool, sha: Hash, job: Job, a: Snap, c: Snap)
    requires tool.lay.Valid() && |a.disk| == tool.lay.diskBytes && Unwritten(tool, sha, job, a, c)
    ensures OnlyReads(a.log, c.log) && forall p :: PowerIs(c.log, |a.log|, p)
  {
    ReadsNoPower(a.log, c.log);
  }

  lemma ExecutedList(lay: Layout, job: Job, state: map<PartName, Build>, writes: seq<Write>)
    requires forall n :: n in IMAGE_ORDER ==> n in job.images
    requires writes == PlannedWrites(lay, job)
    ensures ExecutedWrites(lay, job, state)
      == Keep(writes, Unchanged(job, state)) + if job.wipe then ZeroWrites(lay) else []
  {
  }

  lemma RehearsedEnd(tool: Tool, sha: Hash, faithful: bool, job: Job, state: map<PartName, Build>, a: Snap, c: Snap,
                     b: Snap, o: Outcome)
    requires tool.lay.Valid() && |a.disk| == tool.lay.diskBytes && job.mode.BackupOnly?
    requires StateOf(sha, tool.lay, a.disk, job.prev, job.images, state)
    requires forall n :: n in state ==> state[n] == Prev || (job.reflash && state[n] == New)
    requires Unwritten(tool, sha, job, a, c) && c.capture.manifest.Some? && Rehearsed(c, b, o)
    ensures |b.disk| == |a.disk| && RunEnd(tool, sha, faithful, job, state, false, a, b, o)
  {
    hide Recorded, StateOf, Welcome;
    SafeModeSaved(tool.lay, sha, a.disk, c);
    hide Safe;
    RecordedKept(tool, sha, a.disk, job, c.capture, b.capture);
    assert forall i :: |a.log| <= i < |c.log| ==> b.log[i] == c.log[i];
  }

  lemma ExecutedEnd(tool: Tool, sha: Hash, faithful: bool, job: Job, state: map<PartName, Build>, a: Snap, b: Snap,
                    o: Outcome)
    requires tool.lay.Valid() && |a.disk| == |b.disk| == tool.lay.diskBytes && job.mode.Update?
      && JobOk(tool.lay, sha, job)
    requires StateOf(sha, tool.lay, a.disk, job.prev, job.images, state)
    requires forall n :: n in state ==> state[n] == Prev || (job.reflash && state[n] == New)
    requires b.report.plan == ExecutedWrites(tool.lay, job, state)
    requires UpdateCore(tool.lay, sha, faithful, Same(sha, tool.lay, job.wipe, a.disk, b.disk),
                        ImageWork(tool.lay, sha, job, state), ZeroWork(tool.lay, sha, job), a.disk, |a.log|, b, o)
    requires Recorded(tool, sha, a.disk, job, b.capture) && Welcome(tool, sha, job, a.disk) && b.capture.manifest.Some?
    requires b.report.journal.mode == Some(job.mode) && b.report.journal.wipeData == job.wipe
    requires faithful && !job.wipe ==> Safe(tool.lay, sha, a.disk, b)
    ensures RunEnd(tool, sha, faithful, job, state, true, a, b, o)
  {
    hide Recorded, Safe, UpdateCore, StateOf, ExecutedWrites, Layout.Valid, Welcome;
  }

  lemma NotedDisk(a: Snap, b: Snap)
    requires Noted(a, b)
    ensures b.disk == a.disk
  {
  }
}
