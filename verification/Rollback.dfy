// Writing an update's snapshot back (RomUpdateEngineV1.run_rollback), and the
// theorem it exists for: whatever stopped the update, the rollback from its
// capture is accepted and restores every byte the update could have changed.

module Rollbacks {
  import opened Options
  import opened Disk
  import opened Outcomes
  import opened Layout
  import opened UpdateLayout
  import opened Streams
  import opened Devices
  import opened Sessions
  import opened Survey
  import opened Orders
  import opened Phases
  import opened UpdateSurvey
  import opened UpdateEngine

  datatype PartState = Saved | Updated | FailedWrite | OtherContent

  /** The update may have left these bytes: it began to write the partition, and
      either never saw the write read back or what it wrote is there. */
  ghost predicate MayBeLeft(sha: Hash, part: Bytes, e: WriteEntry) {
    && e.attempted
    && (!e.verified || (e.region.sectors != 0 && IsHead(sha, part, Image([], e.region.sectors * SECTOR, e.expected))))
  }

  /** What a partition holds now, from its bytes, its saved digest and the
      update's journal entry for it, if there is one. */
  function Classify(sha: Hash, part: Bytes, saved: Digest, writes: map<Label, WriteEntry>, tag: Label): (s: PartState)
    ensures s.Saved? <==> sha(part) == saved
    ensures s.OtherContent? <==> sha(part) != saved && !(tag in writes && MayBeLeft(sha, part, writes[tag]))
    ensures s.FailedWrite? ==> tag in writes && writes[tag].attempted && !writes[tag].verified
  {
    if sha(part) == saved then Saved
    else if tag in writes && writes[tag].attempted && writes[tag].region.sectors != 0
         && sha(HeadBytes(part, writes[tag].region.sectors * SECTOR)) == writes[tag].expected then Updated
    else if tag in writes && writes[tag].attempted && !writes[tag].verified then FailedWrite
    else OtherContent
  }

  /** A capture an update left, good enough to go back from: a snapshot of `d0`
      whose journal accounts for what `d` holds. */
  ghost predicate RollbackReady(lay: Layout, sha: Hash, d0: Bytes, d: Bytes, c: Capture)
    requires lay.Valid() && |d0| == |d| == lay.diskBytes
  {
    && SnapshotOf(lay, sha, d0, c) && !c.manifest.value.wipeData
    && c.report.Some? && c.report.value.journal.mode == Some(Update) && !c.report.value.journal.wipeData
    && Undoable(lay, sha, d0, d, c.report.value.journal)
  }

  /** An accounted partition is never classified as something else. */
  lemma AccountedNeverOther(lay: Layout, sha: Hash, d0: Bytes, d: Bytes, j: Journal, n: PartName)
    requires lay.Valid() && |d0| == |d| == lay.diskBytes && Accounted(lay, sha, d0, d, j, n)
    ensures lay.parts(n).Within(|d|) && lay.parts(n).Within(|d0|)
    ensures !Classify(sha, Slice(d, lay.parts(n)), sha(Slice(d0, lay.parts(n))), j.writes, Part(n)).OtherContent?
  {
    assert lay.parts(n).Within(lay.diskBytes);
    if Part(n) in j.writes && HeadEntry(lay, n, j.writes[Part(n)]) {
      var e := j.writes[Part(n)];
      HeadOnDevice(lay, d, n, e.region.sectors * SECTOR);
      assert lay.Head(n, e.region.sectors * SECTOR / SECTOR) == e.region;
    }
  }

  // ---- the capture ----

  /** The structural checks of a capture, in the order they are made. */
  function CheckCapture(lay: Layout, c: Capture): (o: Outcome)
    ensures o.Pass? <==>
      && c.manifest.Some? && c.manifest.value.kind == UpdateSnapshot && !c.manifest.value.wipeData
      && c.report.Some? && c.report.value.journal.mode == Some(Update) && !c.report.value.journal.wipeData
      && forall n :: Updatable(n) ==>
           Part(n) in c.manifest.value.layout && c.manifest.value.layout[Part(n)] == lay.parts(n)
    ensures o.Stopped? ==> o.why in {NotACapture, LayoutDiffers}
  {
    UpdatableIsImageOrder();
    if c.manifest.None? || !c.manifest.value.kind.UpdateSnapshot? then Stopped(NotACapture)
    else if c.report.None? || c.report.value.journal.mode != Some(Update) then Stopped(NotACapture)
    else if c.manifest.value.wipeData || c.report.value.journal.wipeData then Stopped(NotACapture)
    else if !(forall n :: n in IMAGE_ORDER ==>
                Part(n) in c.manifest.value.layout && c.manifest.value.layout[Part(n)] == lay.parts(n))
    then Stopped(LayoutDiffers)
    else Pass
  }

  /** Every saved file has its partition's size and its manifest's digest. */
  ghost predicate FilesOk(lay: Layout, sha: Hash, c: Capture)
    requires c.manifest.Some?
  {
    forall n :: Updatable(n) ==>
      && FileName(Part(n), Plain) in c.files && Part(n) in c.manifest.value.backups
      && |c.files[FileName(Part(n), Plain)]| == lay.parts(n).Size()
      && sha(c.files[FileName(Part(n), Plain)]) == c.manifest.value.backups[Part(n)]
  }

  method CheckFiles(lay: Layout, sha: Hash, c: Capture) returns (o: Outcome)
    requires c.manifest.Some?
    ensures o.Pass? <==> FilesOk(lay, sha, c)
    ensures o.Stopped? ==> o.why == SavedFileDiffers
  {
    UpdatableIsImageOrder();
    for k := 0 to |IMAGE_ORDER|
      invariant forall i :: 0 <= i < k ==> var n := IMAGE_ORDER[i];
        && FileName(Part(n), Plain) in c.files && Part(n) in c.manifest.value.backups
        && |c.files[FileName(Part(n), Plain)]| == lay.parts(n).Size()
        && sha(c.files[FileName(Part(n), Plain)]) == c.manifest.value.backups[Part(n)]
    {
      var n := IMAGE_ORDER[k];
      assert n in IMAGE_ORDER;
      var f := FileName(Part(n), Plain);
      if f !in c.files || Part(n) !in c.manifest.value.backups { return Stopped(SavedFileDiffers); }
      var digest := Sha256File(sha, c.files[f], -1);
      if |c.files[f]| != lay.Sectors(n) * SECTOR
        || digest != c.manifest.value.backups[Part(n)] { return Stopped(SavedFileDiffers); }
    }
    forall n | Updatable(n)
      ensures && FileName(Part(n), Plain) in c.files && Part(n) in c.manifest.value.backups
              && |c.files[FileName(Part(n), Plain)]| == lay.parts(n).Size()
              && sha(c.files[FileName(Part(n), Plain)]) == c.manifest.value.backups[Part(n)]
    {
      var i :| 0 <= i < |IMAGE_ORDER| && IMAGE_ORDER[i] == n;
    }
    o := Pass;
  }

  lemma ReadyIsAccepted(lay: Layout, sha: Hash, d0: Bytes, d: Bytes, c: Capture)
    requires lay.Valid() && |d0| == |d| == lay.diskBytes && RollbackReady(lay, sha, d0, d, c)
    ensures CheckCapture(lay, c).Pass? && FilesOk(lay, sha, c)
  {
    UpdatableIsImageOrder();
  }

  // ---- what the partitions hold now ----

  ghost predicate StatesOf(lay: Layout, sha: Hash, d: Bytes, c: Capture, state: map<PartName, PartState>)
    requires c.manifest.Some? && c.report.Some? && FilesOk(lay, sha, c)
  {
    && (forall n :: n in state <==> Updatable(n))
    && (forall n :: Updatable(n) ==>
          && lay.parts(n).Within(|d|)
          && state[n]
            == Classify(sha, Slice(d, lay.parts(n)), c.manifest.value.backups[Part(n)], c.report.value.journal.writes,
              Part(n)))
  }

  method ClassifyOne(s: Session, lay: Layout, c: Capture, n: PartName) returns (o: Outcome, state: PartState)
    requires c.manifest.Some? && c.report.Some? && Part(n) in c.manifest.value.backups
      && lay.parts(n).Within(s.dev.disk.Length)
    modifies s, s.dev
    ensures ReadOnly(old(s.Now()), s.Now())
    ensures o.Pass? ==> && s.capture.files == old(s.capture.files)
                        && state == Classify(s.dev.sha, Slice(s.dev.disk[..], lay.parts(n)),
                          c.manifest.value.backups[Part(n)],
                                             c.report.value.journal.writes, Part(n))
    ensures o.Stopped? ==> o.why !in {ReadbackDiffers, ProtectedChanged}
    ensures old(s.Tireless()) ==> s.Tireless() && (FileName(Part(n), Current) !in old(s.capture.files) ==> o.Pass?)
  {
    state := OtherContent;
    var data, digest :- s.ReadRegion(Part(n), lay.parts(n), Current);
    var writes := c.report.value.journal.writes;
    var head := "";
    var known := Part(n) in writes && writes[Part(n)].region.sectors != 0;
    if known { head := Sha256File(s.dev.sha, data, writes[Part(n)].region.sectors * SECTOR); }
    s.Remove(FileName(Part(n), Current));
    if digest == c.manifest.value.backups[Part(n)] { state := Saved; }
    else if Part(n) in writes && writes[Part(n)].attempted && known
      && head == writes[Part(n)].expected { state := Updated; }
    else if Part(n) in writes && writes[Part(n)].attempted && !writes[Part(n)].verified { state := FailedWrite; }
    o := Pass;
  }

  method ClassifyAll(s: Session, lay: Layout, c: Capture) returns (o: Outcome, state: map<PartName, PartState>)
    requires c.manifest.Some? && c.report.Some? && FilesOk(lay, s.dev.sha, c)
    requires forall n :: Updatable(n) ==> lay.parts(n).Within(s.dev.disk.Length)
    modifies s, s.dev
    ensures ReadOnly(old(s.Now()), s.Now())
    ensures o.Pass? ==> s.capture.files == old(s.capture.files) && StatesOf(lay, s.dev.sha, s.dev.disk[..], c, state)
    ensures o.Stopped? ==> o.why !in {ReadbackDiffers, ProtectedChanged}
    ensures old(s.Tireless()) ==> s.Tireless()
    ensures old(s.Tireless()) && (forall f :: f in old(s.capture.files) ==> f.suffix != Current) ==> o.Pass?
  {
    hide ReadOnly, Classify;
    UpdatableIsImageOrder();
    ghost var a := s.Now();
    ReadOnlyRefl(a);
    state := map[];
    for k := 0 to |IMAGE_ORDER|
      invariant ReadOnly(a, s.Now()) && s.dev.disk[..] == a.disk && s.capture.files == a.capture.files
      invariant forall n :: n in state <==> n in IMAGE_ORDER[..k]
      invariant forall n :: n in state ==>
        state[n] == Classify(s.dev.sha, Slice(a.disk, lay.parts(n)), c.manifest.value.backups[Part(n)],
          c.report.value.journal.writes, Part(n))
      invariant old(s.Tireless()) ==> s.Tireless()
    {
      var n := IMAGE_ORDER[k];
      assert n in IMAGE_ORDER;
      ghost var b := s.Now();
      var found;
      o, found := ClassifyOne(s, lay, c, n);
      ReadOnlyTrans(a, b, s.Now());
      ReadOnlyDisk(b, s.Now());
      if o.Stopped? { return; }
      state := state[n := found];
      assert IMAGE_ORDER[..k + 1] == IMAGE_ORDER[..k] + [n];
    }
    assert IMAGE_ORDER[..|IMAGE_ORDER|] == IMAGE_ORDER;
    o := Pass;
  }

  // ---- the writes ----

  function RollbackOrder(lay: Layout, c: Capture, n: PartName): Order
    requires c.manifest.Some? && FileName(Part(n), Plain) in c.files && Part(n) in c.manifest.value.backups
  {
    Order(Part(n), lay.parts(n), c.files[FileName(Part(n), Plain)], false, c.manifest.value.backups[Part(n)])
  }

  function RollbackOrders(lay: Layout, c: Capture): (os: seq<Order>)
    requires c.manifest.Some? && forall n :: Updatable(n) ==>
      FileName(Part(n), Plain) in c.files && Part(n) in c.manifest.value.backups
  {
    assert Updatable(Boot) && Updatable(Dtbo) && Updatable(Vendor) && Updatable(System);
    [RollbackOrder(lay, c, Boot), RollbackOrder(lay, c, Dtbo), RollbackOrder(lay, c, Vendor),
      RollbackOrder(lay, c, System)]
  }

  lemma RollbackWorkOk(lay: Layout, sha: Hash, c: Capture)
    requires lay.Valid() && c.manifest.Some? && FilesOk(lay, sha, c)
    ensures WorkOk(lay, sha, RollbackOrders(lay, c), false) && AllImages(lay, RollbackOrders(lay, c))
    ensures OrderRegions(RollbackOrders(lay, c)) == WriteRegions(FullImageWrites(lay))
  {
    var os, ws := RollbackOrders(lay, c), FullImageWrites(lay);
    FullImageWritesAllowed(lay);
    AllowedPlanDisjoint(lay, ws, false);
    hide Layout.Valid, PairwiseDisjoint;
    forall k | 0 <= k < |os|
      ensures WriteOf(os[k]) == ws[k] && OrderFits(os[k], lay.diskBytes) && sha(os[k].payload) == os[k].expected
      && IsImageWrite(lay, WriteOf(os[k]))
    {
      assert k == 0 || k == 1 || k == 2 || k == 3;
      assert WriteRegions(ws)[k].Within(lay.diskBytes) && WriteAllowed(lay, ws[k], false);
    }
    assert OrderRegions(os) == WriteRegions(ws);
  }

  // ---- the run ----

  /** When a rollback from capture `c` goes on to write over disk `d`: the
      capture is whole, and no partition holds anything the update cannot
      have left there. */
  ghost predicate Acceptable(lay: Layout, sha: Hash, d: Bytes, c: Capture)
    requires lay.Valid() && |d| == lay.diskBytes
  {
    && CheckCapture(lay, c).Pass? && FilesOk(lay, sha, c)
    && forall n :: Updatable(n) ==>
         && lay.parts(n).Within(|d|)
         && var part := Slice(d, lay.parts(n)); var writes := c.report.value.journal.writes;
            || sha(part) == c.manifest.value.backups[Part(n)]
            || (Part(n) in writes && MayBeLeft(sha, part, writes[Part(n)]))
  }

  /** Whatever an update left when it stopped is acceptable. */
  lemma ReadyIsAcceptable(lay: Layout, sha: Hash, d0: Bytes, d: Bytes, c: Capture)
    requires lay.Valid() && |d0| == |d| == lay.diskBytes && RollbackReady(lay, sha, d0, d, c)
    ensures Acceptable(lay, sha, d, c)
    ensures forall n :: Updatable(n) ==>
      !Classify(sha, Slice(d, lay.parts(n)), c.manifest.value.backups[Part(n)], c.report.value.journal.writes,
                Part(n)).OtherContent?
    ensures forall n :: Updatable(n) ==> c.files[FileName(Part(n), Plain)] == Slice(d0, lay.parts(n))
  {
    ReadyIsAccepted(lay, sha, d0, d, c);
    forall n | Updatable(n)
      ensures lay.parts(n).Within(|d|)
      ensures !Classify(sha, Slice(d, lay.parts(n)), c.manifest.value.backups[Part(n)], c.report.value.journal.writes,
        Part(n)).OtherContent?
    {
      AccountedNeverOther(lay, sha, d0, d, c.report.value.journal, n);
    }
  }

  /** What a rollback's report claims is so. */
  ghost predicate RollbackTruthful(lay: Layout, sha: Hash, c: Capture, begun: bool, d0: Bytes, d: Bytes, r: Report)
    requires lay.Valid() && |d0| == |d| == lay.diskBytes && (begun ==> Acceptable(lay, sha, d0, c))
  {
    && (r.readbackVerified ==> begun && AllReadBack(sha, d, RollbackOrders(lay, c)))
    && (r.invariantsUnchanged == Some(true) ==> Invariants(sha, lay, d, false) == Invariants(sha, lay, d0, false))
    && (r.power.Some? ==> r.readbackVerified && r.invariantsUnchanged == Some(true))
  }

  /** What a rollback leaves. `begun` says that it passed every check and went
      on to write. */
  ghost predicate RollbackEnd(lay: Layout, sha: Hash, faithful: bool, c: Capture, begun: bool, a: Snap, b: Snap,
                              o: Outcome)
    requires lay.Valid() && |a.disk| == |b.disk| == lay.diskBytes
  {
    && (!begun ==> b.disk == a.disk && OnlyReads(a.log, b.log) && NoClaims(b) && o.Stopped?)
    && (begun ==> Acceptable(lay, sha, a.disk, c))
    && RollbackTruthful(lay, sha, c, begun, a.disk, b.disk, b.report)
    && (b.capture.report.Some? ==> RollbackTruthful(lay, sha, c, begun, a.disk, b.disk, b.capture.report.value))
    && PowerLast(|a.log|, b)
    && (faithful ==> SameOutside(a.disk, b.disk, WriteRegions(FullImageWrites(lay))))
    && (o.Pass? ==> begun && EndsWithPower(b.log, |a.log|)
                    && b.report.readbackVerified && b.report.invariantsUnchanged == Some(true) && b.report.power.Some?)
    && (o.Pass? && faithful ==> Holds(a.disk, b.disk, Patches(RollbackOrders(lay, c))))
    && (faithful ==> o != Stopped(ReadbackDiffers) && o != Stopped(ProtectedChanged))
  }

  /** Pre-checks, protected regions and what the partitions hold. */
  method RollbackSurvey(s: Session, tool: Tool, c: Capture, kit: Option<Kit>)
      returns (o: Outcome, inv: seq<Reading>, state: map<PartName, PartState>)
    requires Ready(s, tool) && c.manifest.Some? && c.report.Some? && FilesOk(tool.lay, s.dev.sha, c)
      && s.capture.files == map[]
    modifies s, s.dev
    ensures ReadOnly(old(s.Now()), s.Now())
    ensures o.Pass? ==> && inv == Invariants(s.dev.sha, tool.lay, s.dev.disk[..], false)
                        && StatesOf(tool.lay, s.dev.sha, s.dev.disk[..], c, state)
                        && PreCheckOk(tool, s.dev.sha, kit, s.dev.disk[..])
                        && (forall f :: f in s.capture.files ==> f.suffix == Plain)
    ensures o.Stopped? ==> o.why !in {ReadbackDiffers, ProtectedChanged}
    ensures old(s.Tireless()) ==> s.Tireless() && (PreCheckOk(tool, s.dev.sha, kit, s.dev.disk[..]) ==> o.Pass?)
  {
    hide ReadOnly, PreCheckOk, Invariants, StatesOf, FilesOk;
    PartsWithin(tool.lay);
    ghost var a := s.Now();
    inv, state := [], map[];
    o := PreChecks(s, tool, kit);
    if o.Stopped? { return; }
    ghost var b := s.Now();
    ReadOnlyDisk(a, b);
    OnlyPlain(b.capture.files);
    o, inv := HashInvariants(s, tool, Before, false);
    ReadOnlyTrans(a, b, s.Now());
    ReadOnlyDisk(b, s.Now());
    if o.Stopped? { return; }
    b := s.Now();
    o, state := ClassifyAll(s, tool.lay, c);
    ReadOnlyTrans(a, b, s.Now());
    ReadOnlyDisk(b, s.Now());
  }

  method RunRollback(s: Session, tool: Tool, c: Capture, kit: Option<Kit>, powerAfter: Option<PowerState>)
      returns (o: Outcome, ghost begun: bool)
    requires Ready(s, tool) && s.report == EMPTY_REPORT && s.capture == EMPTY_CAPTURE
    modifies s, s.dev, s.dev.disk
    ensures RollbackEnd(tool.lay, s.dev.sha, s.dev.Faithful(), c, begun, old(s.Now()), s.Now(), o)
    ensures PowerIs(s.dev.log, |old(s.dev.log)|, powerAfter.GetOr(Reset))
    ensures o.Pass? ==> s.report.power == Some(powerAfter.GetOr(Reset))
    ensures begun ==> PreCheckOk(tool, s.dev.sha, kit, old(s.dev.disk[..]))
    ensures (&& old(s.Tireless()) && s.dev.Faithful() && PreCheckOk(tool, s.dev.sha, kit, old(s.dev.disk[..]))
             && Acceptable(tool.lay, s.dev.sha, old(s.dev.disk[..]), c)) ==> o.Pass?
  {
    hide ReadOnly, PreCheckOk, Invariants, StatesOf, FilesOk, Classify, RollbackEnd, PowerIs, OnlyReads;
    ghost var lay, sha, faithful := tool.lay, s.dev.sha, s.dev.Faithful();
    begun := false;
    ghost var a := s.Now();
    o := RollbackOffline(s, tool, c);
    ghost var b := s.Now();
    NothingLogged(a.log);
    NotBegun(lay, sha, faithful, c, a, b);
    if o.Stopped? { return; }
    var inv, state;
    o, inv, state := RollbackSurvey(s, tool, c, kit);
    ReadOnlyNoClaims(b, s.Now());
    ReadsNoPower(a.log, s.dev.log);
    NotBegun(lay, sha, faithful, c, a, s.Now());
    if o.Stopped? { return; }
    var other := exists n :: n in state && state[n].OtherContent?;
    OtherIff(lay, sha, a.disk, c, state);
    if other { return Stopped(UnexpectedBuild), begun; }
    begun := true;
    o := RollbackWriting(s, tool, c, inv, powerAfter, a);
  }

  lemma NothingLogged(log: seq<Event>)
    ensures OnlyReads(log, log) && forall p :: PowerIs(log, |log|, p)
  {
  }

  /** The capture and the plan, before the device is touched. */
  method RollbackOffline(s: Session, tool: Tool, c: Capture) returns (o: Outcome)
    requires Ready(s, tool) && s.report == EMPTY_REPORT && s.capture == EMPTY_CAPTURE
    modifies s
    ensures s.capture == EMPTY_CAPTURE.(report := s.capture.report)
    ensures NoClaims(s.Now())
    ensures o.Pass? ==> CheckCapture(tool.lay, c).Pass? && FilesOk(tool.lay, s.dev.sha, c)
    ensures o.Stopped? ==> o.why !in {ReadbackDiffers, ProtectedChanged}
    ensures old(s.Tireless()) ==>
      s.Tireless() && (CheckCapture(tool.lay, c).Pass? && FilesOk(tool.lay, s.dev.sha, c) ==> o.Pass?)
  {
    hide FilesOk, PlanAllowed, Layout.Valid, FullImageWrites;
    s.report := s.report.(journal := s.report.journal.(mode := Some(Mode.Rollback)));
    :- CheckCapture(tool.lay, c);
    :- CheckFiles(tool.lay, s.dev.sha, c);
    :- s.Save();
    var writes;
    o, writes := RollbackWrites(tool.lay);
    o := Recheck(tool.lay, writes, false);
    s.report := s.report.(plan := writes);
    o := s.Save();
  }

  /** Stopping before the first write leaves nothing behind. */
  lemma NotBegun(lay: Layout, sha: Hash, faithful: bool, c: Capture, a: Snap, b: Snap)
    requires lay.Valid() && |a.disk| == lay.diskBytes && b.disk == a.disk && OnlyReads(a.log, b.log)
    requires NoClaims(b)
    ensures forall o: Outcome :: o.Stopped? && o.why !in {ReadbackDiffers, ProtectedChanged} ==>
              RollbackEnd(lay, sha, faithful, c, false, a, b, o)
  {
  }

  lemma OtherIff(lay: Layout, sha: Hash, d: Bytes, c: Capture, state: map<PartName, PartState>)
    requires lay.Valid() && |d| == lay.diskBytes && CheckCapture(lay, c).Pass? && FilesOk(lay, sha, c)
    requires StatesOf(lay, sha, d, c, state)
    ensures (exists n :: n in state && state[n].OtherContent?) <==> !Acceptable(lay, sha, d, c)
  {
    hide Classify;
  }

  /** Writes the four saved partitions back, reads them back and closes. */
  method RollbackWriting(s: Session, tool: Tool, c: Capture, inv: seq<Reading>, powerAfter: Option<PowerState>,
                         ghost a: Snap) returns (o: Outcome)
    requires Ready(s, tool) && |a.disk| == tool.lay.diskBytes && Acceptable(tool.lay, s.dev.sha, a.disk, c)
    requires s.dev.disk[..] == a.disk && OnlyReads(a.log, s.dev.log)
    requires NoClaims(s.Now())
    requires inv == Invariants(s.dev.sha, tool.lay, a.disk, false)
    modifies s, s.dev, s.dev.disk
    ensures RollbackEnd(tool.lay, s.dev.sha, s.dev.Faithful(), c, true, a, s.Now(), o)
    ensures PowerIs(s.dev.log, |a.log|, powerAfter.GetOr(Reset))
    ensures o.Pass? ==> s.report.power == Some(powerAfter.GetOr(Reset))
    ensures old(s.Tireless()) && s.dev.Faithful() && (forall f :: f in old(s.capture.files) ==> f.suffix == Plain) ==>
      o.Pass?
  {
    hide Invariants, FilesOk, Classify, WorkOk, PhaseEnd, Closed, RollbackEnd, Layout.Valid, GuardAccepts, AllReadBack,
         PowerIs, Powered;
    ghost var lay, sha, faithful := tool.lay, s.dev.sha, s.dev.Faithful();
    ghost var b := s.Now();
    RollbackFacts(lay, sha, c);
    var orders := RollbackOrders(tool.lay, c);
    o := WriteAndReadBack(s, tool.lay, orders, Guarded(false), a.disk);
    ghost var e := s.Now();
    UnpoweredIs(e.log, |b.log|, powerAfter.GetOr(Reset));
    ReadsPowerIs(a.log, b.log, e.log, powerAfter.GetOr(Reset));
    RollbackPhase(lay, sha, faithful, c, a, b, e, o);
    if o.Stopped? { return; }
    o := Close(s, tool, false, inv, powerAfter.GetOr(Reset), AfterRun);
    LaterPowerIs(a.log, e.log, s.dev.log, powerAfter.GetOr(Reset));
    RollbackClosed(lay, sha, faithful, c, a, b, e, s.Now(), o);
  }

  lemma RollbackFacts(lay: Layout, sha: Hash, c: Capture)
    requires lay.Valid() && c.manifest.Some? && FilesOk(lay, sha, c)
    ensures forall n :: Updatable(n) ==> FileName(Part(n), Plain) in c.files && Part(n) in c.manifest.value.backups
    ensures var os := RollbackOrders(lay, c);
            && OrdersFit(os, lay.diskBytes) && TagsDiffer(os) && PairwiseDisjoint(OrderRegions(os))
              && DigestsRight(sha, os)
            && (forall k :: 0 <= k < |os| ==> GuardAccepts(lay, Guarded(false), os[k]))
  {
    RollbackWorkOk(lay, sha, c);
  }

  lemma RollbackPhase(lay: Layout, sha: Hash, faithful: bool, c: Capture, a: Snap, b: Snap, e: Snap, o: Outcome)
    requires lay.Valid() && |a.disk| == |e.disk| == lay.diskBytes && b.disk == a.disk && Acceptable(lay, sha, a.disk, c)
    requires FilesOk(lay, sha, c) && NoClaims(b)
    requires OnlyReads(a.log, b.log)
    requires OrdersFit(RollbackOrders(lay, c), lay.diskBytes)
      && PhaseEnd(lay, sha, faithful, a.disk, RollbackOrders(lay, c), b, e, o)
    ensures e.report.invariantsUnchanged.None? && e.report.power.None? && NoClaims(e)
    ensures faithful ==> Invariants(sha, lay, e.disk, false) == Invariants(sha, lay, a.disk, false)
    ensures o.Pass? ==> e.capture.files == b.capture.files
    ensures |a.log| <= |e.log| && !Powered(e.log, |a.log|)
    ensures o.Stopped? ==> RollbackEnd(lay, sha, faithful, c, true, a, e, o)
  {
    RollbackWorkOk(lay, sha, c);
    PhaseUnpowered(a.log, b, e, RollbackOrders(lay, c));
    UnpoweredLast(|a.log|, e);
    hide OnlyReads, OnlyThese, Powered, PowerLast, WorkOk;
    hide Classify, FilesOk, AllReadBack, Safe;
    FullImageWritesAllowed(lay);
    if faithful { InvariantsUnchanged(sha, lay, FullImageWrites(lay), false, a.disk, e.disk); }
    if faithful { RollbackDigests(lay, sha, c); }
  }

  lemma RollbackDigests(lay: Layout, sha: Hash, c: Capture)
    requires lay.Valid() && c.manifest.Some? && FilesOk(lay, sha, c)
    ensures DigestsRight(sha, RollbackOrders(lay, c))
  {
    RollbackWorkOk(lay, sha, c);
  }

  lemma RollbackClosed(lay: Layout, sha: Hash, faithful: bool, c: Capture, a: Snap, b: Snap, e: Snap, g: Snap,
                       o: Outcome)
    requires lay.Valid() && |a.disk| == |e.disk| == lay.diskBytes && b.disk == a.disk && Acceptable(lay, sha, a.disk, c)
    requires FilesOk(lay, sha, c) && |a.log| <= |e.log| && !Powered(e.log, |a.log|) && NoClaims(e)
    requires OrdersFit(RollbackOrders(lay, c), lay.diskBytes)
      && PhaseEnd(lay, sha, faithful, a.disk, RollbackOrders(lay, c), b, e, Pass)
    requires faithful ==> Invariants(sha, lay, e.disk, false) == Invariants(sha, lay, a.disk, false)
    requires Closed(Invariants(sha, lay, e.disk, false) == Invariants(sha, lay, a.disk, false), e, g, o)
    ensures |g.disk| == lay.diskBytes && RollbackEnd(lay, sha, faithful, c, true, a, g, o)
  {
    assert c.manifest.Some?;
    hide Invariants, OnlyReads, OnlyThese, Powered, PowerLast, WorkOk, Classify, FilesOk, AllReadBack, Safe, Holds,
         Acceptable,
         Layout.Valid, NoClaims, PhaseEnd;
    RollbackWorkOk(lay, sha, c);
    ClosedPowerLast(Invariants(sha, lay, e.disk, false) == Invariants(sha, lay, a.disk, false), |a.log|, e, g, o);
    PhasePassed(lay, sha, faithful, a.disk, RollbackOrders(lay, c), b, e);
    ClosedTruthful(lay, sha, c, a.disk, e, g, o);
    hide RollbackTruthful, RollbackOrders, FullImageWrites, SameOutside;
  }

  lemma PhasePassed(lay: Layout, sha: Hash, faithful: bool, d0: Bytes, orders: seq<Order>, b: Snap, e: Snap)
    requires lay.Valid() && |b.disk| == |e.disk| == |d0| == lay.diskBytes && OrdersFit(orders, |d0|)
    requires PhaseEnd(lay, sha, faithful, d0, orders, b, e, Pass)
    ensures AllReadBack(sha, e.disk, orders)
    ensures faithful ==> SameOutside(b.disk, e.disk, OrderRegions(orders)) && Holds(b.disk, e.disk, Patches(orders))
  {
  }

  /** Closing claims only what was read back and compared. */
  lemma ClosedTruthful(lay: Layout, sha: Hash, c: Capture, d0: Bytes, e: Snap, g: Snap, o: Outcome)
    requires lay.Valid() && |d0| == |e.disk| == lay.diskBytes && Acceptable(lay, sha, d0, c) && NoClaims(e)
    requires c.manifest.Some? && FilesOk(lay, sha, c) && AllReadBack(sha, e.disk, RollbackOrders(lay, c))
    requires Closed(Invariants(sha, lay, e.disk, false) == Invariants(sha, lay, d0, false), e, g, o)
    ensures |g.disk| == lay.diskBytes && RollbackTruthful(lay, sha, c, true, d0, g.disk, g.report)
    ensures g.capture.report.Some? ==> RollbackTruthful(lay, sha, c, true, d0, g.disk, g.capture.report.value)
  {
    hide Invariants, OnlyReads, FilesOk, AllReadBack, Acceptable, Layout.Valid, RollbackOrders;
  }

  /** A partition whose bytes are neither the saved ones nor any the update can
      have left is not overwritten: on any device the rollback stops having only read. */
  lemma ForeignNotOverwritten(lay: Layout, sha: Hash, faithful: bool, c: Capture, begun: bool, a: Snap, b: Snap,
                              o: Outcome, n: PartName)
    requires lay.Valid() && |a.disk| == |b.disk| == lay.diskBytes && RollbackEnd(lay, sha, faithful, c, begun, a, b, o)
    requires Updatable(n) && lay.parts(n).Within(|a.disk|)
    requires c.manifest.Some? && c.report.Some? && FilesOk(lay, sha, c) ==>
      var part := Slice(a.disk, lay.parts(n)); var writes := c.report.value.journal.writes;
      && sha(part) != c.manifest.value.backups[Part(n)]
      && (Part(n) in writes && writes[Part(n)].attempted ==>
            var e := writes[Part(n)];
            && e.verified
            && (e.region.sectors == 0 || !IsHead(sha, part, Image([], e.region.sectors * SECTOR, e.expected))))
    ensures !begun && o.Stopped? && b.disk == a.disk && OnlyReads(a.log, b.log) && NoClaims(b)
  {
    hide RollbackTruthful, PowerLast;
  }

  // ---- the theorem ----

  /** What any kind of run of the phone between update and rollback may do: it
      leaves the four image partitions alone and still passes the pre-checks. */
  ghost predicate Lived(tool: Tool, sha: Hash, kit: Option<Kit>, d1: Bytes, d2: Bytes)
    requires tool.lay.Valid() && |d1| == tool.lay.diskBytes
  {
    && |d2| == |d1| && PreCheckOk(tool, sha, kit, d2)
    && forall n :: Updatable(n) ==>
      tool.lay.parts(n).Within(|d1|) && Slice(d2, tool.lay.parts(n)) == Slice(d1, tool.lay.parts(n))
  }

  /** Readiness only looks at the four partitions. */
  lemma LivedStillReady(tool: Tool, sha: Hash, kit: Option<Kit>, d0: Bytes, d1: Bytes, d2: Bytes, c: Capture)
    requires tool.lay.Valid() && |d0| == |d1| == |d2| == tool.lay.diskBytes
    requires RollbackReady(tool.lay, sha, d0, d1, c) && Lived(tool, sha, kit, d1, d2)
    ensures RollbackReady(tool.lay, sha, d0, d2, c)
  {
    var lay, j := tool.lay, c.report.value.journal;
    hide PreCheckOk, SnapshotOf;
    forall n | Updatable(n) ensures Accounted(lay, sha, d0, d2, j, n) {
      assert Accounted(lay, sha, d0, d1, j, n);
      if Part(n) in j.writes && HeadEntry(lay, n, j.writes[Part(n)]) {
        SliceInside(d1, d2, lay.parts(n), j.writes[Part(n)].region);
      }
    }
  }

  /** A passed rollback over `d2` has put `d0`'s four partitions back and kept
      everything else of `d2`; over an undisturbed disk that is all of `d0`. */
  lemma RollbackRestores(lay: Layout, sha: Hash, d0: Bytes, d2: Bytes, d3: Bytes, c: Capture)
    requires lay.Valid() && |d0| == |d2| == lay.diskBytes
    requires SnapshotOf(lay, sha, d0, c) && FilesOk(lay, sha, c)
    requires forall n :: Updatable(n) ==> FileName(Part(n), Plain) in c.files && Part(n) in c.manifest.value.backups
    requires Holds(d2, d3, Patches(RollbackOrders(lay, c)))
    ensures forall n :: Updatable(n) ==> lay.parts(n).Within(|d3|) && Slice(d3, lay.parts(n)) == Slice(d0, lay.parts(n))
    ensures SameOutside(d2, d3, WriteRegions(FullImageWrites(lay)))
    ensures SameOutside(d0, d2, WriteRegions(FullImageWrites(lay))) ==> d3 == d0
  {
    var os, ps, rs := RollbackOrders(lay, c), Patches(RollbackOrders(lay, c)), WriteRegions(FullImageWrites(lay));
    RollbackWorkOk(lay, sha, c);
    PartsWithin(lay);
    hide Layout.Valid, WorkOk, FilesOk, SameOutside, SnapshotOf, Holds, RollbackOrders, FullImageWrites;
    assert Regions(ps) == OrderRegions(os);
    HoldsSameOutside(d2, d3, ps);
    SameSize(d2, d3, rs);
    forall k | 0 <= k < 4 ensures Slice(d3, rs[k]) == Slice(d0, rs[k]) { SavedBack(lay, sha, d0, d2, d3, c, k); }
    FourParts(lay, d0, d3);
    if SameOutside(d0, d2, rs) {
      SameOutsideTrans(d0, d2, d3, rs);
      SameEverywhere(d0, d3, rs);
    }
  }

  lemma HoldsSameOutside(d0: Bytes, d: Bytes, ps: seq<Patch>)
    requires Holds(d0, d, ps)
    ensures SameOutside(d0, d, Regions(ps))
  {
  }

  lemma SavedBack(lay: Layout, sha: Hash, d0: Bytes, d2: Bytes, d3: Bytes, c: Capture, k: nat)
    requires lay.Valid() && |d0| == |d2| == |d3| == lay.diskBytes && k < 4
    requires SnapshotOf(lay, sha, d0, c)
    requires forall n :: Updatable(n) ==> FileName(Part(n), Plain) in c.files && Part(n) in c.manifest.value.backups
    requires Holds(d2, d3, Patches(RollbackOrders(lay, c)))
    ensures FullImageWrites(lay)[k].region.Within(lay.diskBytes)
    ensures Slice(d3, FullImageWrites(lay)[k].region) == Slice(d0, FullImageWrites(lay)[k].region)
  {
    PartsWithin(lay);
    hide Layout.Valid, SameOutside;
    var os, ps := RollbackOrders(lay, c), Patches(RollbackOrders(lay, c));
    assert ps[k] == Patch(os[k].region, os[k].payload);
  }

  lemma FourParts(lay: Layout, d0: Bytes, d: Bytes)
    requires |d| == |d0| && forall n :: lay.parts(n).Within(|d0|)
    requires forall k :: 0 <= k < 4 ==>
      Slice(d, WriteRegions(FullImageWrites(lay))[k]) == Slice(d0, WriteRegions(FullImageWrites(lay))[k])
    ensures forall n :: Updatable(n) ==> Slice(d, lay.parts(n)) == Slice(d0, lay.parts(n))
  {
    var rs := WriteRegions(FullImageWrites(lay));
    forall n | Updatable(n) ensures Slice(d, lay.parts(n)) == Slice(d0, lay.parts(n)) {
      assert rs[if n.Boot? then 0 else if n.Dtbo? then 1 else if n.Vendor? then 2 else 3] == lay.parts(n);
    }
  }
}
