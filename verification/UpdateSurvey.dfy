// Everything run_update does before its first write: payloads, compatibility,
// plan, device checks, snapshot or head hashes, the decision to go on, and the
// manifest (RomUpdateEngineV1.load_payloads and run_update up to the writes).

module UpdateSurvey {
  import opened Options
  import opened Disk
  import opened Outcomes
  import opened Layout
  import opened UpdateLayout
  import opened Streams
  import opened Devices
  import opened Sessions
  import opened Survey
  import Compat

  /** What one call of run_update is given. */
  datatype Job = Job(
    images: map<PartName, Image>,
    prev: map<PartName, Image>,
    prevCompat: Compat.Build,
    nextCompat: Compat.Build,
    kit: Option<Kit>,
    mode: Mode,
    snapshot: bool,
    userdataFull: bool,
    reflash: bool,
    powerAfter: Option<PowerState>,
    wipe: bool)

  /** Which flags go together: a rehearsal saves snapshots; without them nothing is
      rehearsed and no userdata is copied; a wiping update saves none. */
  function CheckPolicy(job: Job): (o: Outcome)
    ensures o.Pass? <==>
      && (job.mode.Update? || (job.mode.BackupOnly? && job.snapshot))
      && (job.userdataFull ==> job.snapshot)
      && (job.mode.Update? && job.wipe ==> !job.snapshot)
    ensures o.Stopped? ==> o.why == PolicyRefused
  {
    if job.mode.Rollback? then Stopped(PolicyRefused)
    else if !job.snapshot && (!job.mode.Update? || job.userdataFull) then Stopped(PolicyRefused)
    else if job.wipe && job.mode.Update? && job.snapshot then Stopped(PolicyRefused)
    else Pass
  }

  /** The new build may follow the old one, with the data kept or wiped. */
  ghost predicate Permitted(job: Job) {
    Compat.NotOlder(job.prevCompat, job.nextCompat)
    && if job.wipe then Compat.WipeBootable(job.nextCompat) else Compat.SameData(job.prevCompat, job.nextCompat)
  }

  // ---- payloads ----

  ghost predicate PayloadsOk(sha: Hash, images: map<PartName, Image>) {
    && (forall n :: n in images <==> Updatable(n))
    && (forall n :: n in images ==>
      |images[n].content| == images[n].nbytes && sha(images[n].content) == images[n].digest)
  }

  method LoadPayloads(sha: Hash, images: map<PartName, Image>) returns (o: Outcome)
    ensures o.Pass? <==> PayloadsOk(sha, images)
    ensures o.Stopped? ==> o.why in {ImagesIncomplete, PayloadDiffers}
  {
    UpdatableIsImageOrder();
    var all := set n | n in IMAGE_ORDER;
    if images.Keys != all {
      assert exists n :: n in images.Keys <==> n !in all;
      return Stopped(ImagesIncomplete);
    }
    for k := 0 to |IMAGE_ORDER|
      invariant forall i :: 0 <= i < k ==> var n := IMAGE_ORDER[i];
        n in images && |images[n].content| == images[n].nbytes && sha(images[n].content) == images[n].digest
    {
      var name := IMAGE_ORDER[k];
      assert name in IMAGE_ORDER && name in images;
      var image := images[name];
      if |image.content| != image.nbytes { return Stopped(PayloadDiffers); }
      var stream := FileStream(image.content, image.nbytes);
      var digest := HashStream(sha, stream);
      assert image.content[..image.nbytes] == image.content;
      if digest != image.digest { return Stopped(PayloadDiffers); }
    }
    forall n | n in images
      ensures |images[n].content| == images[n].nbytes && sha(images[n].content) == images[n].digest {
      var i :| 0 <= i < |IMAGE_ORDER| && IMAGE_ORDER[i] == n;
    }
    o := Pass;
  }

  // ---- the plan ----

  function Sizes(images: map<PartName, Image>): map<PartName, int> { map n | n in images :: images[n].nbytes }

  /** The plan before unchanged partitions are dropped. */
  function PlannedWrites(lay: Layout, job: Job): seq<Write>
    requires forall n :: n in IMAGE_ORDER ==> n in job.images
  {
    ImageWrites(lay, Sizes(job.images)) + if job.wipe then ZeroWrites(lay) else []
  }

  /** What the offline checks ask of a job. */
  ghost predicate OfflineOk(lay: Layout, sha: Hash, job: Job) {
    && CheckPolicy(job).Pass? && Permitted(job) && PayloadsOk(sha, job.images)
    && forall n :: n in IMAGE_ORDER ==> n in job.images && Fits(lay, n, job.images[n].nbytes)
  }

  /** Offline checks: nothing here looks at the device. */
  method Offline(s: Session, tool: Tool, job: Job) returns (o: Outcome, writes: seq<Write>)
    requires Ready(s, tool) && s.report == EMPTY_REPORT && s.capture == EMPTY_CAPTURE
    modifies s
    ensures s.capture == EMPTY_CAPTURE.(report := s.capture.report)
    ensures s.report == EMPTY_REPORT.(journal := s.report.journal, plan := s.report.plan)
    ensures s.report.journal
      == (if CheckPolicy(job).Pass? then Journal(Some(job.mode), job.wipe, map[]) else EMPTY_REPORT.journal)
    ensures o.Pass? ==> && CheckPolicy(job).Pass? && Permitted(job) && PayloadsOk(s.dev.sha, job.images)
                        && (forall n :: n in IMAGE_ORDER ==> n in job.images && Fits(tool.lay, n, job.images[n].nbytes))
                        && writes == PlannedWrites(tool.lay, job) && PlanAllowed(tool.lay, writes, job.wipe)
                        && s.report.plan == (if job.mode.Update? then writes else [])
                        && s.capture.report == Some(s.report)
    ensures s.capture.report.Some? ==> s.capture.report.value.journal == s.report.journal
                                       && !s.capture.report.value.readbackVerified
                                       && s.capture.report.value.invariantsUnchanged.None?
                                         && s.capture.report.value.power.None?
    ensures o.Stopped? ==> o.why !in {ReadbackDiffers, ProtectedChanged}
    ensures old(s.Tireless()) ==> s.Tireless() && (OfflineOk(tool.lay, s.dev.sha, job) ==> o.Pass?)
  {
    hide Compat.CompatProblems, Compat.WipeCompat, Compat.NotOlder, Compat.SameData, Compat.WipeBootable,
         PlanAllowed, Fits, PlannedWrites;
    writes := [];
    :- CheckPolicy(job);
    s.report := s.report.(journal := s.report.journal.(mode := Some(job.mode), wipeData := job.wipe));
    :- LoadPayloads(s.dev.sha, job.images);
    var problems := if job.wipe then Compat.WipeCompat(job.prevCompat, job.nextCompat).0
                    else Compat.CompatProblems(job.prevCompat, job.nextCompat);
    :- s.Save();
    Compat.KeepDataIff(job.prevCompat, job.nextCompat);
    Compat.WipeIff(job.prevCompat, job.nextCompat);
    if problems != [] { return Stopped(Incompatible), writes; }
    UpdatableIsImageOrder();
    writes :- PlanImages(tool.lay, job);
    o := Recheck(tool.lay, writes, job.wipe);
    s.report := s.report.(plan := if job.mode.Update? then writes else []);
    :- s.Save();
  }

  /** The plan for the images' sizes. */
  method PlanImages(lay: Layout, job: Job) returns (o: Outcome, writes: seq<Write>)
    requires lay.Valid() && forall n :: n in IMAGE_ORDER ==> n in job.images
    ensures o.Pass? <==> forall n :: n in IMAGE_ORDER ==> Fits(lay, n, job.images[n].nbytes)
    ensures o.Pass? ==> writes == PlannedWrites(lay, job) && PlanAllowed(lay, writes, job.wipe)
    ensures o.Stopped? ==> o.why == DoesNotFit
  {
    hide Fits, PlanAllowed, ImagesInOrder, Layout.Valid;
    var sizes := Sizes(job.images);
    assert forall n :: n in IMAGE_ORDER ==> n in sizes && sizes[n] == job.images[n].nbytes;
    if job.wipe { o, writes := WipeWrites(lay, sizes); } else { o, writes := UpdateWrites(lay, sizes); }
  }

  /** Both plan guards once more; on an accepted plan neither refuses. */
  method Recheck(lay: Layout, writes: seq<Write>, wipe: bool) returns (o: Outcome)
    requires lay.Valid() && PlanAllowed(lay, writes, wipe)
    ensures o.Pass?
  {
    o := CheckUpdatePlan(lay, writes, wipe);
    UpdatePlanIsPlan(lay, writes, wipe);
    o := CheckPlan(lay, writes);
  }

  // ---- snapshot ----

  /** The capture holds the four partitions as they were. */
  ghost predicate CopiesHold(lay: Layout, sha: Hash, d: Bytes, files: map<FileName, Bytes>,
                             backups: map<Label, Digest>) {
    forall n :: Updatable(n) ==>
      && lay.parts(n).Within(|d|)
      && FileName(Part(n), Plain) in files && files[FileName(Part(n), Plain)] == Slice(d, lay.parts(n))
      && Part(n) in backups && backups[Part(n)] == sha(Slice(d, lay.parts(n)))
  }

  /** The first `k` partitions have been read, with these digests. */
  ghost predicate PartsRead(sha: Hash, log0: seq<Event>, log: seq<Event>, lay: Layout, backups: map<Label, Digest>,
                            k: nat) {
    forall i :: 0 <= i < k && i < |IMAGE_ORDER| ==>
      && Part(IMAGE_ORDER[i]) in backups
      && WasRead(sha, log0, log, lay.parts(IMAGE_ORDER[i]), backups[Part(IMAGE_ORDER[i])])
  }

  lemma NoPartsRead(sha: Hash, log: seq<Event>, lay: Layout)
    ensures PartsRead(sha, log, log, lay, map[], 0)
  {
  }

  lemma PartsReadMore(sha: Hash, log0: seq<Event>, log: seq<Event>, lay: Layout, backups: map<Label, Digest>, k: nat,
                      data: Bytes)
    requires k < |IMAGE_ORDER| && |log0| <= |log| && PartsRead(sha, log0, log, lay, backups, k)
    ensures var n := IMAGE_ORDER[k];
      PartsRead(sha, log0, log + [Event.Read(lay.parts(n), data)], lay, backups[Part(n) := sha(data)], k + 1)
  {
    hide WasRead;
    var more := log + [Event.Read(lay.parts(IMAGE_ORDER[k]), data)];
    forall i | 0 <= i < k
      ensures IMAGE_ORDER[i] != IMAGE_ORDER[k]
      ensures WasRead(sha, log0, more, lay.parts(IMAGE_ORDER[i]), backups[Part(IMAGE_ORDER[i])])
    {
      WasReadLater(sha, log0, log, more, lay.parts(IMAGE_ORDER[i]), backups[Part(IMAGE_ORDER[i])]);
    }
    JustRead(sha, log0, log, lay.parts(IMAGE_ORDER[k]), data);
  }

  lemma JustRead(sha: Hash, log0: seq<Event>, log: seq<Event>, r: Region, data: Bytes)
    requires |log0| <= |log|
    ensures WasRead(sha, log0, log + [Event.Read(r, data)], r, sha(data))
  {
    assert ReadAs(sha, (log + [Event.Read(r, data)])[|log|], r, sha(data));
  }

  /** boot and dtbo have been read twice, with the saved digest both times. */
  ghost predicate SmallReadTwice(sha: Hash, log0: seq<Event>, log: seq<Event>, lay: Layout,
                                 backups: map<Label, Digest>) {
    && Part(Boot) in backups && ReadTwiceAs(sha, log0, log, lay.parts(Boot), backups[Part(Boot)])
    && Part(Dtbo) in backups && ReadTwiceAs(sha, log0, log, lay.parts(Dtbo), backups[Part(Dtbo)])
  }

  lemma BothReadTwice(sha: Hash, log0: seq<Event>, mid: seq<Event>, log: seq<Event>, lay: Layout,
                      backups: map<Label, Digest>)
    requires |log0| <= |mid| && OnlyReads(mid, log) && PartsRead(sha, log0, mid, lay, backups, |IMAGE_ORDER|)
    requires Part(Boot) in backups && WasRead(sha, mid, log, lay.parts(Boot), backups[Part(Boot)])
    requires Part(Dtbo) in backups && WasRead(sha, mid, log, lay.parts(Dtbo), backups[Part(Dtbo)])
    ensures SmallReadTwice(sha, log0, log, lay, backups)
  {
    hide WasRead, ReadTwiceAs, OnlyReads;
    assert IMAGE_ORDER[0] == Boot && IMAGE_ORDER[1] == Dtbo;
    WasReadTwice(sha, log0, mid, log, lay.parts(Boot), backups[Part(Boot)]);
    WasReadTwice(sha, log0, mid, log, lay.parts(Dtbo), backups[Part(Dtbo)]);
  }

  /** No file of the capture is a partition's, nor a second read. */
  ghost predicate NoParts(files: map<FileName, Bytes>) {
    forall f :: f in files ==> !f.tag.Part? && f.suffix != SecondRead
  }

  /** Only the copies of the first `k` images have been added. */
  ghost predicate OnlyImages(files0: map<FileName, Bytes>, files: map<FileName, Bytes>, k: nat)
    requires k <= |IMAGE_ORDER|
  {
    forall f :: f in files ==> f in files0 || (f.suffix.Plain? && f.tag.Part? && f.tag.name in IMAGE_ORDER[..k])
  }

  lemma OnlyImagesStart(files: map<FileName, Bytes>)
    ensures OnlyImages(files, files, 0)
  {
  }

  lemma OnlyImagesNext(files0: map<FileName, Bytes>, files: map<FileName, Bytes>, k: nat)
    requires k < |IMAGE_ORDER| && OnlyImages(files0, files, k)
    ensures NoParts(files0) ==> FileName(Part(IMAGE_ORDER[k]), Plain) !in files
  {
    assert IMAGE_ORDER[k] !in IMAGE_ORDER[..k];
  }

  lemma OnlyImagesMore(files0: map<FileName, Bytes>, files: map<FileName, Bytes>, k: nat, data: Bytes)
    requires k < |IMAGE_ORDER| && OnlyImages(files0, files, k)
    ensures OnlyImages(files0, files[FileName(Part(IMAGE_ORDER[k]), Plain) := data], k + 1)
  {
    assert IMAGE_ORDER[..k + 1] == IMAGE_ORDER[..k] + [IMAGE_ORDER[k]];
  }

  lemma OnlyImagesEnd(files0: map<FileName, Bytes>, files: map<FileName, Bytes>)
    requires OnlyImages(files0, files, |IMAGE_ORDER|)
    ensures forall f :: f in files ==> f in files0 || (f.suffix.Plain? && f.tag.Part?)
    ensures NoParts(files0) ==> NoSecondReads(files)
  {
  }

  lemma SecondReadsReady(lay: Layout, sha: Hash, d: Bytes, files: map<FileName, Bytes>, backups: map<Label, Digest>,
                         copies: map<PartName, Bytes>)
    requires CopyHolds(lay, sha, d, files, backups, copies, Boot)
      && CopyHolds(lay, sha, d, files, backups, copies, Dtbo)
    ensures Reads(sha, d, PartWrite(lay, Boot), backups[Part(Boot)])
      && Reads(sha, d, PartWrite(lay, Dtbo), backups[Part(Dtbo)])
  {
  }

  method BackupPartitions(s: Session, lay: Layout)
      returns (o: Outcome, backups: map<Label, Digest>, copies: map<PartName, Bytes>)
    requires forall n :: Updatable(n) ==> lay.parts(n).Within(s.dev.disk.Length)
    modifies s, s.dev
    ensures ReadOnly(old(s.Now()), s.Now())
    ensures o.Pass? ==> CopiesHold(lay, s.dev.sha, s.dev.disk[..], s.capture.files, backups)
    ensures o.Pass? ==> forall n :: Updatable(n) ==> n in copies && copies[n] == Slice(s.dev.disk[..], lay.parts(n))
    ensures o.Pass? ==> SmallReadTwice(s.dev.sha, old(s.dev.log), s.dev.log, lay, backups)
    ensures o.Pass? ==> forall f :: f in s.capture.files ==>
      f in old(s.capture.files) || (f.suffix.Plain? && f.tag.Part?)
    ensures o.Stopped? ==> o.why !in {ReadbackDiffers, ProtectedChanged}
    ensures old(s.Tireless()) ==> s.Tireless()
    ensures old(s.Tireless()) && NoParts(old(s.capture.files)) ==> o.Pass?
  {
    hide ReadOnly, PartsRead, SmallReadTwice, WasRead, OnlyReads, OnlyImages, NoParts, Session.Tireless, Reads,
         NoSecondReads;
    UpdatableIsImageOrder();
    ghost var a := s.Now();
    ReadOnlyRefl(a);
    backups, copies := map[], map[];
    NoPartsRead(s.dev.sha, a.log, lay);
    OnlyImagesStart(a.capture.files);
    for k := 0 to |IMAGE_ORDER|
      invariant PartsRead(s.dev.sha, a.log, s.dev.log, lay, backups, k)
      invariant ReadOnly(a, s.Now()) && s.dev.disk[..] == a.disk
      invariant OnlyImages(a.capture.files, s.capture.files, k) && (old(s.Tireless()) ==> s.Tireless())
      invariant forall i :: 0 <= i < k ==>
        CopyHolds(lay, s.dev.sha, a.disk, s.capture.files, backups, copies, IMAGE_ORDER[i])
    {
      var name := IMAGE_ORDER[k];
      assert name in IMAGE_ORDER;
      ghost var b := s.Now();
      OnlyImagesNext(a.capture.files, s.capture.files, k);
      var data, digest;
      o, data, digest := s.ReadRegion(Part(name), lay.parts(name), Plain);
      ReadOnlyTrans(a, b, s.Now());
      ReadOnlyDisk(b, s.Now());
      if o.Stopped? { return; }
      ReadOnlyLog(a, b);
      OnlyImagesMore(a.capture.files, b.capture.files, k, data);
      PartsReadMore(s.dev.sha, a.log, b.log, lay, backups, k, data);
      backups, copies := backups[Part(name) := digest], copies[name := data];
    }
    forall n | Updatable(n) ensures CopyHolds(lay, s.dev.sha, a.disk, s.capture.files, backups, copies, n) {
      var i :| 0 <= i < |IMAGE_ORDER| && IMAGE_ORDER[i] == n;
    }
    ghost var mid := s.Now();
    assert CopyHolds(lay, s.dev.sha, a.disk, s.capture.files, backups, copies, Boot);
    assert CopyHolds(lay, s.dev.sha, a.disk, s.capture.files, backups, copies, Dtbo);
    OnlyImagesEnd(a.capture.files, s.capture.files);
    SecondReadsReady(lay, s.dev.sha, a.disk, s.capture.files, backups, copies);
    o := SecondReads(s, lay, backups);
    ReadOnlyLog(a, mid);
    ReadOnlyLog(mid, s.Now());
    if o.Pass? { BothReadTwice(s.dev.sha, a.log, mid.log, s.dev.log, lay, backups); }
    ReadOnlyTrans(a, mid, s.Now());
    KeptCopies(lay, s.dev.sha, mid, s.Now(), backups, copies);
  }

  ghost predicate CopyHolds(lay: Layout, sha: Hash, d: Bytes, files: map<FileName, Bytes>, backups: map<Label, Digest>,
                            copies: map<PartName, Bytes>, n: PartName) {
    && lay.parts(n).Within(|d|)
    && FileName(Part(n), Plain) in files && files[FileName(Part(n), Plain)] == Slice(d, lay.parts(n))
    && Part(n) in backups && backups[Part(n)] == sha(Slice(d, lay.parts(n)))
    && n in copies && copies[n] == Slice(d, lay.parts(n))
  }

  lemma KeptCopies(lay: Layout, sha: Hash, a: Snap, b: Snap, backups: map<Label, Digest>, copies: map<PartName, Bytes>)
    requires ReadOnly(a, b)
    requires forall n :: Updatable(n) ==> CopyHolds(lay, sha, a.disk, a.capture.files, backups, copies, n)
    ensures b.disk == a.disk && CopiesHold(lay, sha, b.disk, b.capture.files, backups)
    ensures forall n :: Updatable(n) ==>
      n in copies && lay.parts(n).Within(|b.disk|) && copies[n] == Slice(b.disk, lay.parts(n))
  {
    forall n | Updatable(n) ensures CopyHolds(lay, sha, b.disk, b.capture.files, backups, copies, n) {
      assert CopyHolds(lay, sha, a.disk, a.capture.files, backups, copies, n);
    }
  }

  /** One region read again, its copy dropped. */
  method ReadAgain(s: Session, w: Write, digest: Digest) returns (o: Outcome)
    modifies s, s.dev
    ensures ReadOnly(old(s.Now()), s.Now())
    ensures o.Pass? ==> WasRead(s.dev.sha, old(s.dev.log), s.dev.log, w.region, digest)
    ensures o.Pass? ==> s.capture.files == old(s.capture.files)
    ensures o.Stopped? ==> o.why !in {ReadbackDiffers, ProtectedChanged}
    ensures old(s.Tireless()) ==> s.Tireless()
    ensures old(s.Tireless()) && NoSecondReads(old(s.capture.files)) && Reads(s.dev.sha, s.dev.disk[..], w, digest) ==>
      o.Pass?
  {
    var _, again :- s.ReadRegion(w.tag, w.region, SecondRead);
    s.Remove(FileName(w.tag, SecondRead));
    if again != digest { return Stopped(UnstableRead); }
    assert ReadAs(s.dev.sha, s.dev.log[|s.dev.log| - 1], w.region, digest);
    o := Pass;
  }

  /** The region is on the disk and has this digest. */
  ghost predicate Reads(sha: Hash, d: Bytes, w: Write, digest: Digest) {
    w.region.Within(|d|) && sha(Slice(d, w.region)) == digest
  }

  ghost predicate NoSecondReads(files: map<FileName, Bytes>) { forall f :: f in files ==> f.suffix != SecondRead }

  /** boot and dtbo are read again; an unstable transfer stops the run. */
  method SecondReads(s: Session, lay: Layout, backups: map<Label, Digest>) returns (o: Outcome)
    requires Part(Boot) in backups && Part(Dtbo) in backups
    modifies s, s.dev
    ensures ReadOnly(old(s.Now()), s.Now())
    ensures o.Pass? ==> && WasRead(s.dev.sha, old(s.dev.log), s.dev.log, lay.parts(Boot), backups[Part(Boot)])
                        && WasRead(s.dev.sha, old(s.dev.log), s.dev.log, lay.parts(Dtbo), backups[Part(Dtbo)])
    ensures o.Pass? ==> s.capture.files == old(s.capture.files)
    ensures o.Stopped? ==> o.why !in {ReadbackDiffers, ProtectedChanged}
    ensures old(s.Tireless()) ==> s.Tireless()
    ensures (&& old(s.Tireless()) && NoSecondReads(old(s.capture.files))
             && Reads(s.dev.sha, s.dev.disk[..], PartWrite(lay, Boot), backups[Part(Boot)])
             && Reads(s.dev.sha, s.dev.disk[..], PartWrite(lay, Dtbo), backups[Part(Dtbo)])) ==> o.Pass?
  {
    hide ReadOnly, WasRead, OnlyReads, Reads, NoSecondReads, Session.Tireless;
    ghost var a := s.Now();
    o := ReadAgain(s, PartWrite(lay, Boot), backups[Part(Boot)]);
    ReadOnlyDisk(a, s.Now());
    if o.Stopped? { return; }
    ghost var b := s.Now();
    o := ReadAgain(s, PartWrite(lay, Dtbo), backups[Part(Dtbo)]);
    ReadOnlyTrans(a, b, s.Now());
    ReadOnlyLog(a, b);
    ReadOnlyLog(b, s.Now());
    if o.Stopped? { return; }
    WasReadLater(s.dev.sha, a.log, b.log, s.dev.log, lay.parts(Boot), backups[Part(Boot)]);
    WasReadLonger(s.dev.sha, a.log, b.log, s.dev.log, lay.parts(Dtbo), backups[Part(Dtbo)]);
  }

  // ---- go on? ----

  predicate SameImage(a: Image, b: Image) { a.nbytes == b.nbytes && a.digest == b.digest }

  /** Only the previous build may be updated; with reflash also the new one. A
      partition identical in both kits says nothing about which build it is. */
  function Decide(images: map<PartName, Image>, prev: map<PartName, Image>, reflash: bool,
                  state: map<PartName, Build>): (o: Outcome)
    requires forall n :: n in state ==> n in images && n in prev
    ensures o.Stopped? ==> o.why in {AlreadyInstalled, UnexpectedBuild}
  {
    var telling := set n | n in state && !SameImage(images[n], prev[n]) :: state[n];
    var builds := set n | n in state :: state[n];
    if telling == {New} && !reflash then Stopped(AlreadyInstalled)
    else if !reflash && builds != {Prev} then Stopped(UnexpectedBuild)
    else if reflash && !(builds <= {Prev, New}) then Stopped(UnexpectedBuild)
    else Pass
  }

  lemma DecideIff(images: map<PartName, Image>, prev: map<PartName, Image>, reflash: bool, state: map<PartName, Build>)
    requires forall n :: n in state <==> Updatable(n)
    requires forall n :: n in state ==> n in images && n in prev
    ensures Decide(images, prev, reflash, state).Pass? <==>
              forall n :: n in state ==> state[n] == Prev || (reflash && state[n] == New)
  {
    var telling := set n | n in state && !SameImage(images[n], prev[n]) :: state[n];
    var builds := set n | n in state :: state[n];
    assert state[Boot] in builds;
    assert forall n :: n in state ==> state[n] in builds;
    if forall n :: n in state ==> state[n] == Prev {
      assert builds == {Prev};
      assert New !in telling;
      assert telling != {New} by { assert New in {New}; }
    }
  }

  // ---- the whole survey ----

  /** Where the old contents can be read back from. */
  ghost predicate SnapshotOf(lay: Layout, sha: Hash, d: Bytes, c: Capture) {
    && c.manifest.Some? && c.manifest.value.kind == UpdateSnapshot
    && CopiesHold(lay, sha, d, c.files, c.manifest.value.backups)
    && forall n :: Updatable(n) ==>
      Part(n) in c.manifest.value.layout && c.manifest.value.layout[Part(n)] == lay.parts(n)
  }

  /** What the manifest of a run says, once it is written. */
  ghost predicate Recorded(tool: Tool, sha: Hash, d: Bytes, job: Job, c: Capture)
    requires tool.lay.Valid() && |d| == tool.lay.diskBytes
  {
    && c.manifest.Some? && c.manifest.value.wipeData == job.wipe
    && PreCheckOk(tool, sha, job.kit, d)
    && (if job.snapshot then SnapshotOf(tool.lay, sha, d, c) else c.manifest.value.kind == UpdateHashes)
    && c.manifest.value.invariantsBefore == Invariants(sha, tool.lay, d, job.wipe)
    && HeadsHashed(tool.lay, sha, d, job.wipe, c.manifest.value.wipeHeadsBefore)
    && (job.userdataFull ==>
          UserdataCopied(tool.lay, sha, d, c.files, c.manifest.value.backups, c.manifest.value.layout))
  }

  /** Before a wipe, the digests of the first bytes of metadata and of userdata. */
  ghost predicate HeadsHashed(lay: Layout, sha: Hash, d: Bytes, wipe: bool, hs: seq<Digest>) {
    if !wipe then hs == []
    else
      var m := Region(lay.parts(Metadata).start, lay.metadataHeadZero);
      var u := Region(lay.parts(Userdata).start, lay.userdataHeadZero);
      m.Within(|d|) && u.Within(|d|) && hs == [sha(Slice(d, m)), sha(Slice(d, u))]
  }

  /** All of userdata is kept, with its digest and its range. */
  ghost predicate UserdataCopied(lay: Layout, sha: Hash, d: Bytes, files: map<FileName, Bytes>,
                                 backups: map<Label, Digest>, layout: map<Label, Region>) {
    && lay.parts(Userdata).Within(|d|)
    && FileName(UserdataFull, Plain) in files && files[FileName(UserdataFull, Plain)] == Slice(d, lay.parts(Userdata))
    && UserdataFull in backups && backups[UserdataFull] == sha(Slice(d, lay.parts(Userdata)))
    && UserdataFull in layout && layout[UserdataFull] == lay.parts(Userdata)
  }

  function PartLayout(lay: Layout): map<Label, Region> {
    map[Part(Boot) := lay.parts(Boot), Part(Dtbo) := lay.parts(Dtbo), Part(Vendor) := lay.parts(Vendor),
        Part(System) := lay.parts(System)]
  }

  /** Read-only, except that a manifest may have been written. */
  ghost predicate Noted(a: Snap, b: Snap) { ReadOnly(a, b.(capture := b.capture.(manifest := a.capture.manifest))) }

  /** Checks, hashes and copies; `inv` and `state` describe the disk as it is. */
  method Look(s: Session, tool: Tool, job: Job)
      returns (o: Outcome, inv: seq<Reading>, heads: seq<Digest>, backups: map<Label, Digest>,
               state: map<PartName, Build>)
    requires Ready(s, tool) && s.capture.files == map[] && PayloadsOk(s.dev.sha, job.images)
    modifies s, s.dev
    ensures ReadOnly(old(s.Now()), s.Now())
    ensures o.Pass? ==> && PreCheckOk(tool, s.dev.sha, job.kit, s.dev.disk[..])
                        && inv == Invariants(s.dev.sha, tool.lay, s.dev.disk[..], job.wipe)
                        && StateOf(s.dev.sha, tool.lay, s.dev.disk[..], job.prev, job.images, state)
                        && (job.snapshot ==> CopiesHold(tool.lay, s.dev.sha, s.dev.disk[..], s.capture.files, backups))
                        && Identifiable(tool.lay, job)
                        && HeadsHashed(tool.lay, s.dev.sha, s.dev.disk[..], job.wipe, heads)
    ensures o.Pass? ==> OnlyCopies(s.capture.files)
    ensures o.Stopped? ==> o.why !in {ReadbackDiffers, ProtectedChanged}
    ensures old(s.Tireless()) ==> s.Tireless()
    ensures (&& old(s.Tireless()) && PreCheckOk(tool, s.dev.sha, job.kit, s.dev.disk[..])
      && Identifiable(tool.lay, job)) ==> o.Pass?
  {
    hide ReadOnly, PreCheckOk, CopiesHold, Invariants, StateOf, Identifiable, NoParts, NoHeads, OnlyCopies,
         Session.Tireless, HeadsHashed;
    ghost var a := s.Now();
    ReadOnlyRefl(a);
    inv, heads, backups, state := [], [], map[], map[];
    NoHeadsHashed(tool.lay, s.dev.sha, s.dev.disk[..]);
    PartsWithin(tool.lay);
    o := PreChecks(s, tool, job.kit);
    if o.Stopped? { return; }
    ghost var b := s.Now();
    ReadOnlyDisk(a, b);
    TablesOnly(b.capture.files);
    ZeroHeadsWithin(tool.lay);
    o, inv := HashInvariants(s, tool, Before, job.wipe);
    ReadOnlyTrans(a, b, s.Now());
    ReadOnlyDisk(b, s.Now());
    if o.Stopped? { return; }
    if job.wipe {
      b := s.Now();
      o, heads := HashZeroHeads(s, tool.lay);
      ReadOnlyTrans(a, b, s.Now());
      ReadOnlyDisk(b, s.Now());
      if o.Stopped? { return; }
    }
    b := s.Now();
    o, backups, state := IdentifyInstalled(s, tool.lay, job);
    ReadOnlyTrans(a, b, s.Now());
    ReadOnlyDisk(b, s.Now());
    if o.Pass? { CopiesAdded(b.capture.files, s.capture.files); }
  }

  /** The capture holds tables and copies of partitions, nothing else. */
  ghost predicate OnlyCopies(files: map<FileName, Bytes>) {
    forall f :: f in files ==> f.suffix.Plain? && (f.tag.GptPrimary? || f.tag.GptTail? || f.tag.Part?)
  }

  lemma TablesOnly(files: map<FileName, Bytes>)
    requires files.Keys == {FileName(GptPrimary, Plain), FileName(GptTail, Plain)}
    ensures NoParts(files) && NoHeads(files) && OnlyCopies(files) && forall f :: f in files ==> f.suffix.Plain?
    ensures forall t :: FileName(Invariant(t), Before) !in files
  {
    assert forall f :: f in files ==> f in files.Keys;
  }

  lemma CopiesAdded(files0: map<FileName, Bytes>, files: map<FileName, Bytes>)
    requires OnlyCopies(files0) && forall f :: f in files ==> f in files0 || (f.suffix.Plain? && f.tag.Part?)
    ensures OnlyCopies(files)
  {
  }

  /** Both kits' images can be looked for; without a snapshot only in valid lengths. */
  ghost predicate Identifiable(lay: Layout, job: Job) {
    && (forall n :: Updatable(n) ==> n in job.prev)
    && (!job.snapshot ==> LengthsValid(lay, job.prev, job.images))
  }

  /** Which build each partition holds, from saved copies or on the device. */
  method IdentifyInstalled(s: Session, lay: Layout, job: Job)
      returns (o: Outcome, backups: map<Label, Digest>, state: map<PartName, Build>)
    requires forall n :: Updatable(n) ==> n in job.images && lay.parts(n).Within(s.dev.disk.Length)
    modifies s, s.dev
    ensures ReadOnly(old(s.Now()), s.Now())
    ensures o.Pass? ==> && StateOf(s.dev.sha, lay, s.dev.disk[..], job.prev, job.images, state)
                        && (job.snapshot ==> CopiesHold(lay, s.dev.sha, s.dev.disk[..], s.capture.files, backups))
                        && Identifiable(lay, job)
    ensures o.Pass? ==> forall f :: f in s.capture.files ==>
      f in old(s.capture.files) || (f.suffix.Plain? && f.tag.Part?)
    ensures o.Stopped? ==> o.why !in {ReadbackDiffers, ProtectedChanged}
    ensures old(s.Tireless()) ==> s.Tireless()
    ensures (&& old(s.Tireless()) && NoParts(old(s.capture.files)) && NoHeads(old(s.capture.files))
             && Identifiable(lay, job)) ==> o.Pass?
  {
    hide ReadOnly, CopiesHold, NoParts, NoHeads, Session.Tireless;
    backups, state := map[], map[];
    if job.snapshot {
      var copies;
      o, backups, copies := BackupPartitions(s, lay);
      if o.Stopped? { return; }
      o, state := Identify(s.dev.sha, copies, job.prev, job.images);
    } else {
      o, state := IdentifyOnDevice(s, lay, job.prev, job.images);
    }
  }

  lemma PartsWithin(lay: Layout)
    requires lay.Valid()
    ensures forall n :: lay.parts(n).Within(lay.diskBytes)
  {
  }

  lemma ZeroHeadsWithin(lay: Layout)
    requires lay.Valid()
    ensures MetadataHead(lay).Within(lay.diskBytes) && UserdataZeroHead(lay).Within(lay.diskBytes)
  {
    assert lay.parts(Metadata).Within(lay.diskBytes) && lay.parts(Userdata).Within(lay.diskBytes);
  }

  /** What the two ranges that will be zeroed hold now; only their hashes are kept. */
  method HashZeroHeads(s: Session, lay: Layout) returns (o: Outcome, heads: seq<Digest>)
    modifies s, s.dev
    ensures ReadOnly(old(s.Now()), s.Now())
    ensures o.Pass? ==> s.capture.files == old(s.capture.files)
    ensures o.Pass? ==> HeadsHashed(lay, s.dev.sha, s.dev.disk[..], true, heads)
    ensures o.Stopped? ==> o.why !in {ReadbackDiffers, ProtectedChanged}
    ensures old(s.Tireless()) ==> s.Tireless()
    ensures (&& old(s.Tireless()) && MetadataHead(lay).Within(s.dev.disk.Length)
      && UserdataZeroHead(lay).Within(s.dev.disk.Length)
             && (forall f :: f in old(s.capture.files) ==> f.suffix != Before)) ==> o.Pass?
  {
    hide ReadOnly, Session.Tireless;
    heads := [];
    ghost var a := s.Now();
    var metadata, userdata;
    o, metadata := s.HashRegion(MetadataZero, MetadataHead(lay), Before);
    if o.Stopped? { return; }
    ghost var b := s.Now();
    ReadOnlyDisk(a, b);
    o, userdata := s.HashRegion(UserdataZero, UserdataZeroHead(lay), Before);
    ReadOnlyDisk(b, s.Now());
    ReadOnlyTrans(a, b, s.Now());
    heads := [metadata, userdata];
  }

  lemma NoHeadsHashed(lay: Layout, sha: Hash, d: Bytes)
    ensures HeadsHashed(lay, sha, d, false, [])
  {
  }

  /** The phone holds the build the job expects: every partition the previous one,
      or, with reflash, the new one. */
  ghost predicate Expected(lay: Layout, sha: Hash, job: Job, d: Bytes) {
    && Identifiable(lay, job)
    && forall n :: Updatable(n) ==>
         && n in job.prev && n in job.images && lay.parts(n).Within(|d|)
         && (|| IsHead(sha, Slice(d, lay.parts(n)), job.prev[n])
             || (job.reflash && IsHead(sha, Slice(d, lay.parts(n)), job.images[n])))
  }

  /** The job is right and the phone is in the state it expects. */
  ghost predicate Welcome(tool: Tool, sha: Hash, job: Job, d: Bytes)
    requires tool.lay.Valid() && |d| == tool.lay.diskBytes
  {
    OfflineOk(tool.lay, sha, job) && PreCheckOk(tool, sha, job.kit, d) && Expected(tool.lay, sha, job, d)
  }

  lemma ExpectedIdentifiable(lay: Layout, sha: Hash, job: Job, d: Bytes)
    ensures Expected(lay, sha, job, d) ==> Identifiable(lay, job)
  {
  }

  /** On a disk whose builds are known, the decision is to go on exactly then. */
  lemma ExpectedDecides(lay: Layout, sha: Hash, job: Job, d: Bytes, state: map<PartName, Build>)
    requires StateOf(sha, lay, d, job.prev, job.images, state)
    requires forall n :: n in state ==> n in job.images && n in job.prev
    requires forall n :: n in state <==> Updatable(n)
    ensures Expected(lay, sha, job, d) ==> Decide(job.images, job.prev, job.reflash, state).Pass?
    ensures Decide(job.images, job.prev, job.reflash, state).Pass? && Identifiable(lay, job) ==>
      Expected(lay, sha, job, d)
  {
    hide Decide, IsHead, Identifiable;
    DecideIff(job.images, job.prev, job.reflash, state);
  }

  lemma OnlyCopiesPlain(files: map<FileName, Bytes>)
    requires OnlyCopies(files)
    ensures forall f :: f in files ==> f.suffix.Plain?
  {
  }

  /** Decides, copies userdata when asked to, and writes the manifest. */
  method Inspect(s: Session, tool: Tool, job: Job) returns (o: Outcome, inv: seq<Reading>, state: map<PartName, Build>)
    requires Ready(s, tool) && PayloadsOk(s.dev.sha, job.images)
    requires s.capture.files == map[] && s.capture.manifest.None? && s.capture.report.Some?
    modifies s, s.dev
    ensures Noted(old(s.Now()), s.Now())
    ensures s.capture.manifest.Some? ==> && Recorded(tool, s.dev.sha, s.dev.disk[..], job, s.capture)
                                         && Expected(tool.lay, s.dev.sha, job, s.dev.disk[..])
    ensures o.Pass? ==> && s.capture.manifest.Some?
                        && inv == Invariants(s.dev.sha, tool.lay, s.dev.disk[..], job.wipe)
                        && StateOf(s.dev.sha, tool.lay, s.dev.disk[..], job.prev, job.images, state)
                        && Decide(job.images, job.prev, job.reflash, state).Pass?
    ensures o.Pass? ==> forall f :: f in s.capture.files ==> f.suffix.Plain?
    ensures o.Stopped? ==> o.why !in {ReadbackDiffers, ProtectedChanged}
    ensures old(s.Tireless()) ==> s.Tireless()
    ensures (&& old(s.Tireless()) && PreCheckOk(tool, s.dev.sha, job.kit, s.dev.disk[..])
             && Expected(tool.lay, s.dev.sha, job, s.dev.disk[..])) ==> o.Pass?
  {
    hide ReadOnly, PreCheckOk, CopiesHold, Invariants, StateOf, PayloadsOk, Decide, Expected, OnlyCopies, Identifiable,
         HeadsHashed, UserdataCopied, Recorded;
    PartsWithin(tool.lay);
    ghost var a := s.Now();
    var backups, heads;
    ExpectedIdentifiable(tool.lay, s.dev.sha, job, s.dev.disk[..]);
    o, inv, heads, backups, state := Look(s, tool, job);
    ghost var b := s.Now();
    ReadOnlyDisk(a, b);
    if o.Stopped? { ReadOnlyNoted(a, b); return; }
    o := s.Save();
    SavedReadOnly(a, b, s.Now());
    ReadOnlyNoted(a, s.Now());
    if o.Stopped? { return; }
    StateComplete(s.dev.sha, tool.lay, s.dev.disk[..], job.prev, job.images, state);
    ExpectedDecides(tool.lay, s.dev.sha, job, s.dev.disk[..], state);
    o := Decide(job.images, job.prev, job.reflash, state);
    if o.Stopped? { return; }
    OnlyCopiesPlain(s.capture.files);
    ghost var c := s.Now();
    var layout;
    o, backups, layout := CopyUserdata(s, tool.lay, job.userdataFull, backups);
    ReadOnlyTrans(a, c, s.Now());
    ReadOnlyDisk(a, s.Now());
    ReadOnlyNoted(a, s.Now());
    if o.Stopped? { return; }
    o := Record(s, tool, job, inv, heads, backups, layout, a);
  }

  /** The optional full copy of userdata. */
  method CopyUserdata(s: Session, lay: Layout, wanted: bool, backups0: map<Label, Digest>)
      returns (o: Outcome, backups: map<Label, Digest>, layout: map<Label, Region>)
    modifies s, s.dev
    ensures ReadOnly(old(s.Now()), s.Now())
    ensures CopiesHold(lay, s.dev.sha, old(s.dev.disk[..]), old(s.capture.files), backups0) ==>
              CopiesHold(lay, s.dev.sha, s.dev.disk[..], s.capture.files, backups)
    ensures forall n :: Updatable(n) ==> Part(n) in layout && layout[Part(n)] == lay.parts(n)
    ensures o.Pass? && wanted ==> UserdataCopied(lay, s.dev.sha, s.dev.disk[..], s.capture.files, backups, layout)
    ensures o.Pass? ==> forall f :: f in s.capture.files ==> f in old(s.capture.files) || f.suffix.Plain?
    ensures o.Stopped? ==> o.why !in {ReadbackDiffers, ProtectedChanged}
    ensures old(s.Tireless()) ==> s.Tireless()
    ensures old(s.Tireless()) && OnlyCopies(old(s.capture.files)) && lay.parts(Userdata).Within(s.dev.disk.Length) ==>
      o.Pass?
  {
    hide ReadOnly, CopiesHold, Session.Tireless;
    ghost var a := s.Now();
    ReadOnlyRefl(a);
    backups, layout := backups0, PartLayout(lay);
    o := Pass;
    if wanted {
      var data, digest;
      o, data, digest := s.ReadRegion(UserdataFull, lay.parts(Userdata), Plain);
      KeptBackups(lay, s.dev.sha, a, s.Now(), backups, UserdataFull, digest);
      if o.Stopped? { return; }
      backups, layout := backups[UserdataFull := digest], layout[UserdataFull := lay.parts(Userdata)];
    }
  }

  /** Writes the manifest, then the report that says so. */
  method Record(s: Session, tool: Tool, job: Job, inv: seq<Reading>, heads: seq<Digest>,
                backups: map<Label, Digest>, layout: map<Label, Region>, ghost a: Snap)
      returns (o: Outcome)
    requires Ready(s, tool) && ReadOnly(a, s.Now()) && a.capture.manifest.None?
    requires PreCheckOk(tool, s.dev.sha, job.kit, s.dev.disk[..])
    requires job.snapshot ==> CopiesHold(tool.lay, s.dev.sha, s.dev.disk[..], s.capture.files, backups)
    requires forall n :: Updatable(n) ==> Part(n) in layout && layout[Part(n)] == tool.lay.parts(n)
    requires inv == Invariants(s.dev.sha, tool.lay, s.dev.disk[..], job.wipe)
    requires HeadsHashed(tool.lay, s.dev.sha, s.dev.disk[..], job.wipe, heads)
    requires job.userdataFull ==>
      UserdataCopied(tool.lay, s.dev.sha, s.dev.disk[..], s.capture.files, backups, layout)
    modifies s
    ensures Noted(a, s.Now())
    ensures s.capture.manifest.Some? ==> Recorded(tool, s.dev.sha, s.dev.disk[..], job, s.capture)
    ensures o.Pass? ==> s.capture.manifest.Some?
    ensures s.capture.files == old(s.capture.files)
    ensures o.Stopped? ==> o.why == CaptureFailed
    ensures old(s.Tireless()) ==> s.Tireless() && o.Pass?
  {
    hide ReadOnly, PreCheckOk, CopiesHold, Invariants, HeadsHashed, UserdataCopied;
    ghost var e := s.Now();
    ReadOnlyDisk(a, e);
    var kind := if job.snapshot then UpdateSnapshot else UpdateHashes;
    o := s.WriteManifest(Manifest(kind, backups, layout, job.wipe, inv, heads));
    ReadOnlyNoted(a, e);
    if o.Stopped? { return; }
    s.report := s.report.(backupComplete := job.snapshot);
    o := s.Save();
    ReadOnlySaveNoted(a, e, s.Now());
  }

  lemma StateComplete(sha: Hash, lay: Layout, d: Bytes, prev: map<PartName, Image>, next: map<PartName, Image>,
                      state: map<PartName, Build>)
    requires StateOf(sha, lay, d, prev, next, state)
    ensures forall n :: n in state <==> Updatable(n)
    ensures forall n :: n in state ==> n in prev && n in next
  {
  }

  lemma KeptBackups(lay: Layout, sha: Hash, a: Snap, b: Snap, backups: map<Label, Digest>, extra: Label, digest: Digest)
    requires ReadOnly(a, b) && !extra.Part?
    ensures CopiesHold(lay, sha, a.disk, a.capture.files, backups) ==>
              CopiesHold(lay, sha, b.disk, b.capture.files, backups)
                && CopiesHold(lay, sha, b.disk, b.capture.files, backups[extra := digest])
  {
  }

  lemma ReadOnlyNoted(a: Snap, b: Snap)
    requires ReadOnly(a, b)
    ensures Noted(a, b)
  {
    assert b.capture.(manifest := a.capture.manifest) == b.capture;
  }

  lemma SavedReadOnly(a: Snap, b: Snap, c: Snap)
    requires ReadOnly(a, b) && c.disk == b.disk && c.log == b.log && c.report == b.report
    requires c.capture == b.capture.(report := c.capture.report)
    requires c.capture.report == b.capture.report || c.capture.report == Some(c.report)
    ensures ReadOnly(a, c)
  {
  }

  lemma ReadOnlySaveNoted(a: Snap, b: Snap, c: Snap)
    requires ReadOnly(a, b) && c.disk == b.disk && c.log == b.log
    requires c.report == b.report.(backupComplete := c.report.backupComplete)
    requires c.capture == b.capture.(report := c.capture.report, manifest := c.capture.manifest)
    requires c.capture.report == b.capture.report || c.capture.report == Some(c.report)
    ensures Noted(a, c)
  {
  }
}
