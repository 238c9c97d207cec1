// The wipe install (RomFlashEngineV1.run_install): back everything up that the
// install or the ROM may change, then write the images and zero two heads.

module Installs {
  import opened Options
  import opened Disk
  import opened Outcomes
  import opened Layout
  import opened UpdateLayout
  import opened Streams
  import opened Devices
  import opened Sessions
  import opened Survey
  import opened Orders
  import opened Phases
  import opened UpdateSurvey
  import opened UpdateEngine

  datatype InstallJob = InstallJob(
    images: map<PartName, Image>,
    stockPins: map<PartName, Digest>,
    romPins: map<PartName, Digest>,
    kit: Option<Kit>,
    allowNonstock: bool)

  datatype Found = Stock | RomV1 | Unknown

  // ---- payloads ----

  /** The first `nbytes` of the file hash to the image's digest. */
  ghost predicate PayloadOk(sha: Hash, image: Image) {
    0 <= image.nbytes <= |image.content| && sha(image.content[..image.nbytes]) == image.digest
  }

  method CheckPayloads(sha: Hash, images: map<PartName, Image>) returns (o: Outcome)
    ensures o.Pass? <==> forall n :: n in images ==> PayloadOk(sha, images[n])
    ensures o.Stopped? ==> o.why in {PayloadDiffers, StreamBroken}
  {
    for k := 0 to |ALL_PARTS|
      invariant forall i :: 0 <= i < k && ALL_PARTS[i] in images ==> PayloadOk(sha, images[ALL_PARTS[i]])
    {
      var n := ALL_PARTS[k];
      if n in images {
        if images[n].nbytes < 0 { return Stopped(StreamBroken); }
        var stream := FileStream(images[n].content, images[n].nbytes);
        if stream.broken { return Stopped(StreamBroken); }
        var digest := HashStream(sha, stream);
        if digest != images[n].digest { return Stopped(PayloadDiffers); }
      }
    }
    AllPartsListed();
    forall n | n in images ensures PayloadOk(sha, images[n]) {
      assert n in ALL_PARTS;
      var i :| 0 <= i < |ALL_PARTS| && ALL_PARTS[i] == n;
    }
    o := Pass;
  }

  // ---- backups ----

  /** The backup of one region is in the capture and in the digests. */
  ghost predicate CopyOf(sha: Hash, d: Bytes, files: map<FileName, Bytes>, backups: map<Label, Digest>, w: Write) {
    && w.region.Within(|d|)
    && FileName(w.tag, Plain) in files && files[FileName(w.tag, Plain)] == Slice(d, w.region)
    && w.tag in backups && backups[w.tag] == sha(Slice(d, w.region))
  }

  ghost predicate CopiesOf(sha: Hash, d: Bytes, files: map<FileName, Bytes>, backups: map<Label, Digest>,
                           regions: seq<Write>) {
    forall k :: 0 <= k < |regions| ==> CopyOf(sha, d, files, backups, regions[k])
  }

  lemma BackupTagsDiffer(lay: Layout)
    ensures DistinctTags(BackupRegions(lay))
  {
  }

  /** `k` regions are backed up, and of the rest those that were read early. */
  ghost predicate Backing(sha: Hash, d: Bytes, files: map<FileName, Bytes>, backups: map<Label, Digest>,
                          regions: seq<Write>, early: map<Label, Digest>, k: nat) {
    && (forall i :: 0 <= i < k && i < |regions| ==> CopyOf(sha, d, files, backups, regions[i]))
    && (forall t :: t in backups ==> t in early || exists i :: 0 <= i < |regions| && regions[i].tag == t)
    && (forall i :: k <= i < |regions| ==> (regions[i].tag in backups <==> regions[i].tag in early))
    && (forall i :: k <= i < |regions| && regions[i].tag in early ==> CopyOf(sha, d, files, backups, regions[i]))
  }

  lemma BackingRead(sha: Hash, d: Bytes, files: map<FileName, Bytes>, backups: map<Label, Digest>,
                    regions: seq<Write>, early: map<Label, Digest>, k: nat)
    requires DistinctTags(regions) && k < |regions| && Backing(sha, d, files, backups, regions, early, k)
    requires regions[k].region.Within(|d|) && regions[k].tag !in early && FileName(regions[k].tag, Plain) !in files
    ensures var w := regions[k]; var data := Slice(d, w.region);
      Backing(sha, d, files[FileName(w.tag, Plain) := data], backups[w.tag := sha(data)], regions, early, k + 1)
  {
  }

  /** Of the first `k` regions, those not read early have been read since `log0`. */
  ghost predicate ReadOnce(sha: Hash, log0: seq<Event>, log: seq<Event>, regions: seq<Write>,
                           early: map<Label, Digest>, backups: map<Label, Digest>, k: nat) {
    forall i :: 0 <= i < k && i < |regions| && regions[i].tag !in early ==>
      regions[i].tag in backups && WasRead(sha, log0, log, regions[i].region, backups[regions[i].tag])
  }

  lemma ReadOnceMore(sha: Hash, log0: seq<Event>, log: seq<Event>, regions: seq<Write>,
                     early: map<Label, Digest>, backups: map<Label, Digest>, k: nat, data: Bytes)
    requires DistinctTags(regions) && k < |regions| && |log0| <= |log|
    requires ReadOnce(sha, log0, log, regions, early, backups, k)
    ensures ReadOnce(sha, log0, log + [Event.Read(regions[k].region, data)], regions, early,
      backups[regions[k].tag := sha(data)], k + 1)
  {
    hide WasRead;
    var more := log + [Event.Read(regions[k].region, data)];
    forall i | 0 <= i < k && regions[i].tag !in early
      ensures regions[i].tag != regions[k].tag && WasRead(sha, log0, more, regions[i].region, backups[regions[i].tag])
    {
      WasReadLater(sha, log0, log, more, regions[i].region, backups[regions[i].tag]);
    }
    JustRead(sha, log0, log, regions[k].region, data);
  }

  lemma ReadOnceSkip(sha: Hash, log0: seq<Event>, log: seq<Event>, regions: seq<Write>,
                     early: map<Label, Digest>, backups: map<Label, Digest>, k: nat)
    requires k < |regions| && regions[k].tag in early && ReadOnce(sha, log0, log, regions, early, backups, k)
    ensures ReadOnce(sha, log0, log, regions, early, backups, k + 1)
  {
    hide WasRead;
  }

  /** From region `k` on, no region that still has to be read is in the capture. */
  ghost predicate Unread(files: map<FileName, Bytes>, regions: seq<Write>, early: map<Label, Digest>, k: nat) {
    forall i :: k <= i < |regions| && regions[i].tag !in early ==> FileName(regions[i].tag, Plain) !in files
  }

  lemma UnreadNext(files: map<FileName, Bytes>, regions: seq<Write>, early: map<Label, Digest>, k: nat)
    requires k < |regions| && Unread(files, regions, early, k)
    ensures regions[k].tag !in early ==> FileName(regions[k].tag, Plain) !in files
    ensures Unread(files, regions, early, k + 1)
  {
  }

  lemma UnreadMore(files: map<FileName, Bytes>, regions: seq<Write>, early: map<Label, Digest>, k: nat, data: Bytes)
    requires DistinctTags(regions) && k < |regions| && Unread(files, regions, early, k)
    ensures Unread(files[FileName(regions[k].tag, Plain) := data], regions, early, k + 1)
  {
  }

  /** Reads every region that is not backed up yet. */
  method BackupAll(s: Session, regions: seq<Write>, early: map<Label, Digest>)
      returns (o: Outcome, backups: map<Label, Digest>)
    requires DistinctTags(regions) && TagsListed(early, regions)
    requires forall k :: 0 <= k < |regions| && regions[k].tag in early ==>
      CopyOf(s.dev.sha, s.dev.disk[..], s.capture.files, early, regions[k])
    modifies s, s.dev
    ensures ReadOnly(old(s.Now()), s.Now())
    ensures o.Pass? ==> CopiesOf(s.dev.sha, s.dev.disk[..], s.capture.files, backups, regions)
    ensures o.Pass? ==> ReadOnce(s.dev.sha, old(s.dev.log), s.dev.log, regions, early, backups, |regions|)
    ensures o.Pass? ==> TagsListed(backups, regions)
    ensures o.Pass? ==> PlainAdded(old(s.capture.files), s.capture.files)
    ensures o.Stopped? ==> o.why !in {ReadbackDiffers, ProtectedChanged}
    ensures old(s.Tireless()) ==> s.Tireless()
    ensures (&& old(s.Tireless()) && AllWithin(WriteRegions(regions), s.dev.disk.Length)
             && Unread(old(s.capture.files), regions, early, 0)) ==> o.Pass?
  {
    hide ReadOnly, Backing, CopyOf, CopiesOf, TagsListed, DistinctTags, ReadOnce, Unread, PlainAdded, OnlyReads,
         AllWithin,
         WriteRegions, Region.Within, Session.Tireless;
    ghost var a := s.Now();
    ghost var toRead := Unread(a.capture.files, regions, early, 0);
    ReadOnlyRefl(a);
    backups := early;
    BackingStarts(s.dev.sha, a.disk, a.capture.files, a.log, regions, early);
    for k := 0 to |regions|
      invariant ReadOnly(a, s.Now()) && s.dev.disk[..] == a.disk
      invariant Backing(s.dev.sha, a.disk, s.capture.files, backups, regions, early, k)
      invariant ReadOnce(s.dev.sha, a.log, s.dev.log, regions, early, backups, k)
      invariant PlainAdded(a.capture.files, s.capture.files)
      invariant (old(s.Tireless()) ==> s.Tireless()) && (toRead ==> Unread(s.capture.files, regions, early, k))
    {
      if AllWithin(WriteRegions(regions), s.dev.disk.Length) { OneWithin(regions, k, s.dev.disk.Length); }
      o, backups := BackupNext(s, regions, early, backups, k, a);
      if o.Stopped? { return; }
    }
    BackingDone(s.dev.sha, a.disk, s.capture.files, backups, regions, early);
    o := Pass;
  }

  /** One region, unless it was read early. */
  method BackupNext(s: Session, regions: seq<Write>, early: map<Label, Digest>, backups0: map<Label, Digest>, k: nat,
                    ghost a: Snap)
      returns (o: Outcome, backups: map<Label, Digest>)
    requires DistinctTags(regions) && k < |regions| && ReadOnly(a, s.Now()) && s.dev.disk[..] == a.disk
    requires Backing(s.dev.sha, a.disk, s.capture.files, backups0, regions, early, k)
    requires ReadOnce(s.dev.sha, a.log, s.dev.log, regions, early, backups0, k)
    requires PlainAdded(a.capture.files, s.capture.files)
    modifies s, s.dev
    ensures ReadOnly(a, s.Now()) && s.dev.disk[..] == a.disk
    ensures o.Pass? ==> && Backing(s.dev.sha, a.disk, s.capture.files, backups, regions, early, k + 1)
                        && ReadOnce(s.dev.sha, a.log, s.dev.log, regions, early, backups, k + 1)
                        && PlainAdded(a.capture.files, s.capture.files)
                        && (Unread(old(s.capture.files), regions, early, k) ==>
                          Unread(s.capture.files, regions, early, k + 1))
    ensures o.Stopped? ==> o.why !in {ReadbackDiffers, ProtectedChanged}
    ensures old(s.Tireless()) ==> s.Tireless()
    ensures (&& old(s.Tireless()) && regions[k].region.Within(s.dev.disk.Length)
             && Unread(old(s.capture.files), regions, early, k)) ==> o.Pass?
  {
    hide ReadOnly, Backing, CopyOf, DistinctTags, ReadOnce, Unread, PlainAdded, OnlyReads, Session.Tireless;
    ghost var b := s.Now();
    var w := regions[k];
    backups := backups0;
    if Unread(b.capture.files, regions, early, k) { UnreadNext(b.capture.files, regions, early, k); }
    if w.tag in early {
      BackingSkip(s.dev.sha, a.disk, s.capture.files, backups, regions, early, k);
      ReadOnceSkip(s.dev.sha, a.log, s.dev.log, regions, early, backups, k);
      return Pass, backups;
    }
    var data, digest;
    o, data, digest := s.ReadRegion(w.tag, w.region, Plain);
    ReadOnlyTrans(a, b, s.Now());
    ReadOnlyDisk(b, s.Now());
    if o.Stopped? { return; }
    PlainAddedMore(a.capture.files, b.capture.files, w.tag, data);
    BackingRead(s.dev.sha, a.disk, b.capture.files, backups, regions, early, k);
    ReadOnlyLog(a, b);
    ReadOnceMore(s.dev.sha, a.log, b.log, regions, early, backups, k, data);
    if Unread(b.capture.files, regions, early, k) { UnreadMore(b.capture.files, regions, early, k, data); }
    backups := backups[w.tag := digest];
  }

  /** Nothing but first reads has been added. */
  ghost predicate PlainAdded(files0: map<FileName, Bytes>, files: map<FileName, Bytes>) {
    forall f :: f in files ==> f in files0 || f.suffix.Plain?
  }

  lemma PlainAddedMore(files0: map<FileName, Bytes>, files: map<FileName, Bytes>, tag: Label, data: Bytes)
    requires PlainAdded(files0, files)
    ensures PlainAdded(files0, files[FileName(tag, Plain) := data])
  {
  }

  lemma OneWithin(regions: seq<Write>, k: nat, bytes: int)
    requires k < |regions| && AllWithin(WriteRegions(regions), bytes)
    ensures regions[k].region.Within(bytes)
  {
    assert WriteRegions(regions)[k] == regions[k].region;
  }

  lemma BackingStarts(sha: Hash, d: Bytes, files: map<FileName, Bytes>, log: seq<Event>, regions: seq<Write>,
                      early: map<Label, Digest>)
    requires forall k :: 0 <= k < |regions| && regions[k].tag in early ==> CopyOf(sha, d, files, early, regions[k])
    ensures PlainAdded(files, files) && Backing(sha, d, files, early, regions, early, 0)
      && ReadOnce(sha, log, log, regions, early, early, 0)
  {
    hide CopyOf, WasRead;
  }

  lemma BackingSkip(sha: Hash, d: Bytes, files: map<FileName, Bytes>, backups: map<Label, Digest>,
                    regions: seq<Write>, early: map<Label, Digest>, k: nat)
    requires k < |regions| && Backing(sha, d, files, backups, regions, early, k) && regions[k].tag in early
    ensures Backing(sha, d, files, backups, regions, early, k + 1)
  {
    hide CopyOf;
  }

  lemma BackingDone(sha: Hash, d: Bytes, files: map<FileName, Bytes>, backups: map<Label, Digest>,
                    regions: seq<Write>, early: map<Label, Digest>)
    requires Backing(sha, d, files, backups, regions, early, |regions|)
    ensures CopiesOf(sha, d, files, backups, regions)
    ensures TagsListed(early, regions) ==> TagsListed(backups, regions)
  {
    hide CopyOf;
  }

  /** The regions small enough to read twice. */
  function SecondReadRegions(lay: Layout): seq<Write> {
    [PartWrite(lay, Boot), PartWrite(lay, Dtbo), PartWrite(lay, Misc), PartWrite(lay, Metadata),
     PartWrite(lay, Modemst1), PartWrite(lay, Modemst2), PartWrite(lay, Fsg), PartWrite(lay, Fsc),
     PartWrite(lay, Persist),
     Write(UserdataHead, lay.Head(Userdata, lay.userdataHeadBackup)), Write(UserdataTail, UserdataTailRegion(lay))]
  }

  method ReadTwice(s: Session, regions: seq<Write>, backups: map<Label, Digest>) returns (o: Outcome)
    requires forall k :: 0 <= k < |regions| ==> regions[k].tag in backups
    modifies s, s.dev
    ensures ReadOnly(old(s.Now()), s.Now())
    ensures o.Pass? ==> ReadOnce(s.dev.sha, old(s.dev.log), s.dev.log, regions, map[], backups, |regions|)
    ensures o.Pass? ==> s.capture.files == old(s.capture.files)
    ensures o.Stopped? ==> o.why !in {ReadbackDiffers, ProtectedChanged}
    ensures old(s.Tireless()) ==> s.Tireless()
    ensures (&& old(s.Tireless()) && NoSecondReads(old(s.capture.files))
             && (forall k :: 0 <= k < |regions| ==>
               Reads(s.dev.sha, s.dev.disk[..], regions[k], backups[regions[k].tag]))) ==> o.Pass?
  {
    ghost var a := s.Now();
    ReadOnlyRefl(a);
    assert ReadOnce(s.dev.sha, a.log, a.log, regions, map[], backups, 0);
    hide ReadOnly, ReadOnce, WasRead, Reads, NoSecondReads, Session.Tireless;
    for k := 0 to |regions|
      invariant ReadOnly(a, s.Now()) && s.dev.disk[..] == a.disk && s.capture.files == a.capture.files
      invariant ReadOnce(s.dev.sha, a.log, s.dev.log, regions, map[], backups, k)
      invariant old(s.Tireless()) ==> s.Tireless()
    {
      ghost var b := s.Now();
      o := ReadAgain(s, regions[k], backups[regions[k].tag]);
      ReadOnlyTrans(a, b, s.Now());
      ReadOnlyDisk(b, s.Now());
      ReadOnlyLog(a, b);
      ReadOnlyLog(b, s.Now());
      if o.Stopped? { return; }
      ReadOnceAgain(s.dev.sha, a.log, b.log, s.dev.log, regions, backups, k);
    }
    o := Pass;
  }

  lemma ReadOnceAgain(sha: Hash, log0: seq<Event>, mid: seq<Event>, log: seq<Event>, regions: seq<Write>,
                      backups: map<Label, Digest>, k: nat)
    requires k < |regions| && regions[k].tag in backups && |log0| <= |mid| && OnlyReads(mid, log)
    requires ReadOnce(sha, log0, mid, regions, map[], backups, k)
    requires WasRead(sha, mid, log, regions[k].region, backups[regions[k].tag])
    ensures ReadOnce(sha, log0, log, regions, map[], backups, k + 1)
  {
    hide WasRead, OnlyReads;
    forall i | 0 <= i < k ensures WasRead(sha, log0, log, regions[i].region, backups[regions[i].tag]) {
      WasReadLater(sha, log0, mid, log, regions[i].region, backups[regions[i].tag]);
    }
    WasReadLonger(sha, log0, mid, log, regions[k].region, backups[regions[k].tag]);
  }

  // ---- what a capture of an install holds ----

  /** Every digest belongs to one of the regions. */
  ghost predicate TagsListed(backups: map<Label, Digest>, regions: seq<Write>) {
    forall t :: t in backups ==> exists k :: 0 <= k < |regions| && regions[k].tag == t
  }

  /** The manifest and the files restore decides from. */
  ghost predicate BackedUp(lay: Layout, sha: Hash, d: Bytes, c: Capture) {
    && c.manifest.Some?
    && c.manifest.value.layout == LayoutFor(lay)
    && CopiesOf(sha, d, c.files, c.manifest.value.backups, BackupRegions(lay))
    && TagsListed(c.manifest.value.backups, BackupRegions(lay))
  }

  /** The copy of this range of the disk is in the capture, and so is its digest. */
  ghost predicate Kept(sha: Hash, d: Bytes, c: Capture, tag: Label, from: int, to: int) {
    && c.manifest.Some? && 0 <= from <= to <= |d|
    && FileName(tag, Plain) in c.files && c.files[FileName(tag, Plain)] == d[from..to]
    && tag in c.manifest.value.backups && c.manifest.value.backups[tag] == sha(d[from..to])
  }

  /** Every partition but userdata is kept whole, and of userdata the first and the
      last sectors. */
  lemma BackedUpPlainly(lay: Layout, sha: Hash, d: Bytes, c: Capture)
    requires BackedUp(lay, sha, d, c)
    ensures forall n: PartName :: !n.Userdata? ==>
      Kept(sha, d, c, Part(n), lay.parts(n).start * SECTOR, (lay.parts(n).start + lay.parts(n).sectors) * SECTOR)
    ensures var u := lay.parts(Userdata);
      && Kept(sha, d, c, UserdataHead, u.start * SECTOR, (u.start + lay.userdataHeadBackup) * SECTOR)
      && Kept(sha, d, c, UserdataTail, (u.start + u.sectors - lay.userdataTailBackup) * SECTOR,
              (u.start + u.sectors) * SECTOR)
  {
    hide CopyOf, Kept, BackupRegions;
    var rs := BackupRegions(lay);
    forall n: PartName | !n.Userdata?
      ensures Kept(sha, d, c, Part(n), lay.parts(n).start * SECTOR,
                   (lay.parts(n).start + lay.parts(n).sectors) * SECTOR)
    {
      var k := BackupPlace(lay, n);
      CopyIsKept(sha, d, c, rs[k]);
    }
    BackupEnds(lay);
    CopyIsKept(sha, d, c, rs[14]);
    CopyIsKept(sha, d, c, rs[15]);
  }

  lemma BackupPlace(lay: Layout, n: PartName) returns (k: int)
    requires !n.Userdata?
    ensures 0 <= k < |BackupRegions(lay)| && BackupRegions(lay)[k] == Write(Part(n), lay.parts(n))
  {
    k := match n case Boot => 0 case Dtbo => 1 case Misc => 2 case Metadata => 3 case Modemst1 => 4
      case Modemst2 => 5 case Fsg => 6 case Fsc => 7 case Persist => 8 case Recovery => 9 case Vbmeta => 10
      case Devinfo => 11 case Vendor => 12 case _ => 13;
  }

  lemma BackupEnds(lay: Layout)
    ensures |BackupRegions(lay)| == 16
    ensures var u, h, t := lay.parts(Userdata), BackupRegions(lay)[14], BackupRegions(lay)[15];
      && h == Write(UserdataHead, Region(u.start, lay.userdataHeadBackup))
      && t == Write(UserdataTail, Region(u.start + u.sectors - lay.userdataTailBackup, lay.userdataTailBackup))
  {
  }

  lemma CopyIsKept(sha: Hash, d: Bytes, c: Capture, w: Write)
    requires c.manifest.Some? && CopyOf(sha, d, c.files, c.manifest.value.backups, w)
    ensures Kept(sha, d, c, w.tag, w.region.start * SECTOR, (w.region.start + w.region.sectors) * SECTOR)
  {
  }

  /** The layout every capture of this tool must record, label by label. */
  function LayoutFor(lay: Layout): map<Label, Region> {
    map[Part(Boot) := lay.parts(Boot), Part(Dtbo) := lay.parts(Dtbo), Part(Misc) := lay.parts(Misc),
        Part(Metadata) := lay.parts(Metadata), Part(Modemst1) := lay.parts(Modemst1),
        Part(Modemst2) := lay.parts(Modemst2),
        Part(Fsg) := lay.parts(Fsg), Part(Fsc) := lay.parts(Fsc), Part(Persist) := lay.parts(Persist),
        Part(Recovery) := lay.parts(Recovery), Part(Vbmeta) := lay.parts(Vbmeta), Part(Devinfo) := lay.parts(Devinfo),
        Part(Vendor) := lay.parts(Vendor), Part(System) := lay.parts(System),
        UserdataHead := lay.Head(Userdata, lay.userdataHeadBackup), UserdataTail := UserdataTailRegion(lay)]
  }

  /** It lists every partition but userdata, and the two ends of that. */
  lemma LayoutForIs(lay: Layout)
    ensures forall t :: t in LayoutFor(lay) <==> (t.Part? && !t.name.Userdata?) || t.UserdataHead? || t.UserdataTail?
    ensures forall n: PartName :: !n.Userdata? ==> LayoutFor(lay)[Part(n)] == lay.parts(n)
    ensures var u, m := lay.parts(Userdata), LayoutFor(lay);
      && m[UserdataHead].start == u.start && m[UserdataHead].sectors == lay.userdataHeadBackup
      && m[UserdataTail].start + m[UserdataTail].sectors == u.start + u.sectors
      && m[UserdataTail].sectors == lay.userdataTailBackup
  {
    UserdataTailIs(lay);
    LayoutForEnds(lay);
    forall t ensures t in LayoutFor(lay) <==> (t.Part? && !t.name.Userdata?) || t.UserdataHead? || t.UserdataTail? {
      LayoutForAt(lay, t);
    }
    forall n: PartName | !n.Userdata? ensures LayoutFor(lay)[Part(n)] == lay.parts(n) { LayoutForAt(lay, Part(n)); }
    hide LayoutFor, UserdataTailRegion;
  }

  lemma LayoutForAt(lay: Layout, t: Label)
    ensures t in LayoutFor(lay) <==> (t.Part? && !t.name.Userdata?) || t.UserdataHead? || t.UserdataTail?
    ensures t.Part? && !t.name.Userdata? ==> LayoutFor(lay)[t] == lay.parts(t.name)
  {
    hide UserdataTailRegion;
  }

  lemma LayoutForEnds(lay: Layout)
    ensures UserdataHead in LayoutFor(lay) && UserdataTail in LayoutFor(lay)
    ensures LayoutFor(lay)[UserdataHead] == lay.Head(Userdata, lay.userdataHeadBackup)
    ensures LayoutFor(lay)[UserdataTail] == UserdataTailRegion(lay)
  {
    hide UserdataTailRegion;
  }

  lemma UserdataTailIs(lay: Layout)
    ensures var u, r := lay.parts(Userdata), UserdataTailRegion(lay);
      r.start + r.sectors == u.start + u.sectors && r.sectors == lay.userdataTailBackup
  {
  }

  // ---- before the first write ----

  function Recognise(digest: Digest, n: PartName, job: InstallJob): (f: Found)
    ensures f.Stock? <==> n in job.stockPins && digest == job.stockPins[n]
    ensures f.RomV1? ==> n in job.romPins && digest == job.romPins[n]
  {
    if n in job.stockPins && digest == job.stockPins[n] then Stock
    else if n in job.romPins && digest == job.romPins[n] then RomV1
    else Found.Unknown
  }

  /** The disk may be installed over: the pre-checks pass, and system, vendor and
      dtbo are stock unless that is waived. */
  ghost predicate MayInstall(tool: Tool, sha: Hash, job: InstallJob, d: Bytes)
    requires tool.lay.Valid() && |d| == tool.lay.diskBytes
  {
    && PreCheckOk(tool, sha, job.kit, d)
    && (job.allowNonstock || forall n: PartName :: n.System? || n.Vendor? || n.Dtbo? ==>
          && tool.lay.parts(n).Within(|d|)
          && n in job.stockPins && sha(Slice(d, tool.lay.parts(n))) == job.stockPins[n])
  }

  lemma BackedUpNow(lay: Layout, sha: Hash, d: Bytes, c: Capture, backups: map<Label, Digest>)
    requires c.manifest == Some(Manifest(InstallBackup, backups, LayoutFor(lay), false, [], []))
    requires CopiesOf(sha, d, c.files, backups, BackupRegions(lay)) && TagsListed(backups, BackupRegions(lay))
    ensures BackedUp(lay, sha, d, c)
  {
  }

  lemma MayInstallNow(tool: Tool, sha: Hash, job: InstallJob, d: Bytes, backups: map<Label, Digest>)
    requires tool.lay.Valid() && |d| == tool.lay.diskBytes && PreCheckOk(tool, sha, job.kit, d)
    requires forall n: PartName :: n.System? || n.Vendor? || n.Dtbo? ==>
      && tool.lay.parts(n).Within(|d|) && Part(n) in backups && backups[Part(n)] == sha(Slice(d, tool.lay.parts(n)))
      && (job.allowNonstock || Recognise(backups[Part(n)], n, job).Stock?)
    ensures MayInstall(tool, sha, job, d)
  {
    hide Recognise, PreCheckOk, Layout.Valid;
  }

  lemma MayInstallParts(tool: Tool, sha: Hash, job: InstallJob, d: Bytes)
    requires tool.lay.Valid() && |d| == tool.lay.diskBytes && MayInstall(tool, sha, job, d)
    ensures PreCheckOk(tool, sha, job.kit, d)
    ensures job.allowNonstock || forall n: PartName :: n.System? || n.Vendor? || n.Dtbo? ==>
      tool.lay.parts(n).Within(|d|) && Recognise(sha(Slice(d, tool.lay.parts(n))), n, job).Stock?
  {
  }

  lemma PreCheckIdentity(tool: Tool, sha: Hash, kit: Option<Kit>, d: Bytes)
    requires tool.lay.Valid() && |d| == tool.lay.diskBytes && PreCheckOk(tool, sha, kit, d)
    ensures IdentityOk(tool, kit, d)
  {
  }

  /** vbmeta and devinfo are checked first and kept as backups. */
  method ReadPinned(s: Session, tool: Tool) returns (o: Outcome, early: map<Label, Digest>)
    requires Ready(s, tool)
    modifies s, s.dev
    ensures ReadOnly(old(s.Now()), s.Now())
    ensures o.Pass? ==> && early.Keys == {Part(Vbmeta), Part(Devinfo)}
                        && s.dev.sha(Slice(s.dev.disk[..], tool.lay.parts(Vbmeta))) == tool.pins.vbmeta
                        && s.dev.sha(Slice(s.dev.disk[..], tool.lay.parts(Devinfo))) == tool.pins.devinfo
                        && CopyOf(s.dev.sha, s.dev.disk[..], s.capture.files, early, PartWrite(tool.lay, Vbmeta))
                        && CopyOf(s.dev.sha, s.dev.disk[..], s.capture.files, early, PartWrite(tool.lay, Devinfo))
    ensures o.Pass? ==>
      s.capture.files.Keys == old(s.capture.files).Keys
        + {FileName(Part(Vbmeta), Plain), FileName(Part(Devinfo), Plain)}
    ensures o.Stopped? ==> o.why !in {ReadbackDiffers, ProtectedChanged}
    ensures old(s.Tireless()) ==> s.Tireless()
    ensures (&& old(s.Tireless()) && (forall f :: f in old(s.capture.files) ==> !f.tag.Part?)
             && Reads(s.dev.sha, s.dev.disk[..], PartWrite(tool.lay, Vbmeta), tool.pins.vbmeta)
             && Reads(s.dev.sha, s.dev.disk[..], PartWrite(tool.lay, Devinfo), tool.pins.devinfo)) ==> o.Pass?
  {
    hide ReadOnly, Layout.Valid, Session.Tireless;
    early := map[];
    ghost var a := s.Now();
    var v, vb, w, di;
    o, v, vb := s.ReadRegion(Part(Vbmeta), tool.lay.parts(Vbmeta), Plain);
    if o.Stopped? { return; }
    if vb != tool.pins.vbmeta { return Stopped(VbmetaDiffers), early; }
    ghost var b := s.Now();
    o, w, di := s.ReadRegion(Part(Devinfo), tool.lay.parts(Devinfo), Plain);
    ReadOnlyTrans(a, b, s.Now());
    ReadOnlyDisk(b, s.Now());
    if o.Stopped? { return; }
    if di != tool.pins.devinfo { return Stopped(DevinfoDiffers), early; }
    early := map[Part(Vbmeta) := vb, Part(Devinfo) := di];
  }

  /** Every region of the plan backed up, recognised and written to the manifest. */
  method InstallSurvey(s: Session, tool: Tool, job: InstallJob) returns (o: Outcome)
    requires Ready(s, tool) && s.capture.manifest.None?
    modifies s, s.dev
    ensures Noted(old(s.Now()), s.Now())
    ensures s.capture.manifest.Some? ==>
              && BackedUp(tool.lay, s.dev.sha, s.dev.disk[..], s.capture) && IdentityOk(tool, job.kit, s.dev.disk[..])
              && MayInstall(tool, s.dev.sha, job, s.dev.disk[..])
              && SmallSeenTwice(tool.lay, s.dev.sha, old(s.dev.log), s.dev.log)
    ensures o.Pass? ==> s.capture.manifest.Some?
    ensures o.Pass? && old(s.capture.files) == map[] ==> forall f :: f in s.capture.files ==> f.suffix.Plain?
    ensures o.Stopped? ==> o.why !in {ReadbackDiffers, ProtectedChanged}
    ensures old(s.Tireless()) ==> s.Tireless()
    ensures old(s.Tireless()) && old(s.capture.files) == map[] && MayInstall(tool, s.dev.sha, job, s.dev.disk[..]) ==>
      o.Pass?
  {
    hide Session.Tireless;
    hide ReadOnly, IdentityOk, CopiesOf, BackupRegions, Layout.Valid, Noted, PreCheckOk, AllReadTwice,
         SecondReadRegions, SmallSeenTwice,
         MayInstall, LayoutFor, Recognise, BackedUp, TagsListed;
    ghost var a := s.Now();
    var backups;
    if MayInstall(tool, s.dev.sha, job, a.disk) { MayInstallParts(tool, s.dev.sha, job, a.disk); }
    o, backups := ReadEverything(s, tool, job);
    ghost var b := s.Now();
    ReadOnlyNoted(a, b);
    ReadOnlyDisk(a, b);
    if o.Stopped? { return; }
    SmallOnesTwice(tool.lay, s.dev.sha, a.log, b.log);
    BigThreeBackedUp(tool.lay, s.dev.sha, s.dev.disk[..], s.capture.files, backups);
    PreCheckIdentity(tool, s.dev.sha, job.kit, s.dev.disk[..]);
    var system, vendor, dtbo := Recognise(backups[Part(System)], System, job),
      Recognise(backups[Part(Vendor)], Vendor, job),
                                Recognise(backups[Part(Dtbo)], Dtbo, job);
    if !job.allowNonstock && !(system.Stock? && vendor.Stock? && dtbo.Stock?) { return Stopped(UnexpectedBuild); }
    MayInstallNow(tool, s.dev.sha, job, s.dev.disk[..], backups);
    o := InstallRecord(s, Manifest(InstallBackup, backups, LayoutFor(tool.lay), false, [], []));
    ReadOnlySaveNoted(a, b, s.Now());
    if s.capture.manifest.Some? { BackedUpNow(tool.lay, s.dev.sha, s.dev.disk[..], s.capture, backups); }
  }

  /** Writes the manifest and notes it in the report. */
  method InstallRecord(s: Session, m: Manifest) returns (o: Outcome)
    modifies s
    ensures s.capture.files == old(s.capture.files)
    ensures s.capture.manifest == old(s.capture.manifest) || s.capture.manifest == Some(m)
    ensures o.Pass? ==> s.capture.manifest == Some(m)
    ensures s.report == old(s.report).(backupComplete := s.report.backupComplete)
    ensures s.capture.report == old(s.capture.report) || s.capture.report == Some(s.report)
    ensures o.Stopped? ==> o.why == CaptureFailed
    ensures old(s.Tireless()) ==> s.Tireless() && o.Pass?
  {
    o := s.WriteManifest(m);
    if o.Stopped? { return; }
    s.report := s.report.(backupComplete := true);
    o := s.Save();
  }

  /** Identity, state checks, all backups and the second reads. */
  method ReadEverything(s: Session, tool: Tool, job: InstallJob) returns (o: Outcome, backups: map<Label, Digest>)
    requires Ready(s, tool)
    modifies s, s.dev
    ensures ReadOnly(old(s.Now()), s.Now())
    ensures o.Pass? ==> && PreCheckOk(tool, s.dev.sha, job.kit, s.dev.disk[..])
                        && CopiesOf(s.dev.sha, s.dev.disk[..], s.capture.files, backups, BackupRegions(tool.lay))
                        && TagsListed(backups, BackupRegions(tool.lay))
    ensures o.Pass? ==> AllReadTwice(s.dev.sha, old(s.dev.log), s.dev.log, SecondReadRegions(tool.lay))
    ensures o.Pass? && old(s.capture.files) == map[] ==> forall f :: f in s.capture.files ==> f.suffix.Plain?
    ensures o.Stopped? ==> o.why !in {ReadbackDiffers, ProtectedChanged}
    ensures old(s.Tireless()) ==> s.Tireless()
    ensures (&& old(s.Tireless()) && old(s.capture.files) == map[]
             && PreCheckOk(tool, s.dev.sha, job.kit, s.dev.disk[..])) ==> o.Pass?
  {
    hide Session.Tireless, Reads, ReadOnly, IdentityOk, PreCheckOk, Layout.Valid, BackupRegions, SecondReadRegions,
         CopyOf, CopiesOf,
         AllReadTwice, KeepsFiles, TagsListed;
    ghost var a := s.Now();
    backups := map[];
    if PreCheckOk(tool, s.dev.sha, job.kit, a.disk) { PinnedReads(tool, s.dev.sha, job.kit, a.disk); }
    o := CheckDiskIdentity(s, tool, job.kit);
    if o.Stopped? { return; }
    ghost var b := s.Now();
    ReadOnlyDisk(a, b);
    if a.capture.files == map[] { NothingButTables(b.capture.files); }
    var early;
    o, early := ReadPinned(s, tool);
    ReadOnlyTrans(a, b, s.Now());
    ReadOnlyDisk(b, s.Now());
    if o.Stopped? { return; }
    ghost var c := s.Now();
    o, backups := BackUpTwice(s, tool, early);
    ReadOnlyTrans(a, c, s.Now());
    ReadOnlyDisk(c, s.Now());
    if o.Stopped? { return; }
    ReadOnlyLog(a, c);
    ReadTwiceLonger(s.dev.sha, a.log, c.log, s.dev.log, SecondReadRegions(tool.lay));
    PreCheckParts(tool, s.dev.sha, job.kit, a.disk);
  }

  lemma PreCheckParts(tool: Tool, sha: Hash, kit: Option<Kit>, d: Bytes)
    requires tool.lay.Valid() && |d| == tool.lay.diskBytes && IdentityOk(tool, kit, d)
    requires sha(Slice(d, tool.lay.parts(Vbmeta))) == tool.pins.vbmeta
      && sha(Slice(d, tool.lay.parts(Devinfo))) == tool.pins.devinfo
    requires sha(HeadBytes(Slice(d, tool.lay.parts(Misc)), BCB_BYTES)) in {tool.pins.emptyBcb, tool.pins.bootloaderBcb}
    ensures PreCheckOk(tool, sha, kit, d)
  {
    PartsWithin(tool.lay);
  }

  /** All backups, the boot message among them, and the second reads. */
  method BackUpTwice(s: Session, tool: Tool, early: map<Label, Digest>)
      returns (o: Outcome, backups: map<Label, Digest>)
    requires Ready(s, tool) && early.Keys == {Part(Vbmeta), Part(Devinfo)}
    requires CopyOf(s.dev.sha, s.dev.disk[..], s.capture.files, early, PartWrite(tool.lay, Vbmeta))
    requires CopyOf(s.dev.sha, s.dev.disk[..], s.capture.files, early, PartWrite(tool.lay, Devinfo))
    modifies s, s.dev
    ensures ReadOnly(old(s.Now()), s.Now())
    ensures o.Pass? ==> && CopiesOf(s.dev.sha, s.dev.disk[..], s.capture.files, backups, BackupRegions(tool.lay))
                        && TagsListed(backups, BackupRegions(tool.lay))
                        && AllReadTwice(s.dev.sha, old(s.dev.log), s.dev.log, SecondReadRegions(tool.lay))
    ensures o.Pass? ==> && tool.lay.parts(Misc).Within(s.dev.disk.Length)
                        && s.dev.sha(HeadBytes(Slice(s.dev.disk[..], tool.lay.parts(Misc)), BCB_BYTES))
                           in {tool.pins.emptyBcb, tool.pins.bootloaderBcb}
    ensures o.Pass? && FirstCopies(old(s.capture.files)) ==> forall f :: f in s.capture.files ==> f.suffix.Plain?
    ensures o.Stopped? ==> o.why !in {ReadbackDiffers, ProtectedChanged}
    ensures old(s.Tireless()) ==> s.Tireless()
    ensures (&& old(s.Tireless()) && FirstCopies(old(s.capture.files)) && tool.lay.parts(Misc).Within(s.dev.disk.Length)
             && s.dev.sha(HeadBytes(Slice(s.dev.disk[..], tool.lay.parts(Misc)), BCB_BYTES))
                in {tool.pins.emptyBcb, tool.pins.bootloaderBcb}) ==> o.Pass?
  {
    hide Session.Tireless, Reads, NoSecondReads, Unread, ReadOnly, Layout.Valid, BackupRegions, SecondReadRegions,
         CopyOf, CopiesOf,
         DistinctTags, ReadOnce, AllReadTwice, WasRead, OnlyReads, KeepsFiles, TagsListed, FirstCopies;
    ghost var a := s.Now();
    EarlyCopies(tool.lay, s.dev.sha, s.dev.disk[..], s.capture.files, early);
    BackupsWithin(tool.lay);
    if FirstCopies(a.capture.files) { BackupsUnread(tool.lay, a.capture.files, early); }
    o, backups := BackupAll(s, BackupRegions(tool.lay), early);
    ReadOnlyDisk(a, s.Now());
    if o.Stopped? { return; }
    MiscBackedUp(tool.lay, s.dev.sha, s.dev.disk[..], s.capture.files, backups);
    var bcb := s.dev.sha(HeadBytes(s.capture.files[FileName(Part(Misc), Plain)], BCB_BYTES));
    if bcb != tool.pins.emptyBcb && bcb != tool.pins.bootloaderBcb { return Stopped(UnknownBootMessage), backups; }
    ghost var e := s.Now();
    if FirstCopies(a.capture.files) { PlainNotSecond(e.capture.files); }
    o := ReadTwice(s, SecondReadRegions(tool.lay), backups);
    ReadOnlyTrans(a, e, s.Now());
    ReadOnlyDisk(e, s.Now());
    ReadOnlyLog(a, e);
    ReadOnlyLog(e, s.Now());
    if o.Pass? { SecondTime(tool.lay, s.dev.sha, a.log, e.log, s.dev.log, early, backups); }
    CopiesKept(s.dev.sha, e.disk, e.capture.files, s.capture.files, backups, BackupRegions(tool.lay));
  }

  /** The capture holds the two tables and the two pinned partitions. */
  ghost predicate FirstCopies(files: map<FileName, Bytes>) {
    files.Keys
      == {FileName(GptPrimary, Plain), FileName(GptTail, Plain), FileName(Part(Vbmeta), Plain),
        FileName(Part(Devinfo), Plain)}
  }

  lemma PinnedReads(tool: Tool, sha: Hash, kit: Option<Kit>, d: Bytes)
    requires tool.lay.Valid() && |d| == tool.lay.diskBytes && PreCheckOk(tool, sha, kit, d)
    ensures IdentityOk(tool, kit, d)
    ensures Reads(sha, d, PartWrite(tool.lay, Vbmeta), tool.pins.vbmeta)
    ensures Reads(sha, d, PartWrite(tool.lay, Devinfo), tool.pins.devinfo)
    ensures tool.lay.parts(Misc).Within(|d|)
    ensures sha(HeadBytes(Slice(d, tool.lay.parts(Misc)), BCB_BYTES)) in {tool.pins.emptyBcb, tool.pins.bootloaderBcb}
  {
    PartsWithin(tool.lay);
  }

  lemma NothingButTables(files: map<FileName, Bytes>)
    requires files.Keys == {FileName(GptPrimary, Plain), FileName(GptTail, Plain)}
    ensures forall f :: f in files ==> !f.tag.Part?
  {
    assert forall f :: f in files ==> f in files.Keys;
  }

  lemma BackupsWithin(lay: Layout)
    requires lay.Valid()
    ensures AllWithin(WriteRegions(BackupRegions(lay)), lay.diskBytes)
  {
    PartsWithin(lay);
    UserdataEndsWithin(lay);
    hide Layout.Valid, Region.Within;
    var rs := BackupRegions(lay);
    forall k | 0 <= k < |rs| ensures rs[k].region.Within(lay.diskBytes) {
      if k < 14 { assert rs[k].region == lay.parts(rs[k].tag.name); }
    }
  }

  lemma UserdataEndsWithin(lay: Layout)
    requires lay.Valid()
    ensures lay.Head(Userdata, lay.userdataHeadBackup).Within(lay.diskBytes)
      && UserdataTailRegion(lay).Within(lay.diskBytes)
  {
    assert lay.parts(Userdata).Within(lay.diskBytes);
  }

  lemma BackupsUnread(lay: Layout, files: map<FileName, Bytes>, early: map<Label, Digest>)
    requires early.Keys == {Part(Vbmeta), Part(Devinfo)}
    requires FirstCopies(files)
    ensures Unread(files, BackupRegions(lay), early, 0)
    ensures forall f :: f in files ==> f.suffix.Plain?
  {
    assert forall f :: f in files ==> f in files.Keys;
    var rs := BackupRegions(lay);
    forall i | 0 <= i < |rs| && rs[i].tag !in early ensures FileName(rs[i].tag, Plain) !in files {
      assert Part(Vbmeta) in early && Part(Devinfo) in early;
      assert rs[i].tag.Part? || rs[i].tag.UserdataHead? || rs[i].tag.UserdataTail?;
    }
  }

  lemma PlainNotSecond(files: map<FileName, Bytes>)
    requires forall f :: f in files ==> f.suffix.Plain?
    ensures NoSecondReads(files)
  {
  }

  /** Each of these regions was read at least twice with the same digest. */
  ghost predicate AllReadTwice(sha: Hash, log0: seq<Event>, log: seq<Event>, regions: seq<Write>) {
    forall k :: 0 <= k < |regions| ==> SeenTwice(sha, log0, log, regions[k].region)
  }

  ghost predicate SeenTwice(sha: Hash, log0: seq<Event>, log: seq<Event>, r: Region) {
    exists digest :: ReadTwiceAs(sha, log0, log, r, digest)
  }

  /** All but the big partitions and those checked otherwise were read twice alike,
      and so were the two ends of userdata. */
  ghost predicate SmallSeenTwice(lay: Layout, sha: Hash, log0: seq<Event>, log: seq<Event>) {
    var u := lay.parts(Userdata);
    && (forall n: PartName :: n !in {Recovery, Vbmeta, Devinfo, Vendor, System, Userdata} ==>
          SeenTwice(sha, log0, log, lay.parts(n)))
    && SeenTwice(sha, log0, log, Region(u.start, lay.userdataHeadBackup))
    && SeenTwice(sha, log0, log, Region(u.start + u.sectors - lay.userdataTailBackup, lay.userdataTailBackup))
  }

  lemma SmallOnesTwice(lay: Layout, sha: Hash, log0: seq<Event>, log: seq<Event>)
    requires AllReadTwice(sha, log0, log, SecondReadRegions(lay))
    ensures SmallSeenTwice(lay, sha, log0, log)
  {
    hide SeenTwice;
    var qs := SecondReadRegions(lay);
    forall n: PartName | n !in {Recovery, Vbmeta, Devinfo, Vendor, System, Userdata}
      ensures SeenTwice(sha, log0, log, lay.parts(n))
    {
      var k: int := match n case Boot => 0 case Dtbo => 1 case Misc => 2 case Metadata => 3 case Modemst1 => 4
        case Modemst2 => 5 case Fsg => 6 case Fsc => 7 case _ => 8;
      assert qs[k].region == lay.parts(n);
    }
    assert SeenTwice(sha, log0, log, qs[9].region) && SeenTwice(sha, log0, log, qs[10].region);
  }

  lemma ReadTwiceLonger(sha: Hash, log0: seq<Event>, mid: seq<Event>, log: seq<Event>, regions: seq<Write>)
    requires |log0| <= |mid| && AllReadTwice(sha, mid, log, regions)
    ensures AllReadTwice(sha, log0, log, regions)
  {
    hide ReadAs;
    forall k | 0 <= k < |regions| ensures SeenTwice(sha, log0, log, regions[k].region) {
      assert SeenTwice(sha, mid, log, regions[k].region);
      var digest :| ReadTwiceAs(sha, mid, log, regions[k].region, digest);
      assert ReadTwiceAs(sha, log0, log, regions[k].region, digest);
    }
  }

  lemma SecondTime(lay: Layout, sha: Hash, log0: seq<Event>, mid: seq<Event>, log: seq<Event>,
                   early: map<Label, Digest>, backups: map<Label, Digest>)
    requires |log0| <= |mid| && OnlyReads(mid, log)
    requires early.Keys == {Part(Vbmeta), Part(Devinfo)}
    requires ReadOnce(sha, log0, mid, BackupRegions(lay), early, backups, |BackupRegions(lay)|)
    requires ReadOnce(sha, mid, log, SecondReadRegions(lay), map[], backups, |SecondReadRegions(lay)|)
    ensures AllReadTwice(sha, log0, log, SecondReadRegions(lay))
  {
    hide WasRead, ReadTwiceAs, OnlyReads;
    var rs, qs := BackupRegions(lay), SecondReadRegions(lay);
    forall k | 0 <= k < |qs| ensures SeenTwice(sha, log0, log, qs[k].region) {
      var m := if k < 9 then k else k + 5;
      assert rs[m] == qs[k] && rs[m].tag !in early;
      WasReadTwice(sha, log0, mid, log, qs[k].region, backups[qs[k].tag]);
    }
  }

  lemma CopiesKept(sha: Hash, d: Bytes, files0: map<FileName, Bytes>, files: map<FileName, Bytes>,
                   backups: map<Label, Digest>, regions: seq<Write>)
    requires KeepsFiles(files0, files) && CopiesOf(sha, d, files0, backups, regions)
    ensures CopiesOf(sha, d, files, backups, regions)
  {
    forall k | 0 <= k < |regions| ensures CopyOf(sha, d, files, backups, regions[k]) {
      assert CopyOf(sha, d, files0, backups, regions[k]);
    }
  }

  lemma EarlyCopies(lay: Layout, sha: Hash, d: Bytes, files: map<FileName, Bytes>, early: map<Label, Digest>)
    requires early.Keys == {Part(Vbmeta), Part(Devinfo)}
    requires CopyOf(sha, d, files, early, PartWrite(lay, Vbmeta))
      && CopyOf(sha, d, files, early, PartWrite(lay, Devinfo))
    ensures DistinctTags(BackupRegions(lay))
    ensures TagsListed(early, BackupRegions(lay))
    ensures forall k :: 0 <= k < |BackupRegions(lay)| && BackupRegions(lay)[k].tag in early ==>
      CopyOf(sha, d, files, early, BackupRegions(lay)[k])
  {
    BackupTagsDiffer(lay);
    var rs := BackupRegions(lay);
    assert rs[10] == PartWrite(lay, Vbmeta) && rs[11] == PartWrite(lay, Devinfo);
    forall t | t in early
      ensures exists k :: 0 <= k < |rs| && rs[k].tag == t { assert t == rs[10].tag || t == rs[11].tag; }
  }

  lemma MiscBackedUp(lay: Layout, sha: Hash, d: Bytes, files: map<FileName, Bytes>, backups: map<Label, Digest>)
    requires CopiesOf(sha, d, files, backups, BackupRegions(lay))
    ensures FileName(Part(Misc), Plain) in files && lay.parts(Misc).Within(|d|)
      && files[FileName(Part(Misc), Plain)] == Slice(d, lay.parts(Misc))
    ensures forall k :: 0 <= k < |SecondReadRegions(lay)| ==>
      SecondReadRegions(lay)[k].tag in backups
        && Reads(sha, d, SecondReadRegions(lay)[k], backups[SecondReadRegions(lay)[k].tag])
  {
    var rs, qs := BackupRegions(lay), SecondReadRegions(lay);
    assert rs[2] == PartWrite(lay, Misc) && CopyOf(sha, d, files, backups, rs[2]);
    forall k | 0 <= k < |qs| ensures qs[k].tag in backups && Reads(sha, d, qs[k], backups[qs[k].tag]) {
      var m := if k < 9 then k else k + 5;
      assert rs[m] == qs[k] && CopyOf(sha, d, files, backups, rs[m]);
    }
  }

  lemma BigThreeBackedUp(lay: Layout, sha: Hash, d: Bytes, files: map<FileName, Bytes>, backups: map<Label, Digest>)
    requires CopiesOf(sha, d, files, backups, BackupRegions(lay))
    ensures forall n: PartName :: n.System? || n.Vendor? || n.Dtbo? ==>
      lay.parts(n).Within(|d|) && Part(n) in backups && backups[Part(n)] == sha(Slice(d, lay.parts(n)))
  {
    var rs := BackupRegions(lay);
    assert CopyOf(sha, d, files, backups, rs[1]) && CopyOf(sha, d, files, backups, rs[12])
      && CopyOf(sha, d, files, backups, rs[13]);
  }

  // ---- the writes ----

  /** Every image is there, checked, and fits. */
  ghost predicate InstallOk(lay: Layout, sha: Hash, job: InstallJob) {
    && lay.Valid()
    && (forall n :: n in job.images ==> PayloadOk(sha, job.images[n]))
    && (forall n :: n in IMAGE_ORDER ==> n in job.images && Fits(lay, n, job.images[n].nbytes))
  }

  function InstallOrder(lay: Layout, job: InstallJob, n: PartName): Order
    requires n in job.images && 0 <= job.images[n].nbytes <= |job.images[n].content|
  {
    Order(Part(n), lay.Head(n, job.images[n].nbytes / SECTOR), job.images[n].content[..job.images[n].nbytes], false,
      job.images[n].digest)
  }

  ghost predicate Usable(images: map<PartName, Image>, n: PartName) {
    n in images && 0 <= images[n].nbytes <= |images[n].content|
  }

  function InstallOrders(lay: Layout, sha: Hash, job: InstallJob): seq<Order>
    requires Usable(job.images, Boot) && Usable(job.images, Dtbo) && Usable(job.images, Vendor)
      && Usable(job.images, System)
    requires lay.metadataHeadZero >= 0 && lay.userdataHeadZero >= 0
  {
    [InstallOrder(lay, job, Boot), InstallOrder(lay, job, Dtbo), InstallOrder(lay, job, Vendor),
      InstallOrder(lay, job, System)]
    + ZeroOrders(lay, sha)
  }

  lemma InstallUsable(lay: Layout, sha: Hash, job: InstallJob)
    requires InstallOk(lay, sha, job)
    ensures Usable(job.images, Boot) && Usable(job.images, Dtbo) && Usable(job.images, Vendor)
      && Usable(job.images, System)
    ensures lay.metadataHeadZero >= 0 && lay.userdataHeadZero >= 0
  {
    assert forall n :: n in IMAGE_ORDER ==> PayloadOk(sha, job.images[n]);
    assert IMAGE_ORDER[0] in IMAGE_ORDER && IMAGE_ORDER[1] in IMAGE_ORDER && IMAGE_ORDER[2] in IMAGE_ORDER
      && IMAGE_ORDER[3] in IMAGE_ORDER;
  }

  function InstallPlan(lay: Layout, job: InstallJob): seq<Write>
    requires forall n :: n in IMAGE_ORDER ==> n in job.images
  {
    ImageWrites(lay, Sizes(job.images)) + ZeroWrites(lay)
  }

  lemma InstallWorkOk(lay: Layout, sha: Hash, job: InstallJob)
    requires InstallOk(lay, sha, job)
    ensures Usable(job.images, Boot) && Usable(job.images, Dtbo) && Usable(job.images, Vendor)
      && Usable(job.images, System)
    ensures lay.metadataHeadZero >= 0 && lay.userdataHeadZero >= 0
    ensures WorkOk(lay, sha, InstallOrders(lay, sha, job), true)
    ensures OrderRegions(InstallOrders(lay, sha, job)) == WriteRegions(InstallPlan(lay, job))
    ensures PlanAllowed(lay, InstallPlan(lay, job), true)
  {
    InstallUsable(lay, sha, job);
    var sizes, orders, ws := Sizes(job.images), InstallOrders(lay, sha, job), InstallPlan(lay, job);
    ImageWritesAllowed(lay, sizes, true);
    AllowedPlanDisjoint(lay, ws, true);
    forall k | 0 <= k < |orders| ensures WriteOf(orders[k]) == ws[k] && OrderFits(orders[k], lay.diskBytes)
      && sha(orders[k].payload) == orders[k].expected
    {
      InstallOrderOk(lay, sha, job, k);
    }
    hide Layout.Valid, InstallOrders, InstallPlan, PairwiseDisjoint;
    assert OrderRegions(orders) == WriteRegions(ws);
    assert TagsDiffer(orders) by {
      forall i, j | 0 <= i < j < |orders| ensures orders[i].tag != orders[j].tag { assert ws[i].tag != ws[j].tag; }
    }
    assert forall k :: 0 <= k < |orders| ==> WriteAllowed(lay, WriteOf(orders[k]), true);
  }

  lemma InstallOrderOk(lay: Layout, sha: Hash, job: InstallJob, k: nat)
    requires InstallOk(lay, sha, job)
    requires Usable(job.images, Boot) && Usable(job.images, Dtbo) && Usable(job.images, Vendor)
      && Usable(job.images, System)
    requires k < 6
    ensures var order := InstallOrders(lay, sha, job)[k];
            && |InstallPlan(lay, job)| == 6 && WriteOf(order) == InstallPlan(lay, job)[k]
              && OrderFits(order, lay.diskBytes)
            && sha(order.payload) == order.expected
  {
    hide OrderFits, InstallOrders, InstallPlan, InstallOrder, ZeroOrders;
    InstallUsable(lay, sha, job);
    InstallLists(lay, sha, job, k);
    if k < 4 { InstallImageFits(lay, sha, job, k); } else { ZeroHeadFits(lay, sha, k - 4); }
  }

  lemma InstallImageFits(lay: Layout, sha: Hash, job: InstallJob, k: nat)
    requires InstallOk(lay, sha, job) && k < 4
    ensures var n := IMAGE_ORDER[k];
      && n in job.images && Usable(job.images, n)
      && OrderFits(InstallOrder(lay, job, n), lay.diskBytes)
      && sha(InstallOrder(lay, job, n).payload) == InstallOrder(lay, job, n).expected
  {
    var n := IMAGE_ORDER[k];
    assert n in IMAGE_ORDER && PayloadOk(sha, job.images[n]) && Fits(lay, n, job.images[n].nbytes);
    assert lay.parts(n).Within(lay.diskBytes);
    hide Layout.Valid, InstallOk;
    InstallOrderFits(lay, sha, job, n);
  }

  lemma ZeroHeadFits(lay: Layout, sha: Hash, k: nat)
    requires lay.Valid() && k < 2 && lay.metadataHeadZero >= 0 && lay.userdataHeadZero >= 0
    ensures OrderFits(ZeroOrders(lay, sha)[k], lay.diskBytes)
    ensures sha(ZeroOrders(lay, sha)[k].payload) == ZeroOrders(lay, sha)[k].expected
  {
    ZeroHeadsWithin(lay);
    hide Layout.Valid;
  }

  /** The orders and the plan list the same writes. */
  lemma InstallLists(lay: Layout, sha: Hash, job: InstallJob, k: nat)
    requires forall n :: n in IMAGE_ORDER ==> n in job.images
    requires Usable(job.images, Boot) && Usable(job.images, Dtbo) && Usable(job.images, Vendor)
      && Usable(job.images, System)
    requires lay.metadataHeadZero >= 0 && lay.userdataHeadZero >= 0 && k < 6
    ensures var order := InstallOrders(lay, sha, job)[k];
      && |InstallPlan(lay, job)| == 6 && WriteOf(order) == InstallPlan(lay, job)[k]
      && (k < 4 ==> order == InstallOrder(lay, job, IMAGE_ORDER[k]))
      && (k >= 4 ==> order == ZeroOrders(lay, sha)[k - 4])
  {
    if k < 4 {
      var n := IMAGE_ORDER[k];
      assert n in IMAGE_ORDER;
      assert InstallOrders(lay, sha, job)[k] == InstallOrder(lay, job, n);
    }
  }

  lemma InstallOrderFits(lay: Layout, sha: Hash, job: InstallJob, n: PartName)
    requires n in job.images && PayloadOk(sha, job.images[n]) && Fits(lay, n, job.images[n].nbytes)
    requires lay.parts(n).Within(lay.diskBytes)
    ensures var order := InstallOrder(lay, job, n);
      OrderFits(order, lay.diskBytes) && sha(order.payload) == order.expected
  {
  }

  // ---- the run ----

  /** How run_install may end. */
  ghost predicate InstallEnd(tool: Tool, sha: Hash, faithful: bool, job: InstallJob, begun: bool, a: Snap, b: Snap,
                             o: Outcome)
    requires tool.lay.Valid() && |a.disk| == |b.disk| == tool.lay.diskBytes
  {
    && (!begun ==>
      b.disk == a.disk && o.Stopped? && o.why !in {ReadbackDiffers, ProtectedChanged} && OnlyReads(a.log, b.log)
        && NoClaims(b))
    && (begun ==>
      b.capture.manifest.Some? && InstallOk(tool.lay, sha, job)
        && InstallUsed(tool.lay, sha, faithful, job, a.disk, |a.log|, b, o))
    && (b.capture.manifest.Some? ==>
          BackedUp(tool.lay, sha, a.disk, b.capture) && IdentityOk(tool, job.kit, a.disk)
            && MayInstall(tool, sha, job, a.disk))
  }

  /** What a begun install did to the disk `d0`, and what its report may claim. */
  ghost predicate InstallUsed(lay: Layout, sha: Hash, faithful: bool, job: InstallJob, d0: Bytes, base: nat, b: Snap,
                              o: Outcome)
    requires InstallOk(lay, sha, job)
  {
    InstallUsable(lay, sha, job);
    var orders := InstallOrders(lay, sha, job);
    && (faithful ==> SameOutside(d0, b.disk, OrderRegions(orders)))
    && (b.report.readbackVerified ==> AllReadBack(sha, b.disk, orders))
    && (b.capture.report.Some? && b.capture.report.value.readbackVerified ==> AllReadBack(sha, b.disk, orders))
    && (forall i :: base <= i < |b.log| && b.log[i].Power? ==>
          i == |b.log| - 1 && b.log[i] == Event.Power(Off) && b.report.readbackVerified)
    && (o.Pass? ==> b.report.power == Some(Off) && b.report.readbackVerified && EndsWithPower(b.log, base))
    && (o.Pass? && faithful ==> Holds(d0, b.disk, Patches(orders)))
    && (faithful ==> o != Stopped(ReadbackDiffers))
  }

  lemma InstallPhaseStopped(lay: Layout, sha: Hash, faithful: bool, job: InstallJob, a: Snap, c: Snap, e: Snap,
                            o: Outcome)
    requires InstallOk(lay, sha, job) && |a.disk| == |c.disk| == |e.disk| == lay.diskBytes && c.disk == a.disk
      && OnlyReads(a.log, c.log)
    requires WorkOk(lay, sha, (InstallUsable(lay, sha, job); InstallOrders(lay, sha, job)), true) && o.Stopped?
    requires PhaseEnd(lay, sha, faithful, a.disk, (InstallUsable(lay, sha, job); InstallOrders(lay, sha, job)), c, e, o)
    requires NoClaims(c)
    ensures InstallUsed(lay, sha, faithful, job, a.disk, |a.log|, e, o)
  {
    hide AllReadBack, Safe, Holds, SameOutside, InstallOrders, InstallOk;
  }

  lemma InstallPhaseEnded(lay: Layout, sha: Hash, faithful: bool, job: InstallJob, a: Snap, c: Snap, e: Snap, g: Snap,
                          o: Outcome)
    requires InstallOk(lay, sha, job) && |a.disk| == |c.disk| == |e.disk| == lay.diskBytes && c.disk == a.disk
      && OnlyReads(a.log, c.log)
    requires WorkOk(lay, sha, (InstallUsable(lay, sha, job); InstallOrders(lay, sha, job)), true)
    requires PhaseEnd(lay, sha, faithful, a.disk, (InstallUsable(lay, sha, job); InstallOrders(lay, sha, job)), c, e,
      Pass)
    requires Ended(e, g, Off, o)
    ensures InstallUsed(lay, sha, faithful, job, a.disk, |a.log|, g, o)
  {
    hide AllReadBack, Safe, Holds, SameOutside, InstallOrders, InstallOk;
    InstallUsable(lay, sha, job);
    PhaseOnlyThese(c.log, e.disk, InstallOrders(lay, sha, job), e.log);
  }

  lemma InstallChecked(lay: Layout, sha: Hash, job: InstallJob)
    requires lay.Valid() && forall n :: n in job.images ==> PayloadOk(sha, job.images[n])
    requires forall n :: n in IMAGE_ORDER ==> n in Sizes(job.images) && Fits(lay, n, Sizes(job.images)[n])
    ensures InstallOk(lay, sha, job)
    ensures forall k :: 0 <= k < |InstallPlan(lay, job)| ==> Programmable(lay, InstallPlan(lay, job)[k].region)
  {
    forall n | n in IMAGE_ORDER ensures n in job.images && Fits(lay, n, job.images[n].nbytes) {
      assert n in Sizes(job.images);
    }
    InstallWorkOk(lay, sha, job);
    UpdatePlanIsPlan(lay, InstallPlan(lay, job), true);
  }

  lemma InstallOkParts(lay: Layout, sha: Hash, job: InstallJob)
    requires InstallOk(lay, sha, job)
    ensures forall n :: n in job.images ==> PayloadOk(sha, job.images[n])
    ensures forall n :: n in IMAGE_ORDER ==> n in job.images && Fits(lay, n, job.images[n].nbytes)
    ensures forall n :: n in IMAGE_ORDER ==> n in Sizes(job.images) && Fits(lay, n, Sizes(job.images)[n])
  {
    forall n | n in IMAGE_ORDER ensures n in Sizes(job.images) && Fits(lay, n, Sizes(job.images)[n]) {
      assert n in job.images;
    }
  }

  /** Payloads and plan. */
  method InstallOffline(s: Session, tool: Tool, job: InstallJob) returns (o: Outcome, writes: seq<Write>)
    requires Ready(s, tool) && s.report == EMPTY_REPORT && s.capture == EMPTY_CAPTURE
    modifies s
    ensures s.capture == EMPTY_CAPTURE.(report := s.capture.report)
    ensures NoClaims(s.Now())
    ensures o.Pass? ==> && InstallOk(tool.lay, s.dev.sha, job) && writes == InstallPlan(tool.lay, job)
                        && s.report.plan == writes && s.capture.report == Some(s.report)
    ensures o.Stopped? ==> o.why !in {ReadbackDiffers, ProtectedChanged}
    ensures old(s.Tireless()) ==> s.Tireless() && (InstallOk(tool.lay, s.dev.sha, job) ==> o.Pass?)
  {
    hide Layout.Valid, Fits, PayloadOk, ImageWrites, ZeroWrites, Programmable, InstallOk, ImagesInOrder, HoldsWhole;
    if InstallOk(tool.lay, s.dev.sha, job) { InstallOkParts(tool.lay, s.dev.sha, job); }
    writes := [];
    o := CheckPayloads(s.dev.sha, job.images);
    if o.Stopped? { return; }
    var sizes := Sizes(job.images);
    for k := 0 to |IMAGE_ORDER|
      invariant forall i :: 0 <= i < k ==> IMAGE_ORDER[i] in job.images
    {
      if IMAGE_ORDER[k] !in job.images { return Stopped(ImagesIncomplete), writes; }
    }
    o, writes := InstallWrites(tool.lay, sizes);
    if o.Stopped? { return; }
    InstallChecked(tool.lay, s.dev.sha, job);
    assert writes == InstallPlan(tool.lay, job);
    o := CheckPlan(tool.lay, writes);
    // the builder's plans always pass the guard
    assert o.Pass?;
    s.report := s.report.(plan := writes);
    o := s.Save();
  }

  /** One call of run_install, wherever it stops. */
  method RunInstall(s: Session, tool: Tool, job: InstallJob) returns (o: Outcome, ghost begun: bool)
    requires Ready(s, tool) && s.report == EMPTY_REPORT && s.capture == EMPTY_CAPTURE
    modifies s, s.dev, s.dev.disk
    ensures InstallEnd(tool, s.dev.sha, s.dev.Faithful(), job, begun, old(s.Now()), s.Now(), o)
    ensures (&& old(s.Tireless()) && s.dev.Faithful() && InstallOk(tool.lay, s.dev.sha, job)
             && MayInstall(tool, s.dev.sha, job, old(s.dev.disk[..]))) ==> o.Pass?
  {
    hide Session.Tireless, DigestsRight;
    hide InstallOk, BackedUp, IdentityOk, MayInstall, AllReadTwice, WorkOk, PhaseEnd, InstallUsed, InstallOrders,
         InstallPlan, ReadOnly, Layout.Valid;
    ghost var lay, sha, faithful := tool.lay, s.dev.sha, s.dev.Faithful();
    begun := false;
    ghost var a := s.Now();
    var writes;
    o, writes := InstallOffline(s, tool, job);
    if o.Stopped? { return; }
    ghost var b := s.Now();
    o := InstallSurvey(s, tool, job);
    ghost var c := s.Now();
    NotedFacts(b, c);
    if o.Stopped? { return; }
    NoReadbacks(c.capture.files);
    begun := true;
    InstallWorkOk(lay, sha, job);
    WorkParts(lay, sha, InstallOrders(lay, sha, job), true);
    var orders := InstallOrders(tool.lay, s.dev.sha, job);
    o := WriteAndReadBack(s, tool.lay, orders, Unguarded, a.disk);
    ghost var e := s.Now();
    PhaseKeeps(lay, sha, faithful, a.disk, orders, c, e, o);
    BackupKept(lay, sha, a.disk, c.capture, e.capture);
    if o.Stopped? { InstallPhaseStopped(lay, sha, faithful, job, a, c, e, o); return; }
    o := End(s, Off);
    InstallPhaseEnded(lay, sha, faithful, job, a, c, e, s.Now(), o);
    BackupKept(lay, sha, a.disk, e.capture, s.capture);
  }

  lemma NotedFacts(b: Snap, c: Snap)
    requires Noted(b, c) && NoClaims(b)
    ensures c.disk == b.disk && OnlyReads(b.log, c.log) && NoClaims(c)
  {
  }

  lemma NoReadbacks(files: map<FileName, Bytes>)
    requires forall f :: f in files ==> f.suffix.Plain?
    ensures forall f :: f in files ==> f.suffix != Readback
  {
  }

  lemma WorkParts(lay: Layout, sha: Hash, orders: seq<Order>, wipe: bool)
    requires lay.Valid() && WorkOk(lay, sha, orders, wipe)
    ensures OrdersFit(orders, lay.diskBytes) && TagsDiffer(orders) && PairwiseDisjoint(OrderRegions(orders))
      && DigestsRight(sha, orders)
  {
  }

  lemma PhaseKeeps(lay: Layout, sha: Hash, faithful: bool, d0: Bytes, orders: seq<Order>, a: Snap, b: Snap, o: Outcome)
    requires lay.Valid() && |a.disk| == |b.disk| == |d0| == lay.diskBytes && OrdersFit(orders, |d0|)
    requires PhaseEnd(lay, sha, faithful, d0, orders, a, b, o)
    ensures b.capture.manifest == a.capture.manifest && KeepsFiles(a.capture.files, b.capture.files)
  {
  }

  lemma BackupKept(lay: Layout, sha: Hash, d: Bytes, c1: Capture, c2: Capture)
    requires BackedUp(lay, sha, d, c1) && c2.manifest == c1.manifest && KeepsFiles(c1.files, c2.files)
    ensures BackedUp(lay, sha, d, c2)
  {
    hide BackupRegions;
    CopiesKept(sha, d, c1.files, c2.files, c1.manifest.value.backups, BackupRegions(lay));
  }
}
