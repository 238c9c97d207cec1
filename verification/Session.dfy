// One run's session (RomFlashEngineV1.Session): the device, the capture
// directory it fills and the report it keeps. The capture outlives a stopped
// run; a rollback or restore decides from it alone.

module Sessions {
  import opened Options
  import opened Disk
  import opened Outcomes
  import opened Layout
  import opened Streams
  import opened Devices

  datatype Suffix = Plain | Before | AfterRun | SecondRead | Current | Readback

  datatype FileName = FileName(tag: Label, suffix: Suffix)

  datatype Mode = Update | BackupOnly | Rollback

  /** One entry of report['writes']. */
  datatype WriteEntry = WriteEntry(region: Region, expected: Digest, attempted: bool, verified: bool)

  datatype ReadEntry = ReadEntry(region: Region, digest: Digest)

  /** The report fields later decisions read, and the claims it makes. */
  datatype Report = Report(
    journal: Journal,
    regionReads: map<FileName, ReadEntry>,
    plan: seq<Write>,
    backupComplete: bool,
    readbackVerified: bool,
    invariantsUnchanged: Option<bool>,
    power: Option<PowerState>)

  /** What a rollback reads: the mode and which programs were attempted. */
  datatype Journal = Journal(mode: Option<Mode>, wipeData: bool, writes: map<Label, WriteEntry>)

  const EMPTY_REPORT: Report :=
    Report(Journal(None, false, map[]), map[], [], false, false, None, None)

  datatype Reading = Reading(tag: Label, digest: Digest)

  datatype Kind = InstallBackup | UpdateSnapshot | UpdateHashes

  datatype Manifest = Manifest(
    kind: Kind,
    backups: map<Label, Digest>,
    layout: map<Label, Region>,
    wipeData: bool,
    invariantsBefore: seq<Reading>,
    wipeHeadsBefore: seq<Digest>)

  /** The capture directory: region files, backup-manifest.json and report.json. */
  datatype Capture = Capture(files: map<FileName, Bytes>, manifest: Option<Manifest>, report: Option<Report>)

  const EMPTY_CAPTURE: Capture := Capture(map[], None, None)

  /** Everything a session can observe or leave behind. */
  datatype Snap = Snap(disk: Bytes, log: seq<Event>, capture: Capture, report: Report)

  ghost predicate OnlyReads(log0: seq<Event>, log: seq<Event>) {
    && |log0| <= |log| && log[..|log0|] == log0
    && forall i :: |log0| <= i < |log| ==> log[i].Read?
  }

  ghost predicate KeepsFiles(files0: map<FileName, Bytes>, files: map<FileName, Bytes>) {
    forall f :: f in files0 ==> f in files && files[f] == files0[f]
  }

  /** The saved report is the one saved before, or says what a report of this
      step said; it is never a mixture. */
  ghost predicate SavedStep(a: Snap, b: Snap) {
    || b.capture.report == a.capture.report
    || (&& b.capture.report.Some?
        && (b.capture.report.value.journal == a.report.journal || b.capture.report.value.journal == b.report.journal)
        && SameClaims(b.capture.report.value, b.report))
  }

  ghost predicate SameClaims(a: Report, b: Report) {
    && a.readbackVerified == b.readbackVerified && a.invariantsUnchanged == b.invariantsUnchanged
    && a.power == b.power && a.plan == b.plan
  }

  /** Neither the report nor the one last saved claims anything yet. */
  ghost predicate NoClaims(s: Snap) {
    && !s.report.readbackVerified && s.report.invariantsUnchanged.None? && s.report.power.None?
    && (s.capture.report.Some? ==>
          && !s.capture.report.value.readbackVerified && s.capture.report.value.invariantsUnchanged.None?
          && s.capture.report.value.power.None?)
  }

  /** Nothing but reading and note-taking happened between `a` and `b`. */
  ghost predicate ReadOnly(a: Snap, b: Snap) {
    && b.disk == a.disk
    && OnlyReads(a.log, b.log)
    && KeepsFiles(a.capture.files, b.capture.files)
    && b.capture.manifest == a.capture.manifest
    && b.report.journal == a.report.journal
    && SameClaims(a.report, b.report)
    && SavedStep(a, b)
  }

  lemma ReadOnlyTrans(a: Snap, b: Snap, c: Snap)
    requires ReadOnly(a, b) && ReadOnly(b, c)
    ensures ReadOnly(a, c)
  {
  }

  lemma ReadOnlyRefl(a: Snap)
    ensures ReadOnly(a, a)
  {
  }

  lemma ReadOnlyDisk(a: Snap, b: Snap)
    requires ReadOnly(a, b)
    ensures b.disk == a.disk && KeepsFiles(a.capture.files, b.capture.files)
    ensures b.capture.manifest == a.capture.manifest
  {
  }

  lemma ReadOnlyLog(a: Snap, b: Snap)
    requires ReadOnly(a, b)
    ensures OnlyReads(a.log, b.log) && |a.log| <= |b.log|
  {
  }

  lemma ReadOnlyNoClaims(a: Snap, b: Snap)
    requires ReadOnly(a, b) && NoClaims(a)
    ensures NoClaims(b) && OnlyReads(a.log, b.log) && b.disk == a.disk && b.capture.manifest == a.capture.manifest
  {
  }

  /** Since `log0` the range was read, and what was answered has this digest. */
  ghost predicate WasRead(sha: Hash, log0: seq<Event>, log: seq<Event>, r: Region, digest: Digest) {
    exists i :: |log0| <= i < |log| && ReadAs(sha, log[i], r, digest)
  }

  ghost predicate ReadAs(sha: Hash, e: Event, r: Region, digest: Digest) {
    e.Read? && e.region == r && sha(e.data) == digest
  }

  /** It was read twice with the same digest. */
  ghost predicate ReadTwiceAs(sha: Hash, log0: seq<Event>, log: seq<Event>, r: Region, digest: Digest) {
    exists i, j :: |log0| <= i < j < |log| && ReadAs(sha, log[i], r, digest) && ReadAs(sha, log[j], r, digest)
  }

  lemma WasReadLater(sha: Hash, log0: seq<Event>, mid: seq<Event>, log: seq<Event>, r: Region, digest: Digest)
    requires WasRead(sha, log0, mid, r, digest) && OnlyReads(mid, log)
    ensures WasRead(sha, log0, log, r, digest)
  {
    var i :| |log0| <= i < |mid| && ReadAs(sha, mid[i], r, digest);
    assert log[i] == mid[i];
  }

  lemma WasReadLonger(sha: Hash, log0: seq<Event>, mid: seq<Event>, log: seq<Event>, r: Region, digest: Digest)
    requires |log0| <= |mid| && WasRead(sha, mid, log, r, digest)
    ensures WasRead(sha, log0, log, r, digest)
  {
  }

  lemma WasReadTwice(sha: Hash, log0: seq<Event>, mid: seq<Event>, log: seq<Event>, r: Region, digest: Digest)
    requires |log0| <= |mid| && OnlyReads(mid, log)
    requires WasRead(sha, log0, mid, r, digest) && WasRead(sha, mid, log, r, digest)
    ensures ReadTwiceAs(sha, log0, log, r, digest)
  {
    var i :| |log0| <= i < |mid| && ReadAs(sha, mid[i], r, digest);
    var j :| |mid| <= j < |log| && ReadAs(sha, log[j], r, digest);
    assert log[i] == mid[i];
  }

  class Session {
    const dev: Device
    var capture: Capture
    var report: Report
    /** How many more times the capture directory takes a save. */
    var room: Budget

    constructor (dev: Device, room: Budget)
      ensures this.dev == dev && this.room == room
      ensures capture == EMPTY_CAPTURE && report == EMPTY_REPORT
    {
      this.dev, this.room := dev, room;
      this.capture, this.report := EMPTY_CAPTURE, EMPTY_REPORT;
    }

    ghost function Now(): Snap
      reads this, dev, dev.disk
    {
      Snap(dev.disk[..], dev.log, capture, report)
    }

    /** Neither the device nor the capture directory is going to fail. */
    predicate Tireless()
      reads this, dev
    {
      dev.lifetime.Unlimited? && room.Unlimited?
    }

    method Save() returns (o: Outcome)
      modifies this
      ensures report == old(report) && capture == old(capture).(report := capture.report)
      ensures o.Pass? ==> capture.report == Some(report)
      ensures o.Stopped? ==> o.why == CaptureFailed && capture == old(capture)
      ensures old(room).Unlimited? ==> room.Unlimited? && o.Pass?
    {
      if room.Spent() { return Stopped(CaptureFailed); }
      room := room.Tick();
      capture := capture.(report := Some(report));
      o := Pass;
    }

    method WriteManifest(m: Manifest) returns (o: Outcome)
      modifies this
      ensures report == old(report) && capture == old(capture).(manifest := capture.manifest)
      ensures o.Pass? ==> capture.manifest == Some(m)
      ensures o.Stopped? ==> o.why == CaptureFailed && capture == old(capture)
      ensures old(room).Unlimited? ==> room.Unlimited? && o.Pass?
    {
      if room.Spent() { return Stopped(CaptureFailed); }
      room := room.Tick();
      capture := capture.(manifest := Some(m));
      o := Pass;
    }

    method ReadRegion(tag: Label, r: Region, suffix: Suffix) returns (o: Outcome, data: Bytes, digest: Digest)
      modifies this, dev
      ensures ReadOnly(old(Now()), Now())
      ensures o.Pass? ==> r.Within(dev.disk.Length) && data == Slice(dev.disk[..], r) && digest == dev.sha(data)
      ensures o.Pass? ==> FileName(tag, suffix) !in old(capture.files)
      ensures o.Pass? ==> capture.files == old(capture.files)[FileName(tag, suffix) := data]
      ensures o.Pass? ==> dev.log == old(dev.log) + [Event.Read(r, data)]
      ensures o.Stopped? ==> o.why in {CaptureFileExists, DeviceFailed, CaptureFailed}
      ensures old(Tireless()) ==> Tireless()
      ensures old(Tireless()) && FileName(tag, suffix) !in old(capture.files) && r.Within(dev.disk.Length) ==> o.Pass?
    {
      digest := "";
      var out := FileName(tag, suffix);
      if out in capture.files { return Stopped(CaptureFileExists), [], digest; }
      var read;
      read, data := dev.Read(r);
      capture := capture.(files := capture.files[out := data]);
      if read.Stopped? { return read, data, digest; }
      digest := dev.sha(data);
      report := report.(regionReads := report.regionReads[out := ReadEntry(r, digest)]);
      :- Save();
      o := Pass;
    }

    method Remove(f: FileName)
      modifies this
      ensures report == old(report) && room == old(room)
      ensures capture == old(capture).(files := old(capture.files) - {f})
    {
      capture := capture.(files := capture.files - {f});
    }

    /** Reads a range without keeping its bytes. */
    method HashRegion(tag: Label, r: Region, suffix: Suffix) returns (o: Outcome, digest: Digest)
      modifies this, dev
      ensures ReadOnly(old(Now()), Now())
      ensures o.Pass? ==> r.Within(dev.disk.Length) && digest == dev.sha(Slice(dev.disk[..], r))
      ensures o.Pass? ==> capture.files == old(capture.files)
      ensures o.Pass? ==> dev.log == old(dev.log) + [Event.Read(r, Slice(dev.disk[..], r))]
      ensures o.Stopped? ==> o.why in {CaptureFileExists, DeviceFailed, CaptureFailed}
      ensures old(Tireless()) ==> Tireless()
      ensures old(Tireless()) && FileName(tag, suffix) !in old(capture.files) && r.Within(dev.disk.Length) ==> o.Pass?
    {
      digest := "";
      var data;
      if dev.hashesOnDevice {
        data :- dev.Read(r);
        digest := dev.sha(data);
        report := report.(regionReads := report.regionReads[FileName(tag, suffix) := ReadEntry(r, digest)]);
        :- Save();
      } else {
        data, digest :- ReadRegion(tag, r, suffix);
        Remove(FileName(tag, suffix));
      }
      o := Pass;
    }

    /** Notes the attempt in the saved report before the device sees a byte. */
    method Program(tag: Label, r: Region, s: Stream, expected: Digest) returns (o: Outcome, ghost left: Bytes)
      requires dev.Valid() && r.Within(dev.disk.Length)
      modifies this, dev, dev.disk
      ensures report == old(report).(journal := Attempted(old(report.journal), tag, r, expected))
      ensures capture == old(capture).(report := capture.report)
      ensures |left| == r.Size()
      ensures if dev.log == old(dev.log)
              then o.Stopped? && dev.disk[..] == old(dev.disk[..]) && capture == old(capture)
              else && dev.log == old(dev.log) + [Event.Program(r)]
                   && dev.disk[..] == dev.warp(dev.log, Overwrite(old(dev.disk[..]), r.Lo(), left))
                   && capture.report == Some(report)
      ensures o.Pass? ==> dev.log != old(dev.log) && left == Flatten(s.blocks)
      ensures o.Stopped? ==> o.why !in {ReadbackDiffers, ProtectedChanged}
      ensures old(Tireless()) ==> Tireless()
      ensures old(Tireless()) && !s.broken && |Flatten(s.blocks)| == r.Size() ==> o.Pass?
    {
      left := Zeros(r.Size());
      report := report.(journal := Attempted(report.journal, tag, r, expected));
      :- Save();
      left :- dev.Program(r, s);
      :- Save();
      o := Pass;
    }

    method VerifyWritten(tag: Label, r: Region, expected: Digest) returns (o: Outcome)
      requires tag in report.journal.writes
      modifies this, dev
      ensures dev.disk[..] == old(dev.disk[..])
      ensures OnlyReads(old(dev.log), dev.log)
      ensures KeepsFiles(old(capture.files), capture.files) && capture.manifest == old(capture.manifest)
      ensures SavedStep(old(Now()), Now())
      ensures SameClaims(old(report), report)
      ensures || report.journal == old(report.journal)
              || (&& r.Within(dev.disk.Length)
               && report.journal == Verified(old(report.journal), tag, dev.sha(Slice(dev.disk[..], r)) == expected))
      ensures o.Pass? ==> && r.Within(dev.disk.Length) && dev.sha(Slice(dev.disk[..], r)) == expected
                          && report.journal == Verified(old(report.journal), tag, true)
                          && dev.log == old(dev.log) + [Event.Read(r, Slice(dev.disk[..], r))]
                          && capture.files == old(capture.files)
      ensures o.Stopped? ==> o.why in {CaptureFileExists, DeviceFailed, CaptureFailed, ReadbackDiffers}
      ensures o == Stopped(ReadbackDiffers) ==> r.Within(dev.disk.Length) && dev.sha(Slice(dev.disk[..], r)) != expected
      ensures old(Tireless()) ==> Tireless()
      ensures (&& old(Tireless()) && FileName(tag, Readback) !in old(capture.files) && r.Within(dev.disk.Length)
               && dev.sha(Slice(dev.disk[..], r)) == expected) ==> o.Pass?
    {
      var digest :- HashRegion(tag, r, Readback);
      var ok := digest == expected;
      report := report.(journal := Verified(report.journal, tag, ok));
      :- Save();
      if !ok { return Stopped(ReadbackDiffers); }
      o := Pass;
    }
  }

  /** How a run on a faithful device may fail: when the device stops answering,
      what it then leaves in the range it was programming, and when the capture
      directory is full. */
  datatype Trouble = Trouble(lifetime: Budget, torn: nat, scar: (seq<Event>, Bytes) -> Bytes, room: Budget) {
    ghost predicate Valid() { SizeKept(scar) }

    predicate Free() { lifetime.Unlimited? && room.Unlimited? }
  }

  const UNTROUBLED: Trouble := Trouble(Unlimited, 0, (log, b) => b, Unlimited)

  /** A new session on a faithful device over this disk. */
  method FaithfulSession(disk: array<byte>, sha: Hash, hashesOnDevice: bool, t: Trouble) returns (s: Session)
    requires t.Valid()
    ensures fresh(s) && fresh(s.dev) && s.dev.disk == disk && s.dev.sha == sha
    ensures s.dev.Valid() && s.dev.Faithful() && (t.Free() ==> s.Tireless())
    ensures s.capture == EMPTY_CAPTURE && s.report == EMPTY_REPORT && s.dev.log == []
  {
    var dev := new Device(disk, sha, (log, d) => d, t.torn, t.scar, hashesOnDevice, t.lifetime);
    s := new Session(dev, t.room);
  }

  function Attempted(j: Journal, tag: Label, r: Region, expected: Digest): Journal {
    j.(writes := j.writes[tag := WriteEntry(r, expected, true, false)])
  }

  function Verified(j: Journal, tag: Label, ok: bool): Journal
    requires tag in j.writes
  {
    j.(writes := j.writes[tag := j.writes[tag].(verified := ok)])
  }
}
