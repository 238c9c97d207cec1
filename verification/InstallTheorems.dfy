// What an install and a restore promise together.

module InstallTheorems {
  import opened Options
  import opened Disk
  import opened Outcomes
  import opened Layout
  import opened UpdateLayout
  import opened Devices
  import opened Sessions
  import opened Survey
  import opened Orders
  import opened Phases
  import opened UpdateSurvey
  import opened UpdateEngine
  import opened UpdateTheorems
  import opened Installs
  import opened Restores
  import opened Gpt

  /** Every partition the install, the ROM or the restore may write. */
  function Touchable(lay: Layout): seq<Region> {
    WriteRegions(FullImageWrites(lay) + RomWrites(lay) + [PartWrite(lay, Userdata)])
  }

  ghost predicate TouchablePart(n: PartName) { Updatable(n) || RomMayWrite(n) || n.Userdata? }

  lemma TouchableAt(lay: Layout, n: PartName) returns (k: nat)
    requires TouchablePart(n)
    ensures k < |Touchable(lay)| && Touchable(lay)[k] == lay.parts(n)
  {
    var m: int := match n
      case Boot => 0 case Dtbo => 1 case Vendor => 2 case System => 3 case Misc => 4 case Metadata => 5
      case Modemst1 => 6 case Modemst2 => 7 case Fsg => 8 case Fsc => 9 case Persist => 10 case _ => 11;
    k := m;
  }

  lemma TouchableIs(lay: Layout, k: nat) returns (n: PartName)
    requires k < |Touchable(lay)|
    ensures TouchablePart(n) && Touchable(lay)[k] == lay.parts(n)
  {
    n := if k == 0 then Boot else if k == 1 then Dtbo else if k == 2 then Vendor else if k == 3 then System
         else if k == 4 then Misc else if k == 5 then Metadata else if k == 6 then Modemst1 else if k == 7 then Modemst2
         else if k == 8 then Fsg else if k == 9 then Fsc else if k == 10 then Persist else Userdata;
  }

  lemma InsideTouchable(lay: Layout, r: Region, n: PartName)
    requires TouchablePart(n) && r.Inside(lay.parts(n))
    ensures InsideOne(r, Touchable(lay))
  {
    hide Touchable;
    var k := TouchableAt(lay, n);
    assert r.Inside(Touchable(lay)[k]);
  }

  /** What the running ROM may change: userdata and the partitions it owns. */
  ghost predicate RomRan(lay: Layout, d1: Bytes, d2: Bytes) {
    SameOutside(d1, d2, WriteRegions(RomWrites(lay) + [PartWrite(lay, Userdata)]))
  }

  lemma RomRanTouchable(lay: Layout, d1: Bytes, d2: Bytes)
    requires RomRan(lay, d1, d2)
    ensures SameOutside(d1, d2, Touchable(lay))
  {
    hide RomWrites, Touchable, SameOutside, UserdataWrites, FullImageWrites;
    var ws := RomWrites(lay) + [PartWrite(lay, Userdata)];
    var rs := WriteRegions(ws);
    RomWritesAre(lay, Zero);
    forall k | 0 <= k < |rs| ensures InsideOne(rs[k], Touchable(lay)) {
      assert ws[k] in ws;
      InsideTouchable(lay, rs[k], ws[k].tag.name);
    }
    SameOutsideWiden(d1, d2, rs, Touchable(lay));
  }

  lemma AllowedTouchable(lay: Layout, w: Write)
    requires lay.Valid() && WriteAllowed(lay, w, true)
    ensures InsideOne(w.region, Touchable(lay))
  {
    AllowedIsInside(lay, w, true);
    hide Touchable, Layout.Valid;
    InsideTouchable(lay, w.region, Target(w));
  }

  lemma InstallTouchable(lay: Layout, sha: Hash, job: InstallJob, d0: Bytes, d1: Bytes)
    requires InstallOk(lay, sha, job)
    requires SameOutside(d0, d1, WriteRegions(InstallPlan(lay, job)))
    ensures SameOutside(d0, d1, Touchable(lay))
  {
    var ws := InstallPlan(lay, job);
    var rs := WriteRegions(ws);
    InstallWorkOk(lay, sha, job);
    assert lay.Valid();
    hide InstallPlan, Touchable, InstallOk, Layout.Valid, WriteAllowed, SameOutside;
    forall k | 0 <= k < |rs| ensures InsideOne(rs[k], Touchable(lay)) { AllowedTouchable(lay, ws[k]); }
    SameOutsideWiden(d0, d1, rs, Touchable(lay));
  }

  lemma RestoreTouchable(lay: Layout, intact: set<PartName>, mode: UserdataMode, d2: Bytes, d3: Bytes)
    requires lay.Valid() && SameOutside(d2, d3, WriteRegions(RestorePlan(lay, intact, mode)))
    ensures SameOutside(d2, d3, Touchable(lay))
  {
    var ws := RestorePlan(lay, intact, mode);
    var rs := WriteRegions(ws);
    RestorePlanOk(lay, intact, mode);
    hide RestorePlan, Touchable;
    forall k | 0 <= k < |rs| ensures InsideOne(rs[k], Touchable(lay)) {
      RestoreInside(lay, ws[k], mode);
      InsideTouchable(lay, rs[k], RestoreTarget(ws[k]));
    }
    SameOutsideWiden(d2, d3, rs, Touchable(lay));
  }

  /** The table reads the same, so its checks still pass. */
  lemma IdentityTouchable(tool: Tool, kit: Option<Kit>, d0: Bytes, d: Bytes)
    requires tool.lay.Valid() && |d0| == tool.lay.diskBytes && SameOutside(d0, d, Touchable(tool.lay))
    ensures IdentityOk(tool, kit, d) <==> IdentityOk(tool, kit, d0)
  {
    var lay, rs := tool.lay, Touchable(tool.lay);
    hide Touchable, GptAccepted;
    forall k | 0 <= k < |rs| ensures !rs[k].Overlaps(lay.gptPrimary) && !rs[k].Overlaps(lay.gptTail) {
      var n := TouchableIs(lay, k);
      assert !lay.gptPrimary.Overlaps(lay.parts(n)) && !lay.gptTail.Overlaps(lay.parts(n));
    }
    SliceUntouched(d0, d, rs, lay.gptPrimary);
    SliceUntouched(d0, d, rs, lay.gptTail);
  }

  // ---- partition by partition ----

  /** The backup of any restored range is in the capture, byte for byte. */
  lemma BackedUpBytes(lay: Layout, sha: Hash, d0: Bytes, c: Capture, w: Write, mode: UserdataMode)
    requires BackedUp(lay, sha, d0, c) && IsRestoreWrite(lay, w, mode) && !IsZeroTag(w.tag)
    ensures CopyOf(sha, d0, c.files, c.manifest.value.backups, w)
  {
    hide BackupRegions, LayoutFor;
    RestoreIsBackedUp(lay, w, mode);
    var rs := BackupRegions(lay);
    var k :| 0 <= k < |rs| && rs[k] == w;
  }

  /** Every planned range holds its source after a finished restore. */
  lemma PlannedRestored(lay: Layout, sha: Hash, d0: Bytes, d2: Bytes, d3: Bytes, c: Capture, intact: set<PartName>,
                        mode: UserdataMode, w: Write)
    requires lay.Valid() && |d0| == |d2| == |d3| == lay.diskBytes && BackedUp(lay, sha, d0, c)
    requires RestoreWorkOk(lay, sha, c, RestorePlan(lay, intact, mode))
    requires Holds(d2, d3, Patches(RestoreOrders(sha, c, RestorePlan(lay, intact, mode))))
    requires w in RestorePlan(lay, intact, mode)
    ensures w.region.Within(|d3|)
    ensures Slice(d3, w.region) == if IsZeroTag(w.tag) then Zeros(w.region.Size()) else Slice(d0, w.region)
  {
    assert c.manifest.Some?;
    hide RestorePlan, BackedUp, Layout.Valid, SameOutside, BackupFilesOk, PairwiseDisjoint, DistinctTags,
         IsRestoreWrite, Programmable,
         RestoreWorkOk, Holds, Region.Within, LayoutFor, BackupRegions, HasSource;
    var ws := RestorePlan(lay, intact, mode);
    RestorePlanOk(lay, intact, mode);
    RestoreWorkParts(lay, sha, c, ws);
    var os := RestoreOrders(sha, c, ws);
    var k :| 0 <= k < |ws| && ws[k] == w;
    OrderHeld(d2, d3, os, k);
    assert os[k] == RestoreOrder(sha, c, w) && IsRestoreWrite(lay, ws[k], mode);
    if !IsZeroTag(w.tag) { BackedUpBytes(lay, sha, d0, c, w, mode); }
  }

  lemma OrderHeld(d0: Bytes, d: Bytes, os: seq<Order>, k: nat)
    requires k < |os| && Holds(d0, d, Patches(os))
    ensures os[k].region.Within(|d|) && Slice(d, os[k].region) == os[k].payload
  {
    assert Patches(os)[k] == Patch(os[k].region, os[k].payload);
  }

  /** No digest of a ROM-writable partition hides a change. */
  ghost predicate RomDoesNotCollide(lay: Layout, sha: Hash, d0: Bytes, d2: Bytes) {
    forall n :: RomMayWrite(n) && lay.parts(n).Within(|d0|) && lay.parts(n).Within(|d2|) ==>
      NoCollision(sha, Slice(d2, lay.parts(n)), Slice(d0, lay.parts(n)))
  }

  /** A partition found intact is neither written nor different. */
  lemma IntactRestored(lay: Layout, sha: Hash, d0: Bytes, d2: Bytes, d3: Bytes, c: Capture, intact: set<PartName>,
                       mode: UserdataMode, n: PartName)
    requires lay.Valid() && |d0| == |d2| == |d3| == lay.diskBytes && BackedUp(lay, sha, d0, c)
    requires IntactOf(lay, sha, d2, c, intact) && RomDoesNotCollide(lay, sha, d0, d2)
    requires SameOutside(d2, d3, WriteRegions(RestorePlan(lay, intact, mode)))
    requires RomMayWrite(n) && n in intact
    ensures lay.parts(n).Within(|d3|) && Slice(d3, lay.parts(n)) == Slice(d0, lay.parts(n))
  {
    hide BackedUp, RomDoesNotCollide, SameOutside;
    PartsWithin(lay);
    BackedUpSome(lay, sha, d0, c);
    IntactBytes(lay, sha, d0, d2, c, intact, n);
    var ws := RestorePlan(lay, intact, mode);
    RestorePlanOk(lay, intact, mode);
    NotPlanned(lay, intact, mode, n);
    hide RestorePlan, BackedUp, Layout.Valid, IntactOf, RomDoesNotCollide, SameOutside;
    forall k | 0 <= k < |ws| ensures !WriteRegions(ws)[k].Overlaps(lay.parts(n)) {
      RestoreApart(lay, ws[k], PartWrite(lay, n), mode);
    }
    SliceUntouched(d2, d3, WriteRegions(ws), lay.parts(n));
  }

  lemma IntactBytes(lay: Layout, sha: Hash, d0: Bytes, d2: Bytes, c: Capture, intact: set<PartName>, n: PartName)
    requires BackedUp(lay, sha, d0, c) && c.manifest.Some? && lay.parts(n).Within(|d0|) && lay.parts(n).Within(|d2|)
    requires IntactOf(lay, sha, d2, c, intact) && RomDoesNotCollide(lay, sha, d0, d2)
    requires RomMayWrite(n) && n in intact
    ensures Slice(d2, lay.parts(n)) == Slice(d0, lay.parts(n))
  {
    assert CopyOf(sha, d0, c.files, c.manifest.value.backups, PartWrite(lay, n)) by {
      hide BackedUp, IntactOf, RomDoesNotCollide;
      BackedUpBytes(lay, sha, d0, c, PartWrite(lay, n), Zero);
    }
    hide BackedUp;
    assert NoCollision(sha, Slice(d2, lay.parts(n)), Slice(d0, lay.parts(n)));
  }

  lemma NotPlanned(lay: Layout, intact: set<PartName>, mode: UserdataMode, n: PartName)
    requires RomMayWrite(n) && n in intact
    ensures forall k :: 0 <= k < |RestorePlan(lay, intact, mode)| ==> RestorePlan(lay, intact, mode)[k].tag != Part(n)
    ensures IsRestoreWrite(lay, PartWrite(lay, n), mode)
  {
    var ws := RestorePlan(lay, intact, mode);
    RomWritesAre(lay, mode);
    hide RomWrites, FullImageWrites, UserdataWrites;
    forall k | 0 <= k < |ws| ensures ws[k].tag != Part(n) {
      assert ws[k] in ws;
      assert ws[k] in FullImageWrites(lay) || ws[k] in Keep(RomWrites(lay), intact)
        || ws[k] in UserdataWrites(lay, mode);
    }
  }

  lemma Planned(lay: Layout, intact: set<PartName>, mode: UserdataMode, n: PartName)
    requires Updatable(n) || (RomMayWrite(n) && n !in intact)
    ensures PartWrite(lay, n) in RestorePlan(lay, intact, mode)
  {
    RomWritesAre(lay, mode);
    hide RomWrites, FullImageWrites, UserdataWrites;
    assert Updatable(n) ==> PartWrite(lay, n) in FullImageWrites(lay);
    assert RomMayWrite(n) && n !in intact ==> PartWrite(lay, n) in Keep(RomWrites(lay), intact);
  }

  lemma PlanSameOutside(lay: Layout, sha: Hash, d2: Bytes, d3: Bytes, c: Capture, intact: set<PartName>,
                        mode: UserdataMode)
    requires c.manifest.Some? && RestoreWorkOk(lay, sha, c, RestorePlan(lay, intact, mode))
    requires Holds(d2, d3, Patches(RestoreOrders(sha, c, RestorePlan(lay, intact, mode))))
    ensures SameOutside(d2, d3, WriteRegions(RestorePlan(lay, intact, mode)))
  {
    PlanRegions(lay, sha, c, intact, mode);
  }

  lemma PlannedPartition(lay: Layout, sha: Hash, d0: Bytes, d2: Bytes, d3: Bytes, c: Capture, intact: set<PartName>,
                         mode: UserdataMode, n: PartName)
    requires lay.Valid() && |d0| == |d2| == |d3| == lay.diskBytes && BackedUp(lay, sha, d0, c)
    requires RestoreWorkOk(lay, sha, c, RestorePlan(lay, intact, mode))
    requires Holds(d2, d3, Patches(RestoreOrders(sha, c, RestorePlan(lay, intact, mode))))
    requires Updatable(n) || (RomMayWrite(n) && n !in intact)
    ensures lay.parts(n).Within(|d3|) && Slice(d3, lay.parts(n)) == Slice(d0, lay.parts(n))
  {
    hide RestorePlan, BackedUp, Holds, RestoreWorkOk, Layout.Valid;
    Planned(lay, intact, mode, n);
    PlannedRestored(lay, sha, d0, d2, d3, c, intact, mode, PartWrite(lay, n));
  }

  /** Every partition but userdata has its old bytes back. */
  lemma PartitionRestored(lay: Layout, sha: Hash, d0: Bytes, d2: Bytes, d3: Bytes, c: Capture, intact: set<PartName>,
                          mode: UserdataMode, n: PartName)
    requires lay.Valid() && |d0| == |d2| == |d3| == lay.diskBytes && BackedUp(lay, sha, d0, c)
    requires IntactOf(lay, sha, d2, c, intact) && RomDoesNotCollide(lay, sha, d0, d2)
    requires RestoreWorkOk(lay, sha, c, RestorePlan(lay, intact, mode))
    requires Holds(d2, d3, Patches(RestoreOrders(sha, c, RestorePlan(lay, intact, mode))))
    requires Updatable(n) || RomMayWrite(n)
    ensures lay.parts(n).Within(|d3|) && Slice(d3, lay.parts(n)) == Slice(d0, lay.parts(n))
  {
    assert c.manifest.Some?;
    hide RestorePlan, BackedUp, IntactOf, RomDoesNotCollide, SameOutside, Layout.Valid, Holds, RestoreWorkOk;
    if RomMayWrite(n) && n in intact {
      PlanSameOutside(lay, sha, d2, d3, c, intact, mode);
      IntactRestored(lay, sha, d0, d2, d3, c, intact, mode, n);
    } else {
      PlannedPartition(lay, sha, d0, d2, d3, c, intact, mode, n);
    }
  }

  // ---- the disk ----

  /** Of userdata, nothing changed between its first sectors and its last, as many
      of each as the mode writes. */
  ghost predicate MiddleKept(lay: Layout, d2: Bytes, d3: Bytes, mode: UserdataMode) {
    var u := lay.parts(Userdata);
    var head, foot := if mode.Zero? then lay.userdataHeadZero else lay.userdataHeadBackup,
                      if mode.Zero? then lay.userdataFooter else lay.userdataTailBackup;
    forall i :: 0 <= i < |d3| && i < |d2| && (u.start + head) * SECTOR <= i < (u.start + u.sectors - foot) * SECTOR ==>
      d3[i] == d2[i]
  }

  /** Those first and last sectors hold zeroes, or their old bytes. */
  ghost predicate EndsAsMode(lay: Layout, d0: Bytes, d3: Bytes, mode: UserdataMode) {
    var u := lay.parts(Userdata);
    var head, foot := if mode.Zero? then lay.userdataHeadZero else lay.userdataHeadBackup,
                      if mode.Zero? then lay.userdataFooter else lay.userdataTailBackup;
    forall i :: (&& 0 <= i < |d3| && i < |d0| && u.start * SECTOR <= i < (u.start + u.sectors) * SECTOR
                 && (i < (u.start + head) * SECTOR || i >= (u.start + u.sectors - foot) * SECTOR)) ==>
      d3[i] == if mode.Zero? then 0 else d0[i]
  }

  /** What restore undoes: on disk `d3` everything outside userdata is `d0`
      again, and userdata is as its mode says. */
  ghost predicate Undone(lay: Layout, d0: Bytes, d2: Bytes, d3: Bytes, mode: UserdataMode)
    requires |d0| == |d2| == |d3| == lay.diskBytes
  {
    SameOutside(d0, d3, [lay.parts(Userdata)]) && MiddleKept(lay, d2, d3, mode) && EndsAsMode(lay, d0, d3, mode)
  }

  /** Of userdata, nothing but the two planned ranges changed. */
  ghost predicate RestKept(lay: Layout, d2: Bytes, d3: Bytes, mode: UserdataMode)
    requires lay.Valid() && |d2| == |d3| == lay.diskBytes
  {
    UserdataWithin(lay);
    forall i :: (&& lay.parts(Userdata).Covers(i)
                 && (forall k :: 0 <= k < 2 ==> !UserdataWrites(lay, mode)[k].region.Covers(i))) ==> d3[i] == d2[i]
  }

  /** One of the two planned userdata ranges holds zeroes, or its old bytes. */
  ghost predicate AsMode(lay: Layout, d0: Bytes, d3: Bytes, mode: UserdataMode, k: nat)
    requires lay.Valid() && |d0| == |d3| == lay.diskBytes && k < 2
  {
    UserdataWithin(lay);
    var w := UserdataWrites(lay, mode)[k];
    Slice(d3, w.region) == if mode.Zero? then Zeros(w.region.Size()) else Slice(d0, w.region)
  }

  /** Where the two planned ranges are. */
  lemma UserdataRanges(lay: Layout, mode: UserdataMode, i: int)
    requires lay.Valid()
    ensures var u := lay.parts(Userdata);
      var head, foot := if mode.Zero? then lay.userdataHeadZero else lay.userdataHeadBackup,
                        if mode.Zero? then lay.userdataFooter else lay.userdataTailBackup;
      && (UserdataWrites(lay, mode)[0].region.Covers(i) <==>
            u.start * SECTOR <= i < (u.start + head) * SECTOR)
      && (UserdataWrites(lay, mode)[1].region.Covers(i) <==>
            (u.start + u.sectors - foot) * SECTOR <= i < (u.start + u.sectors) * SECTOR)
  {
  }

  lemma KeptInBytes(lay: Layout, d2: Bytes, d3: Bytes, mode: UserdataMode)
    requires lay.Valid() && |d2| == |d3| == lay.diskBytes && RestKept(lay, d2, d3, mode)
    ensures MiddleKept(lay, d2, d3, mode)
  {
    UserdataWithin(lay);
    var u := lay.parts(Userdata);
    var head, foot := if mode.Zero? then lay.userdataHeadZero else lay.userdataHeadBackup,
                      if mode.Zero? then lay.userdataFooter else lay.userdataTailBackup;
    assert 0 < head && 0 < foot;
    hide UserdataWrites, Layout.Valid;
    forall i | 0 <= i < |d3| && (u.start + head) * SECTOR <= i < (u.start + u.sectors - foot) * SECTOR
      ensures d3[i] == d2[i]
    {
      UserdataRanges(lay, mode, i);
      assert u.Covers(i) && forall k :: 0 <= k < 2 ==> !UserdataWrites(lay, mode)[k].region.Covers(i);
    }
  }

  lemma ModeInBytes(lay: Layout, d0: Bytes, d3: Bytes, mode: UserdataMode)
    requires lay.Valid() && |d0| == |d3| == lay.diskBytes
    requires AsMode(lay, d0, d3, mode, 0) && AsMode(lay, d0, d3, mode, 1)
    ensures EndsAsMode(lay, d0, d3, mode)
  {
    UserdataWithin(lay);
    hide UserdataWrites, Layout.Valid;
    var u := lay.parts(Userdata);
    var head, foot := if mode.Zero? then lay.userdataHeadZero else lay.userdataHeadBackup,
                      if mode.Zero? then lay.userdataFooter else lay.userdataTailBackup;
    forall i | 0 <= i < |d3| && u.start * SECTOR <= i < (u.start + u.sectors) * SECTOR
      && (i < (u.start + head) * SECTOR || i >= (u.start + u.sectors - foot) * SECTOR)
      ensures d3[i] == if mode.Zero? then 0 else d0[i]
    {
      UserdataRanges(lay, mode, i);
      var k := if i < (u.start + head) * SECTOR then 0 else 1;
      var r := UserdataWrites(lay, mode)[k].region;
      assert AsMode(lay, d0, d3, mode, k) && r.Covers(i);
      SliceByte(d3, r, i);
      SliceByte(d0, r, i);
    }
  }

  lemma SliceByte(d: Bytes, r: Region, i: int)
    requires r.Within(|d|) && r.Covers(i)
    ensures 0 <= i < |d| && Slice(d, r)[i - r.Lo()] == d[i]
  {
  }

  lemma UserdataWithin(lay: Layout)
    requires lay.Valid()
    ensures lay.parts(Userdata).Within(lay.diskBytes)
    ensures forall mode, k :: 0 <= k < 2 ==> UserdataWrites(lay, mode)[k].region.Within(lay.diskBytes)
  {
    forall mode, k | 0 <= k < 2 ensures UserdataWrites(lay, mode)[k].region.Within(lay.diskBytes) {
      assert IsRestoreWrite(lay, UserdataWrites(lay, mode)[k], mode);
      RestoreInside(lay, UserdataWrites(lay, mode)[k], mode);
    }
  }

  lemma RestoreUndoes(lay: Layout, sha: Hash, d0: Bytes, d2: Bytes, d3: Bytes, c: Capture, intact: set<PartName>,
                      mode: UserdataMode)
    requires lay.Valid() && |d0| == |d2| == |d3| == lay.diskBytes && BackedUp(lay, sha, d0, c)
    requires SameOutside(d0, d2, Touchable(lay))
    requires IntactOf(lay, sha, d2, c, intact) && RomDoesNotCollide(lay, sha, d0, d2)
    requires RestoreWorkOk(lay, sha, c, RestorePlan(lay, intact, mode))
    requires Holds(d2, d3, Patches(RestoreOrders(sha, c, RestorePlan(lay, intact, mode))))
    ensures Undone(lay, d0, d2, d3, mode)
  {
    hide RestorePlan, BackedUp, IntactOf, RomDoesNotCollide, Touchable, SameOutside, Layout.Valid, RestoreWorkOk, Holds,
         RestKept, AsMode, MiddleKept, EndsAsMode;
    BackedUpSome(lay, sha, d0, c);
    OutsideUserdata(lay, sha, d0, d2, d3, c, intact, mode);
    PlanSameOutside(lay, sha, d2, d3, c, intact, mode);
    InsideUserdata(lay, d2, d3, intact, mode);
    UserdataBack(lay, sha, d0, d2, d3, c, intact, mode, 0);
    UserdataBack(lay, sha, d0, d2, d3, c, intact, mode, 1);
    KeptInBytes(lay, d2, d3, mode);
    ModeInBytes(lay, d0, d3, mode);
  }

  lemma BackedUpSome(lay: Layout, sha: Hash, d: Bytes, c: Capture)
    requires BackedUp(lay, sha, d, c)
    ensures c.manifest.Some?
  {
  }

  /** The two userdata writes of the plan. */
  lemma UserdataBack(lay: Layout, sha: Hash, d0: Bytes, d2: Bytes, d3: Bytes, c: Capture, intact: set<PartName>,
                     mode: UserdataMode, k: nat)
    requires lay.Valid() && |d0| == |d2| == |d3| == lay.diskBytes && BackedUp(lay, sha, d0, c) && k < 2
    requires RestoreWorkOk(lay, sha, c, RestorePlan(lay, intact, mode))
    requires Holds(d2, d3, Patches(RestoreOrders(sha, c, RestorePlan(lay, intact, mode))))
    ensures AsMode(lay, d0, d3, mode, k)
  {
    BackedUpSome(lay, sha, d0, c);
    hide RestorePlan, BackedUp, Layout.Valid, RestoreWorkOk, Holds, UserdataWrites;
    UserdataWithin(lay);
    UserdataTags(lay, mode, k);
    var w := UserdataWrites(lay, mode)[k];
    LastInPlan(lay, intact, mode, k);
    PlannedRestored(lay, sha, d0, d2, d3, c, intact, mode, w);
  }

  lemma UserdataTags(lay: Layout, mode: UserdataMode, k: nat)
    requires k < 2
    ensures IsZeroTag(UserdataWrites(lay, mode)[k].tag) <==> mode.Zero?
  {
  }

  lemma LastInPlan(lay: Layout, intact: set<PartName>, mode: UserdataMode, k: nat)
    requires k < 2
    ensures UserdataWrites(lay, mode)[k] in RestorePlan(lay, intact, mode)
  {
    var ud := UserdataWrites(lay, mode);
    assert ud[k] in ud;
  }

  lemma OutsideUserdata(lay: Layout, sha: Hash, d0: Bytes, d2: Bytes, d3: Bytes, c: Capture, intact: set<PartName>,
                        mode: UserdataMode)
    requires lay.Valid() && |d0| == |d2| == |d3| == lay.diskBytes && BackedUp(lay, sha, d0, c)
    requires SameOutside(d0, d2, Touchable(lay))
    requires IntactOf(lay, sha, d2, c, intact) && RomDoesNotCollide(lay, sha, d0, d2)
    requires RestoreWorkOk(lay, sha, c, RestorePlan(lay, intact, mode))
    requires Holds(d2, d3, Patches(RestoreOrders(sha, c, RestorePlan(lay, intact, mode))))
    ensures SameOutside(d0, d3, [lay.parts(Userdata)])
  {
    assert c.manifest.Some?;
    hide RestorePlan, BackedUp, IntactOf, RomDoesNotCollide, Touchable, RestoreWorkOk, SameOutside;
    PlanSameOutside(lay, sha, d2, d3, c, intact, mode);
    RestoreTouchable(lay, intact, mode, d2, d3);
    SameOutsideTrans(d0, d2, d3, Touchable(lay));
    PartsWithin(lay);
    forall n | Updatable(n) || RomMayWrite(n) ensures Slice(d3, lay.parts(n)) == Slice(d0, lay.parts(n)) {
      PartitionRestored(lay, sha, d0, d2, d3, c, intact, mode, n);
    }
    OnlyUserdataLeft(lay, d0, d3);
  }

  lemma OnlyUserdataLeft(lay: Layout, d0: Bytes, d3: Bytes)
    requires lay.Valid() && |d0| == lay.diskBytes && SameOutside(d0, d3, Touchable(lay))
    requires forall n :: lay.parts(n).Within(lay.diskBytes)
    requires forall n :: Updatable(n) || RomMayWrite(n) ==> Slice(d3, lay.parts(n)) == Slice(d0, lay.parts(n))
    ensures SameOutside(d0, d3, [lay.parts(Userdata)])
  {
    hide Touchable, Layout.Valid, SameOutside;
    assert |d3| == |d0| by { SameSize(d0, d3, Touchable(lay)); }
    forall i | 0 <= i < |d3| && !lay.parts(Userdata).Covers(i) ensures d3[i] == d0[i] { ByteBack(lay, d0, d3, i); }
    OneRegion(d0, d3, lay.parts(Userdata));
  }

  lemma OneRegion(d0: Bytes, d: Bytes, r: Region)
    requires |d| == |d0| && forall i :: 0 <= i < |d| && !r.Covers(i) ==> d[i] == d0[i]
    ensures SameOutside(d0, d, [r])
  {
    forall i | 0 <= i < |d| && forall k :: 0 <= k < 1 ==> ![r][k].Covers(i)
      ensures d[i] == d0[i] { assert ![r][0].Covers(i); }
  }

  lemma ByteBack(lay: Layout, d0: Bytes, d3: Bytes, i: nat)
    requires lay.Valid() && |d0| == lay.diskBytes && SameOutside(d0, d3, Touchable(lay))
    requires forall n :: lay.parts(n).Within(lay.diskBytes)
    requires forall n :: Updatable(n) || RomMayWrite(n) ==> Slice(d3, lay.parts(n)) == Slice(d0, lay.parts(n))
    requires i < |d3| && !lay.parts(Userdata).Covers(i)
    ensures d3[i] == d0[i]
  {
    hide Touchable, Layout.Valid;
    var rs := Touchable(lay);
    if n :| TouchablePart(n) && lay.parts(n).Covers(i) {
      var r := lay.parts(n);
      assert Slice(d3, r)[i - r.Lo()] == d3[i] && Slice(d0, r)[i - r.Lo()] == d0[i];
    } else {
      forall k | 0 <= k < |rs| ensures !rs[k].Covers(i) { var n := TouchableIs(lay, k); }
    }
  }

  lemma PlanRegions(lay: Layout, sha: Hash, c: Capture, intact: set<PartName>, mode: UserdataMode)
    requires c.manifest.Some? && RestoreWorkOk(lay, sha, c, RestorePlan(lay, intact, mode))
    ensures Sourced(c, RestorePlan(lay, intact, mode))
    ensures Regions(Patches(RestoreOrders(sha, c, RestorePlan(lay, intact, mode))))
      == WriteRegions(RestorePlan(lay, intact, mode))
  {
    hide RestorePlan;
    var os := RestoreOrders(sha, c, RestorePlan(lay, intact, mode));
    assert Regions(Patches(os)) == OrderRegions(os);
  }

  lemma InsideUserdata(lay: Layout, d2: Bytes, d3: Bytes, intact: set<PartName>, mode: UserdataMode)
    requires lay.Valid() && |d2| == |d3| == lay.diskBytes
    requires SameOutside(d2, d3, WriteRegions(RestorePlan(lay, intact, mode)))
    ensures RestKept(lay, d2, d3, mode)
  {
    UserdataWithin(lay);
    RestorePlanOk(lay, intact, mode);
    var ws := RestorePlan(lay, intact, mode);
    hide RestorePlan, UserdataWrites;
    forall i | lay.parts(Userdata).Covers(i)
      && (forall k :: 0 <= k < 2 ==> !UserdataWrites(lay, mode)[k].region.Covers(i)) ensures d3[i] == d2[i] {
      forall k | 0 <= k < |ws| ensures !WriteRegions(ws)[k].Covers(i) { NotUserdata(lay, ws[k], mode, i); }
      assert 0 <= i < |d3|;
    }
  }

  lemma NotUserdata(lay: Layout, w: Write, mode: UserdataMode, i: int)
    requires lay.Valid() && IsRestoreWrite(lay, w, mode) && lay.parts(Userdata).Covers(i)
    requires forall k :: 0 <= k < 2 ==> !UserdataWrites(lay, mode)[k].region.Covers(i)
    ensures !w.region.Covers(i)
  {
    if w.tag.Part? {
      assert !lay.parts(w.tag.name).Overlaps(lay.parts(Userdata));
    } else {
      assert w.region == UserdataWrites(lay, mode)[0].region || w.region == UserdataWrites(lay, mode)[1].region;
    }
  }

  /** If nothing lived in between, restoring the original userdata gives back
      the whole disk; zeroing it changes only its first and last sectors. */
  lemma UndisturbedUndone(lay: Layout, d0: Bytes, d1: Bytes, d3: Bytes, mode: UserdataMode)
    requires lay.Valid() && |d0| == |d1| == |d3| == lay.diskBytes && Undone(lay, d0, d1, d3, mode)
    requires UserdataTouched(lay, d0, d1)
    ensures mode.Original? ==> d3 == d0
    ensures mode.Zero? ==> EndsZeroed(lay, d0, d3)
  {
    var u := lay.parts(Userdata);
    assert lay.userdataHeadZero < lay.userdataHeadBackup;
    hide Layout.Valid;
    forall i | 0 <= i < |d3| && !u.Covers(i) ensures d3[i] == d0[i] {
      assert forall k :: 0 <= k < 1 ==> ![u][k].Covers(i);
    }
    hide SameOutside;
  }

  /** Of userdata an install changes at most the first sectors, those it zeroes. */
  ghost predicate UserdataTouched(lay: Layout, d0: Bytes, d1: Bytes) {
    var u := lay.parts(Userdata);
    forall i :: (&& 0 <= i < |d1| && i < |d0|
                 && (u.start + lay.userdataHeadZero) * SECTOR <= i < (u.start + u.sectors) * SECTOR) ==> d1[i] == d0[i]
  }

  /** `d3` is `d0` but for zeroes in the first sectors of userdata and in its last,
      where the encryption footer was. */
  ghost predicate EndsZeroed(lay: Layout, d0: Bytes, d3: Bytes) {
    var u := lay.parts(Userdata);
    && |d3| == |d0|
    && forall i :: 0 <= i < |d3| ==>
         d3[i] == if || u.start * SECTOR <= i < (u.start + lay.userdataHeadZero) * SECTOR
                     || (u.start + u.sectors - lay.userdataFooter) * SECTOR <= i < (u.start + u.sectors) * SECTOR
                  then 0 else d0[i]
  }

  // ---- install, then restore ----

  /** The programs of an install. */
  ghost function InstallWork(lay: Layout, sha: Hash, job: InstallJob): (os: seq<Order>)
    requires InstallOk(lay, sha, job)
    ensures |os| == 6
  {
    InstallUsable(lay, sha, job);
    InstallOrders(lay, sha, job)
  }

  /** Where the images go, in bytes. */
  lemma ImageRange(lay: Layout, sha: Hash, job: InstallJob, k: nat)
    requires InstallOk(lay, sha, job) && k < 4
    ensures var order, n := InstallWork(lay, sha, job)[k], ImageAt(k);
      && order.region.Within(lay.diskBytes) && |order.payload| == order.region.Size()
      && n in job.images && order.region.Lo() == lay.parts(n).start * SECTOR
      && order.region.Size() == job.images[n].nbytes <= |job.images[n].content|
      && order.payload == job.images[n].content[..job.images[n].nbytes]
  {
    InstallUsable(lay, sha, job);
    InstallOrderOk(lay, sha, job, k);
    UpdatableIsImageOrder();
    var n := ImageAt(k);
    assert n in IMAGE_ORDER && Fits(lay, n, job.images[n].nbytes);
    hide Layout.Valid, PayloadOk, ZeroOrders;
  }

  lemma ZeroRange(lay: Layout, sha: Hash, job: InstallJob, k: nat)
    requires InstallOk(lay, sha, job) && 4 <= k < 6
    ensures var order := InstallWork(lay, sha, job)[k];
      && order.region.Within(lay.diskBytes) && |order.payload| == order.region.Size()
      && order.region == (if k == 4 then MetadataHead(lay) else UserdataZeroHead(lay))
      && forall j :: 0 <= j < |order.payload| ==> order.payload[j] == 0
  {
    InstallUsable(lay, sha, job);
    InstallOrderOk(lay, sha, job, k);
    hide Layout.Valid, PayloadOk;
  }

  lemma InstalledPlainly(lay: Layout, sha: Hash, job: InstallJob, d0: Bytes, d1: Bytes)
    requires InstallOk(lay, sha, job) && |d0| == lay.diskBytes
    requires Holds(d0, d1, Patches(InstallWork(lay, sha, job)))
    ensures Written(lay, job.images, true, d0, d1)
  {
    var ps := Patches(InstallWork(lay, sha, job));
    hide InstallOk, InstallWork, Holds;
    forall k | 0 <= k < 6 ensures WritesPart(lay, job.images, ps, k) {
      if k < 4 { ImageRange(lay, sha, job, k); } else { ZeroRange(lay, sha, job, k); }
    }
    HoldsWritten(lay, job.images, true, d0, d1, ps);
  }

  /** An install on a faithful device that may fail at any operation. */
  method FaithfulInstall(disk: array<byte>, tool: Tool, job: InstallJob, sha: Hash, trouble: Trouble,
                         hashesOnDevice: bool)
      returns (o: Outcome, capture: Capture)
    requires tool.lay.Valid() && tool.lay.diskBytes == disk.Length && trouble.Valid()
    modifies disk
    ensures capture.manifest.None? ==> disk[..] == old(disk[..])
    ensures capture.manifest.Some? ==>
      && BackedUp(tool.lay, sha, old(disk[..]), capture) && IdentityOk(tool, job.kit, old(disk[..]))
                                       && InstallTouched(tool.lay, old(disk[..]), disk[..])
    ensures o.Pass? ==> capture.manifest.Some? && Written(tool.lay, job.images, true, old(disk[..]), disk[..])
    ensures trouble.Free() ==> (o.Pass? <==> InstallOk(tool.lay, sha, job) && MayInstall(tool, sha, job, old(disk[..])))
  {
    hide BackedUp, IdentityOk, MayInstall, InstallTouched, InstallUsed, InstallOk, Layout.Valid;
    var s := FaithfulSession(disk, sha, hashesOnDevice, trouble);
    ghost var a := s.Now();
    ghost var begun;
    o, begun := RunInstall(s, tool, job);
    capture := s.capture;
    InstallLeaves(tool, sha, job, begun, a, s.Now(), o);
    if o.Pass? { PassedInstall(tool, sha, job, begun, a, s.Now(), o); }
  }

  lemma PassedInstall(tool: Tool, sha: Hash, job: InstallJob, begun: bool, a: Snap, b: Snap, o: Outcome)
    requires tool.lay.Valid() && |a.disk| == |b.disk| == tool.lay.diskBytes
    requires InstallEnd(tool, sha, true, job, begun, a, b, o) && o.Pass?
    ensures b.capture.manifest.Some? && InstallOk(tool.lay, sha, job) && MayInstall(tool, sha, job, a.disk)
    ensures Written(tool.lay, job.images, true, a.disk, b.disk)
  {
    hide BackedUp, IdentityOk, MayInstall, InstallOk, Written, AllReadBack, Holds, Layout.Valid;
    InstalledPlainly(tool.lay, sha, job, a.disk, b.disk);
  }

  /** On any device, a phone that fails a pre-check, or is not stock where that is
      asked for, is refused having only been read. */
  lemma ForeignNotInstalledOver(tool: Tool, sha: Hash, faithful: bool, job: InstallJob, begun: bool, a: Snap, b: Snap,
                                o: Outcome)
    requires tool.lay.Valid() && |a.disk| == |b.disk| == tool.lay.diskBytes
    requires InstallEnd(tool, sha, faithful, job, begun, a, b, o)
    requires || !PreCheckOk(tool, sha, job.kit, a.disk)
             || (&& !job.allowNonstock
                 && exists n: PartName :: (n.System? || n.Vendor? || n.Dtbo?) && tool.lay.parts(n).Within(|a.disk|)
                      && (n in job.stockPins ==> sha(Slice(a.disk, tool.lay.parts(n))) != job.stockPins[n]))
    ensures o.Stopped? && b.capture.manifest.None? && b.disk == a.disk && OnlyReads(a.log, b.log) && NoClaims(b)
  {
    hide BackedUp, IdentityOk, InstallOk, InstallUsed, PreCheckOk;
  }

  /** An install changes nothing but what may be touched, and of userdata and
      metadata only the zeroed heads. */
  ghost predicate InstallTouched(lay: Layout, d0: Bytes, d1: Bytes) {
    && SameOutside(d0, d1, Touchable(lay))
    && UserdataTouched(lay, d0, d1)
  }

  lemma InstallLeaves(tool: Tool, sha: Hash, job: InstallJob, begun: bool, a: Snap, b: Snap, o: Outcome)
    requires tool.lay.Valid() && |a.disk| == |b.disk| == tool.lay.diskBytes
    requires InstallEnd(tool, sha, true, job, begun, a, b, o)
    ensures InstallTouched(tool.lay, a.disk, b.disk)
    ensures b.capture.manifest.None? ==> b.disk == a.disk
  {
    hide BackedUp, IdentityOk, MayInstall;
    if begun {
      hide InstallUsed;
      InstallUsesPlan(tool.lay, sha, job, a, b, o);
      assert InstallOk(tool.lay, sha, job);
      hide InstallOk, InstallUsed, Touchable, InstallPlan, SameOutside, Layout.Valid;
      InstallTouchable(tool.lay, sha, job, a.disk, b.disk);
      InstallInUserdata(tool.lay, sha, job, a.disk, b.disk);
    } else {
      SameOutsideRefl(a.disk, Touchable(tool.lay));
    }
  }

  lemma InstallInUserdata(lay: Layout, sha: Hash, job: InstallJob, d0: Bytes, d1: Bytes)
    requires InstallOk(lay, sha, job) && SameOutside(d0, d1, WriteRegions(InstallPlan(lay, job)))
    ensures UserdataTouched(lay, d0, d1)
  {
    InstallWorkOk(lay, sha, job);
    assert lay.Valid();
    var ws := InstallPlan(lay, job);
    hide InstallOk, InstallPlan, Layout.Valid, WriteAllowed;
    var u := lay.parts(Userdata);
    assert u.Within(lay.diskBytes) && lay.userdataHeadZero > 0;
    forall i | 0 <= i < |d1| && (u.start + lay.userdataHeadZero) * SECTOR <= i < (u.start + u.sectors) * SECTOR
      ensures d1[i] == d0[i] {
      forall k | 0 <= k < |ws| ensures !WriteRegions(ws)[k].Covers(i) { AllowedOutsideUserdata(lay, ws[k], i); }
    }
  }

  lemma InstallUsesPlan(lay: Layout, sha: Hash, job: InstallJob, a: Snap, b: Snap, o: Outcome)
    requires InstallOk(lay, sha, job) && InstallUsed(lay, sha, true, job, a.disk, |a.log|, b, o)
    ensures SameOutside(a.disk, b.disk, WriteRegions(InstallPlan(lay, job)))
  {
    InstallWorkOk(lay, sha, job);
  }

  lemma AllowedOutsideUserdata(lay: Layout, w: Write, i: int)
    requires lay.Valid() && WriteAllowed(lay, w, true) && lay.parts(Userdata).Covers(i)
      && !UserdataZeroHead(lay).Covers(i)
    ensures !w.region.Covers(i)
  {
    AllowedIsInside(lay, w, true);
    if Target(w) != Userdata { assert !lay.parts(Target(w)).Overlaps(lay.parts(Userdata)); }
  }

  /** A restore on a faithful device that may fail at any operation. Wherever it
      stops it has changed nothing but what may be touched, and of userdata only
      its two ranges; nothing failing, it passes; passed, it has undone the install. */
  method FaithfulRestore(disk: array<byte>, tool: Tool, kit: Option<Kit>, sha: Hash, capture: Capture,
                         hashesOnDevice: bool, mode: UserdataMode, trouble: Trouble, ghost d0: Bytes)
      returns (o: Outcome)
    requires tool.lay.Valid() && tool.lay.diskBytes == disk.Length == |d0| && trouble.Valid()
    requires BackedUp(tool.lay, sha, d0, capture) && IdentityOk(tool, kit, d0)
    modifies disk
    ensures SameOutside(old(disk[..]), disk[..], Touchable(tool.lay))
    ensures MiddleKept(tool.lay, old(disk[..]), disk[..], mode)
    ensures SameOutside(d0, old(disk[..]), Touchable(tool.lay)) && trouble.Free() ==> o.Pass?
    ensures (&& SameOutside(d0, old(disk[..]), Touchable(tool.lay))
             && RomDoesNotCollide(tool.lay, sha, d0, old(disk[..])) && o.Pass?) ==>
              Undone(tool.lay, d0, old(disk[..]), disk[..], mode)
  {
    hide BackedUp, IdentityOk, Touchable, Undone, Layout.Valid, RomDoesNotCollide, SameOutside, RestoreUsed, IntactOf,
         RestoreWorkOk, Whole, MiddleKept, RestoreEnd;
    ghost var d2 := disk[..];
    var s := FaithfulSession(disk, sha, hashesOnDevice, trouble);
    ghost var e := s.Now();
    BackupIsWhole(tool.lay, sha, d0, capture);
    if SameOutside(d0, d2, Touchable(tool.lay)) { IdentityTouchable(tool, kit, d0, d2); }
    ghost var intact, begun;
    o, intact, begun := RunRestore(s, tool, capture, kit, mode);
    RestoreLeaves(tool, sha, capture, mode, intact, begun, e, s.Now(), o);
    if SameOutside(d0, d2, Touchable(tool.lay)) && RomDoesNotCollide(tool.lay, sha, d0, d2) && o.Pass? {
      RestoredUndoes(tool, sha, d0, capture, mode, intact, begun, e, s.Now(), o);
    }
  }

  lemma RestoreLeaves(tool: Tool, sha: Hash, c: Capture, mode: UserdataMode, intact: set<PartName>, begun: bool,
                      e: Snap, g: Snap, o: Outcome)
    requires tool.lay.Valid() && |e.disk| == |g.disk| == tool.lay.diskBytes
    requires RestoreEnd(tool.lay, sha, true, c, mode, intact, begun, e, g, o)
    ensures SameOutside(e.disk, g.disk, Touchable(tool.lay)) && MiddleKept(tool.lay, e.disk, g.disk, mode)
  {
    SameOutsideRefl(e.disk, Touchable(tool.lay));
    if begun {
      var ws := RestorePlan(tool.lay, intact, mode);
      RestoreWorkParts(tool.lay, sha, c, ws);
      PlanRegions(tool.lay, sha, c, intact, mode);
      hide Touchable, Layout.Valid, SameOutside, IntactOf, RestoreWorkOk, RestorePlan, LayoutFor, BackupFilesOk,
           RestKept, MiddleKept;
      assert OrderRegions(RestoreOrders(sha, c, ws)) == Regions(Patches(RestoreOrders(sha, c, ws)));
      RestoreTouchable(tool.lay, intact, mode, e.disk, g.disk);
      InsideUserdata(tool.lay, e.disk, g.disk, intact, mode);
      KeptInBytes(tool.lay, e.disk, g.disk, mode);
    }
  }

  /** A restore may stop any number of times: run again from the same capture until
      nothing fails, it passes and has done what it would have done at once. */
  method RestoreUntilDone(disk: array<byte>, tool: Tool, kit: Option<Kit>, sha: Hash, capture: Capture,
                          hashesOnDevice: bool, mode: UserdataMode, stops: seq<Trouble>, ghost d0: Bytes)
      returns (o: Outcome, ghost d2: Bytes)
    requires tool.lay.Valid() && tool.lay.diskBytes == disk.Length == |d0|
    requires forall k :: 0 <= k < |stops| ==> stops[k].Valid()
    requires BackedUp(tool.lay, sha, d0, capture) && IdentityOk(tool, kit, d0)
    modifies disk
    ensures |d2| == disk.Length
    ensures SameOutside(d0, old(disk[..]), Touchable(tool.lay)) ==> o.Pass? && SameOutside(d0, d2, Touchable(tool.lay))
    ensures SameOutside(d0, old(disk[..]), Touchable(tool.lay)) && RomDoesNotCollide(tool.lay, sha, d0, d2) ==>
              Undone(tool.lay, d0, old(disk[..]), disk[..], mode)
  {
    hide BackedUp, IdentityOk, Touchable, Undone, Layout.Valid, RomDoesNotCollide, SameOutside, MiddleKept;
    ghost var d1 := disk[..];
    SameOutsideRefl(d1, Touchable(tool.lay));
    NothingKept(tool.lay, d1, mode);
    for k := 0 to |stops|
      invariant SameOutside(d1, disk[..], Touchable(tool.lay)) && MiddleKept(tool.lay, d1, disk[..], mode)
    {
      ghost var d := disk[..];
      o := FaithfulRestore(disk, tool, kit, sha, capture, hashesOnDevice, mode, stops[k], d0);
      SameOutsideTrans(d1, d, disk[..], Touchable(tool.lay));
      MiddleKeptTrans(tool.lay, d1, d, disk[..], mode);
    }
    d2 := disk[..];
    if SameOutside(d0, d1, Touchable(tool.lay)) { SameOutsideTrans(d0, d1, d2, Touchable(tool.lay)); }
    o := FaithfulRestore(disk, tool, kit, sha, capture, hashesOnDevice, mode, UNTROUBLED, d0);
    if SameOutside(d0, d1, Touchable(tool.lay)) && RomDoesNotCollide(tool.lay, sha, d0, d2) {
      UndoneSince(tool.lay, d0, d1, d2, disk[..], mode);
    }
  }

  lemma NothingKept(lay: Layout, d: Bytes, mode: UserdataMode)
    ensures MiddleKept(lay, d, d, mode)
  {
  }

  lemma MiddleKeptTrans(lay: Layout, d1: Bytes, d2: Bytes, d3: Bytes, mode: UserdataMode)
    requires |d1| == |d2| == |d3| && MiddleKept(lay, d1, d2, mode) && MiddleKept(lay, d2, d3, mode)
    ensures MiddleKept(lay, d1, d3, mode)
  {
  }

  lemma UndoneSince(lay: Layout, d0: Bytes, d1: Bytes, d2: Bytes, d3: Bytes, mode: UserdataMode)
    requires |d0| == |d1| == |d2| == |d3| == lay.diskBytes
    requires MiddleKept(lay, d1, d2, mode) && Undone(lay, d0, d2, d3, mode)
    ensures Undone(lay, d0, d1, d3, mode)
  {
    hide EndsAsMode, SameOutside, MiddleKept;
    MiddleKeptTrans(lay, d1, d2, d3, mode);
  }

  lemma RestoredUndoes(tool: Tool, sha: Hash, d0: Bytes, c: Capture, mode: UserdataMode, intact: set<PartName>,
                       begun: bool, e: Snap, g: Snap, o: Outcome)
    requires tool.lay.Valid() && |d0| == |e.disk| == |g.disk| == tool.lay.diskBytes && BackedUp(tool.lay, sha, d0, c)
    requires RestoreEnd(tool.lay, sha, true, c, mode, intact, begun, e, g, o) && o.Pass?
    requires SameOutside(d0, e.disk, Touchable(tool.lay)) && RomDoesNotCollide(tool.lay, sha, d0, e.disk)
    ensures Undone(tool.lay, d0, e.disk, g.disk, mode)
  {
    hide BackedUp, Touchable, Undone, Layout.Valid, RomDoesNotCollide, SameOutside, IntactOf, RestoreWorkOk,
         RestorePlan, LayoutFor, BackupFilesOk;
    RestoreWorkParts(tool.lay, sha, c, RestorePlan(tool.lay, intact, mode));
    RestoreUndoes(tool.lay, sha, d0, e.disk, g.disk, c, intact, mode);
  }

  /** Runs an install that may stop anywhere, lets the ROM run, and restores. The
      restore passes; outside userdata every byte is as before the install, and
      userdata is as the mode says. Undisturbed, restoring the original userdata
      gives the whole disk back. Without a manifest nothing was written. */
  method InstallThenRestore(disk: array<byte>, tool: Tool, job: InstallJob, sha: Hash, trouble: Trouble,
                            hashesOnDevice: bool,
                            rom: Bytes -> Bytes, mode: UserdataMode)
      returns (installed: Outcome, captured: bool, ghost d1: Bytes, ghost d2: Bytes, back: Outcome)
    requires tool.lay.Valid() && tool.lay.diskBytes == disk.Length
    requires trouble.Valid() && forall d :: |rom(d)| == |d|
    modifies disk
    ensures !captured ==> disk[..] == old(disk[..])
    ensures |d1| == |d2| == disk.Length
    ensures captured ==> d2 == rom(d1)
    ensures captured && RomRan(tool.lay, d1, d2) ==> back.Pass?
    ensures captured && RomRan(tool.lay, d1, d2) && RomDoesNotCollide(tool.lay, sha, old(disk[..]), d2) ==>
              Undone(tool.lay, old(disk[..]), d2, disk[..], mode)
    ensures captured && d2 == d1 && RomDoesNotCollide(tool.lay, sha, old(disk[..]), d2) ==>
              && (mode.Original? ==> disk[..] == old(disk[..]))
              && (mode.Zero? ==> EndsZeroed(tool.lay, old(disk[..]), disk[..]))
    ensures (&& trouble.Free() && InstallOk(tool.lay, sha, job)
             && MayInstall(tool, sha, job, old(disk[..]))) ==> installed.Pass? && captured
  {
    hide InstallOk, MayInstall;
    hide BackedUp, IdentityOk, Touchable, Undone, Layout.Valid, RomDoesNotCollide, SameOutside, RomRan, InstallTouched;
    ghost var d0 := disk[..];
    back := Stopped(NotACapture);
    var capture;
    installed, capture := FaithfulInstall(disk, tool, job, sha, trouble, hashesOnDevice);
    d1 := disk[..];
    d2 := d1;
    captured := capture.manifest.Some?;
    if !captured { return; }
    var ran := rom(disk[..]);
    forall k | 0 <= k < disk.Length { disk[k] := ran[k]; }
    assert disk[..] == ran;
    d2 := disk[..];
    NothingRan(tool.lay, d1);
    if RomRan(tool.lay, d1, d2) { TouchedThenRan(tool.lay, d0, d1, d2); }
    back := FaithfulRestore(disk, tool, job.kit, sha, capture, hashesOnDevice, mode, UNTROUBLED, d0);
    if d2 == d1 && RomDoesNotCollide(tool.lay, sha, d0, d2) {
      TouchedUserdata(tool.lay, d0, d1);
      UndisturbedUndone(tool.lay, d0, d1, disk[..], mode);
    }
  }

  lemma NothingRan(lay: Layout, d: Bytes)
    ensures RomRan(lay, d, d)
  {
  }

  lemma TouchedThenRan(lay: Layout, d0: Bytes, d1: Bytes, d2: Bytes)
    requires InstallTouched(lay, d0, d1) && RomRan(lay, d1, d2)
    ensures SameOutside(d0, d2, Touchable(lay))
  {
    RomRanTouchable(lay, d1, d2);
    SameOutsideTrans(d0, d1, d2, Touchable(lay));
  }

  lemma TouchedUserdata(lay: Layout, d0: Bytes, d1: Bytes)
    requires InstallTouched(lay, d0, d1)
    ensures |d1| == |d0| && UserdataTouched(lay, d0, d1)
  {
    SameSize(d0, d1, Touchable(lay));
  }
}
