// What every run reads before it may write: disk identity, AVB and boot state,
// protected-region hashes, and which build is installed
// (RomFlashEngineV1.check_disk_identity; RomUpdateEngineV1.identify,
// _pre_checks, hash_invariants and the identification part of run_update).

module Survey {
  import opened Options
  import opened Disk
  import opened Outcomes
  import opened Layout
  import opened UpdateLayout
  import opened Streams
  import opened Devices
  import opened Sessions
  import opened Gpt

  /** Known-good hashes: stock vbmeta, unlocked devinfo, harmless boot messages. */
  datatype Pins = Pins(vbmeta: Digest, devinfo: Digest, emptyBcb: Digest, bootloaderBcb: Digest)

  datatype Tool = Tool(lay: Layout, pins: Pins, codec: Codec)

  /** The expected partition table bytes, when the kit carries them. */
  datatype Kit = Kit(primary: Bytes, tail: Bytes)

  datatype Image = Image(content: Bytes, nbytes: int, digest: Digest)

  datatype Build = Prev | New | Other

  const BCB_BYTES := 4096

  ghost predicate Ready(s: Session, tool: Tool) {
    s.dev.Valid() && tool.lay.Valid() && tool.lay.diskBytes == s.dev.disk.Length
  }

  ghost predicate IdentityOk(tool: Tool, kit: Option<Kit>, d: Bytes)
    requires tool.lay.Valid() && |d| == tool.lay.diskBytes
  {
    var p, t := Slice(d, tool.lay.gptPrimary), Slice(d, tool.lay.gptTail);
    (kit.Some? ==> p == kit.value.primary && t == kit.value.tail) && GptAccepted(tool.lay, tool.codec, p)
  }

  ghost predicate PreCheckOk(tool: Tool, sha: Hash, kit: Option<Kit>, d: Bytes)
    requires tool.lay.Valid() && |d| == tool.lay.diskBytes
  {
    && IdentityOk(tool, kit, d)
    && BootStateOk(tool.pins, sha, d, tool.lay.parts(Vbmeta), tool.lay.parts(Devinfo), tool.lay.parts(Misc))
  }

  /** The checks read nothing an accepted plan may write. */
  lemma PreCheckApart(tool: Tool, sha: Hash, kit: Option<Kit>, ws: seq<Write>, wipe: bool, d0: Bytes, d: Bytes)
    requires tool.lay.Valid() && |d0| == tool.lay.diskBytes
    requires forall k :: 0 <= k < |ws| ==> WriteAllowed(tool.lay, ws[k], wipe)
    requires SameOutside(d0, d, WriteRegions(ws))
    ensures |d| == |d0| && (PreCheckOk(tool, sha, kit, d) <==> PreCheckOk(tool, sha, kit, d0))
  {
    var lay := tool.lay;
    AllowedUntouched(lay, ws, wipe, d0, d, Write(GptPrimary, lay.gptPrimary));
    AllowedUntouched(lay, ws, wipe, d0, d, Write(GptTail, lay.gptTail));
    AllowedUntouched(lay, ws, wipe, d0, d, PartWrite(lay, Vbmeta));
    AllowedUntouched(lay, ws, wipe, d0, d, PartWrite(lay, Devinfo));
    AllowedUntouched(lay, ws, wipe, d0, d, PartWrite(lay, Misc));
  }

  /** So they read nothing an update without a wipe may write. */
  lemma PreCheckUntouched(tool: Tool, sha: Hash, kit: Option<Kit>, d0: Bytes, d: Bytes)
    requires tool.lay.Valid() && |d0| == tool.lay.diskBytes
    requires SameOutside(d0, d, WriteRegions(FullImageWrites(tool.lay)))
    ensures PreCheckOk(tool, sha, kit, d) <==> PreCheckOk(tool, sha, kit, d0)
  {
    hide PreCheckOk, SameOutside, Layout.Valid;
    FullImageWritesAllowed(tool.lay);
    PreCheckApart(tool, sha, kit, FullImageWrites(tool.lay), false, d0, d);
  }

  /** A disk changed only by ranges the guard accepts keeps every protected region. */
  lemma AllowedUntouched(lay: Layout, ws: seq<Write>, wipe: bool, d0: Bytes, d: Bytes, v: Write)
    requires lay.Valid() && |d0| == lay.diskBytes
    requires forall k :: 0 <= k < |ws| ==> WriteAllowed(lay, ws[k], wipe)
    requires SameOutside(d0, d, WriteRegions(ws))
    requires IsProtected(lay, v, wipe)
    ensures v.region.Within(|d0|) && Slice(d, v.region) == Slice(d0, v.region)
  {
    ProtectedWithin(lay, v, wipe);
    forall k | 0 <= k < |ws| ensures !WriteRegions(ws)[k].Overlaps(v.region) {
      AllowedAvoidsProtected(lay, ws[k], v, wipe);
    }
    SliceUntouched(d0, d, WriteRegions(ws), v.region);
  }

  /** Both copies of the table; their bytes equal the kit's. */
  method ReadTables(s: Session, primary: Region, tail: Region, kit: Option<Kit>) returns (o: Outcome, p: Bytes)
    requires primary.Within(s.dev.disk.Length) && tail.Within(s.dev.disk.Length)
    modifies s, s.dev
    ensures ReadOnly(old(s.Now()), s.Now())
    ensures o.Pass? ==> p == Slice(s.dev.disk[..], primary)
    ensures o.Pass? && kit.Some? ==> p == kit.value.primary && Slice(s.dev.disk[..], tail) == kit.value.tail
    ensures o.Pass? ==>
      s.capture.files.Keys == old(s.capture.files).Keys + {FileName(GptPrimary, Plain), FileName(GptTail, Plain)}
    ensures o.Stopped? ==> o.why !in {ReadbackDiffers, ProtectedChanged}
    ensures old(s.Tireless()) ==> s.Tireless()
    ensures (&& old(s.Tireless())
             && (kit.Some? ==>
               Slice(s.dev.disk[..], primary) == kit.value.primary && Slice(s.dev.disk[..], tail) == kit.value.tail)
             && (forall f :: f in old(s.capture.files) ==> f.tag !in {GptPrimary, GptTail})) ==> o.Pass?
  {
    ghost var before := s.Now();
    var digest;
    o, p, digest := s.ReadRegion(GptPrimary, primary, Plain);
    if o.Stopped? { return; }
    ghost var mid := s.Now();
    var t;
    o, t, digest := s.ReadRegion(GptTail, tail, Plain);
    ReadOnlyTrans(before, mid, s.Now());
    if o.Stopped? { return; }
    if kit.Some? && (p != kit.value.primary || t != kit.value.tail) { return Stopped(GptDiffers), p; }
    o := Pass;
  }

  /** GPT bytes equal the kit's, and the table on the disk matches the layout. */
  method CheckDiskIdentity(s: Session, tool: Tool, kit: Option<Kit>) returns (o: Outcome)
    requires Ready(s, tool)
    modifies s, s.dev
    ensures ReadOnly(old(s.Now()), s.Now())
    ensures o.Pass? ==> IdentityOk(tool, kit, s.dev.disk[..])
    ensures o.Pass? ==>
      s.capture.files.Keys == old(s.capture.files).Keys + {FileName(GptPrimary, Plain), FileName(GptTail, Plain)}
    ensures o.Stopped? ==> o.why !in {ReadbackDiffers, ProtectedChanged}
    ensures old(s.Tireless()) ==> s.Tireless()
    ensures (&& old(s.Tireless()) && IdentityOk(tool, kit, s.dev.disk[..])
             && (forall f :: f in old(s.capture.files) ==> f.tag !in {GptPrimary, GptTail})) ==> o.Pass?
  {
    var p :- ReadTables(s, tool.lay.gptPrimary, tool.lay.gptTail, kit);
    :- CheckLayoutAgainstGpt(tool.lay, tool.codec, p);
    o := s.Save();
  }

  ghost predicate BootStateOk(pins: Pins, sha: Hash, d: Bytes, vbmeta: Region, devinfo: Region, misc: Region)
    requires vbmeta.Within(|d|) && devinfo.Within(|d|) && misc.Within(|d|)
  {
    && sha(Slice(d, vbmeta)) == pins.vbmeta
    && sha(Slice(d, devinfo)) == pins.devinfo
    && sha(Take(Slice(d, misc), 4096)) in {pins.emptyBcb, pins.bootloaderBcb}
  }

  lemma AddRemoveThree<K, V>(m: map<K, V>, a: K, b: K, c: K, x: V, y: V, z: V)
    requires a !in m && b !in m && c !in m
    ensures m[a := x][b := y][c := z] - {a} - {b} - {c} == m
  {
  }

  lemma ReadOnlyRestored(a: Snap, b: Snap, c: Snap)
    requires ReadOnly(a, b) && c == b.(capture := b.capture.(files := a.capture.files))
    ensures ReadOnly(a, c)
  {
  }

  /** vbmeta, devinfo and the boot message; the copies are removed again. */
  method CheckBootState(s: Session, vbmeta: Region, devinfo: Region, misc: Region, pins: Pins) returns (o: Outcome)
    requires vbmeta.Within(s.dev.disk.Length) && devinfo.Within(s.dev.disk.Length) && misc.Within(s.dev.disk.Length)
    modifies s, s.dev
    ensures ReadOnly(old(s.Now()), s.Now())
    ensures o.Pass? ==> BootStateOk(pins, s.dev.sha, s.dev.disk[..], vbmeta, devinfo, misc)
    ensures o.Pass? ==> s.capture.files == old(s.capture.files)
    ensures o.Stopped? ==> o.why !in {ReadbackDiffers, ProtectedChanged}
    ensures old(s.Tireless()) ==> s.Tireless()
    ensures (&& old(s.Tireless()) && BootStateOk(pins, s.dev.sha, s.dev.disk[..], vbmeta, devinfo, misc)
             && (forall f :: f in old(s.capture.files) ==> f.tag !in {VbmetaCheck, DevinfoCheck, MiscCheck})) ==>
               o.Pass?
  {
    hide ReadOnly;
    var a, b, c := FileName(VbmetaCheck, Plain), FileName(DevinfoCheck, Plain), FileName(MiscCheck, Plain);
    ghost var before := s.Now();
    var x, vb :- s.ReadRegion(VbmetaCheck, vbmeta, Plain);
    if vb != pins.vbmeta { return Stopped(VbmetaDiffers); }
    ghost var read1 := s.Now();
    var y, di, z, digest;
    o, y, di := s.ReadRegion(DevinfoCheck, devinfo, Plain);
    ReadOnlyTrans(before, read1, s.Now());
    if o.Stopped? { return; }
    if di != pins.devinfo { return Stopped(DevinfoDiffers); }
    ghost var read2 := s.Now();
    o, z, digest := s.ReadRegion(MiscCheck, misc, Plain);
    ReadOnlyTrans(before, read2, s.Now());
    if o.Stopped? { return; }
    var bcb := s.dev.sha(HeadBytes(z, BCB_BYTES));
    if bcb != pins.emptyBcb && bcb != pins.bootloaderBcb { return Stopped(UnknownBootMessage); }
    ghost var read3 := s.Now();
    s.Remove(a);
    s.Remove(b);
    s.Remove(c);
    AddRemoveThree(before.capture.files, a, b, c, x, y, z);
    ReadOnlyRestored(before, read3, s.Now());
    o := Pass;
  }

  method PreChecks(s: Session, tool: Tool, kit: Option<Kit>) returns (o: Outcome)
    requires Ready(s, tool)
    modifies s, s.dev
    ensures ReadOnly(old(s.Now()), s.Now())
    ensures o.Pass? ==> PreCheckOk(tool, s.dev.sha, kit, s.dev.disk[..])
    ensures o.Pass? ==>
      s.capture.files.Keys == old(s.capture.files).Keys + {FileName(GptPrimary, Plain), FileName(GptTail, Plain)}
    ensures o.Stopped? ==> o.why !in {ReadbackDiffers, ProtectedChanged}
    ensures old(s.Tireless()) ==> s.Tireless()
    ensures old(s.Tireless()) && old(s.capture.files) == map[] && PreCheckOk(tool, s.dev.sha, kit, s.dev.disk[..]) ==>
      o.Pass?
  {
    hide IdentityOk, BootStateOk, ReadOnly;
    var vbmeta, devinfo, misc := tool.lay.parts(Vbmeta), tool.lay.parts(Devinfo), tool.lay.parts(Misc);
    assert vbmeta.Within(s.dev.disk.Length) && devinfo.Within(s.dev.disk.Length) && misc.Within(s.dev.disk.Length);
    ghost var before := s.Now();
    o := CheckDiskIdentity(s, tool, kit);
    if o.Stopped? { return; }
    ghost var mid := s.Now();
    assert before.capture.files == map[] ==> forall f :: f in mid.capture.files ==> f.tag.GptPrimary? || f.tag.GptTail?;
    o := CheckBootState(s, vbmeta, devinfo, misc, tool.pins);
    ReadOnlyTrans(before, mid, s.Now());
  }

  /** After the identity check the capture holds nothing but the two tables. */
  lemma OnlyPlain(files: map<FileName, Bytes>)
    requires files.Keys == {FileName(GptPrimary, Plain), FileName(GptTail, Plain)}
    ensures forall f :: f in files ==> f.suffix == Plain
  {
    assert forall f :: f in files ==> f in files.Keys;
  }

  // ---- the protected regions ----

  function Readings(sha: Hash, d: Bytes, regions: seq<Write>): (rs: seq<Reading>)
    requires AllWithin(WriteRegions(regions), |d|)
  {
    seq(|regions|, k requires 0 <= k < |regions| =>
      assert WriteRegions(regions)[k].Within(|d|); Reading(regions[k].tag, sha(Slice(d, regions[k].region))))
  }

  lemma InvariantsWithin(lay: Layout, wipe: bool)
    requires lay.Valid()
    ensures AllWithin(WriteRegions(InvariantRegions(lay, wipe)), lay.diskBytes)
  {
    var vs := InvariantRegions(lay, wipe);
    InvariantRegionsProtected(lay, wipe);
    forall k | 0 <= k < |vs| ensures vs[k].region.Within(lay.diskBytes) { ProtectedWithin(lay, vs[k], wipe); }
  }

  function Invariants(sha: Hash, lay: Layout, d: Bytes, wipe: bool): seq<Reading>
    requires lay.Valid() && |d| == lay.diskBytes
  {
    InvariantsWithin(lay, wipe);
    Readings(sha, d, InvariantRegions(lay, wipe))
  }

  /** A faithful run over accepted ranges never changes what is compared. */
  lemma InvariantsUnchanged(sha: Hash, lay: Layout, ws: seq<Write>, wipe: bool, d0: Bytes, d: Bytes)
    requires lay.Valid() && |d0| == lay.diskBytes
    requires forall k :: 0 <= k < |ws| ==> WriteAllowed(lay, ws[k], wipe)
    requires SameOutside(d0, d, WriteRegions(ws))
    ensures Invariants(sha, lay, d, wipe) == Invariants(sha, lay, d0, wipe)
  {
    hide InvariantRegions, Layout.Valid, WriteAllowed, IsProtected;
    InvariantsWithin(lay, wipe);
    var vs := InvariantRegions(lay, wipe);
    InvariantRegionsProtected(lay, wipe);
    forall k | 0 <= k < |vs| ensures Readings(sha, d, vs)[k] == Readings(sha, d0, vs)[k] {
      AllowedUntouched(lay, ws, wipe, d0, d, vs[k]);
    }
  }

  method HashRegions(s: Session, regions: seq<Write>, suffix: Suffix) returns (o: Outcome, out: seq<Reading>)
    requires AllWithin(WriteRegions(regions), s.dev.disk.Length)
    modifies s, s.dev
    ensures ReadOnly(old(s.Now()), s.Now())
    ensures o.Pass? ==> out == Readings(s.dev.sha, s.dev.disk[..], regions) && s.capture.files == old(s.capture.files)
    ensures o.Stopped? ==> o.why !in {ReadbackDiffers, ProtectedChanged}
    ensures old(s.Tireless()) ==> s.Tireless()
    ensures old(s.Tireless()) && (forall t :: FileName(Invariant(t), suffix) !in old(s.capture.files)) ==> o.Pass?
  {
    ghost var a := s.Now();
    ghost var want := Readings(s.dev.sha, a.disk, regions);
    out := [];
    for k := 0 to |regions|
      invariant ReadOnly(a, s.Now()) && s.capture.files == a.capture.files
      invariant out == want[..k]
      invariant old(s.Tireless()) ==> s.Tireless()
    {
      assert WriteRegions(regions)[k].Within(s.dev.disk.Length);
      ghost var b := s.Now();
      var digest;
      o, digest := s.HashRegion(Invariant(regions[k].tag), regions[k].region, suffix);
      ReadOnlyTrans(a, b, s.Now());
      if o.Stopped? { return; }
      out := out + [Reading(regions[k].tag, digest)];
    }
    o := Pass;
  }

  method HashInvariants(s: Session, tool: Tool, suffix: Suffix, wipe: bool) returns (o: Outcome, out: seq<Reading>)
    requires Ready(s, tool)
    modifies s, s.dev
    ensures ReadOnly(old(s.Now()), s.Now())
    ensures o.Pass? ==>
      out == Invariants(s.dev.sha, tool.lay, s.dev.disk[..], wipe) && s.capture.files == old(s.capture.files)
    ensures o.Stopped? ==> o.why !in {ReadbackDiffers, ProtectedChanged}
    ensures old(s.Tireless()) ==> s.Tireless()
    ensures old(s.Tireless()) && (forall t :: FileName(Invariant(t), suffix) !in old(s.capture.files)) ==> o.Pass?
  {
    InvariantsWithin(tool.lay, wipe);
    o, out := HashRegions(s, InvariantRegions(tool.lay, wipe), suffix);
  }

  // ---- which build is installed ----

  /** The first bytes of a partition, as many as the image has, have its digest. */
  ghost predicate IsHead(sha: Hash, part: Bytes, image: Image) {
    sha(if 0 <= image.nbytes <= |part| then part[..image.nbytes] else part) == image.digest
  }

  /** The build whose image the head of a partition is; a partition both kits
      agree on counts as the previous one. */
  ghost function Identified(sha: Hash, part: Bytes, prev: Image, next: Image): (b: Build)
    ensures b == Prev <==> IsHead(sha, part, prev)
    ensures b == New <==> !IsHead(sha, part, prev) && IsHead(sha, part, next)
  {
    if sha(HeadBytes(part, prev.nbytes)) == prev.digest then Prev
    else if sha(HeadBytes(part, next.nbytes)) == next.digest then New
    else Other
  }

  ghost predicate StateOf(sha: Hash, lay: Layout, d: Bytes, prev: map<PartName, Image>, next: map<PartName, Image>,
                          state: map<PartName, Build>)
  {
    && (forall n :: n in state <==> Updatable(n))
    && (forall n :: Updatable(n) ==>
          && n in prev && n in next && lay.parts(n).Within(|d|)
          && state[n] == Identified(sha, Slice(d, lay.parts(n)), prev[n], next[n]))
  }

  /** From saved copies of the partitions. */
  method Identify(sha: Hash, files: map<PartName, Bytes>, prev: map<PartName, Image>, next: map<PartName, Image>)
    returns (o: Outcome, state: map<PartName, Build>)
    requires forall n :: Updatable(n) ==> n in files && n in next
    ensures o.Pass? <==> forall n :: Updatable(n) ==> n in prev
    ensures o.Stopped? ==> o.why == ImagesIncomplete
    ensures o.Pass? ==> forall n :: n in state <==> Updatable(n)
    ensures o.Pass? ==> forall n :: Updatable(n) ==> state[n] == Identified(sha, files[n], prev[n], next[n])
    ensures o.Pass? ==> forall n :: Updatable(n) ==>
      && (state[n] == Prev <==> IsHead(sha, files[n], prev[n]))
      && (state[n] == New <==> !IsHead(sha, files[n], prev[n]) && IsHead(sha, files[n], next[n]))
  {
    UpdatableIsImageOrder();
    state := map[];
    for k := 0 to |IMAGE_ORDER|
      invariant forall n :: n in state <==> n in IMAGE_ORDER[..k]
      invariant forall n :: n in state ==> n in prev && state[n] == Identified(sha, files[n], prev[n], next[n])
    {
      var name := IMAGE_ORDER[k];
      assert name in IMAGE_ORDER;
      if name !in prev { return Stopped(ImagesIncomplete), state; }
      var p := Sha256File(sha, files[name], prev[name].nbytes);
      var q := Sha256File(sha, files[name], next[name].nbytes);
      state := state[name := if p == prev[name].digest then Prev else if q == next[name].digest then New else Other];
      assert IMAGE_ORDER[..k + 1] == IMAGE_ORDER[..k] + [name];
    }
    assert IMAGE_ORDER[..|IMAGE_ORDER|] == IMAGE_ORDER;
    o := Pass;
  }

  ghost predicate ValidLength(lay: Layout, n: PartName, nbytes: int) {
    nbytes > 0 && nbytes % SECTOR == 0 && nbytes <= lay.Sectors(n) * SECTOR
  }

  /** On a valid length, the on-device head and the head of a saved copy are the
      same bytes. */
  lemma HeadOnDevice(lay: Layout, d: Bytes, n: PartName, nbytes: int)
    requires lay.parts(n).Within(|d|) && ValidLength(lay, n, nbytes)
    ensures var r := lay.Head(n, nbytes / SECTOR);
            r.Within(|d|) && r.Inside(lay.parts(n))
            && Slice(d, r) == HeadBytes(Slice(d, lay.parts(n)), nbytes)
  {
    var part, r := lay.parts(n), lay.Head(n, nbytes / SECTOR);
    assert r.Size() == nbytes && r.Lo() == part.Lo() && r.Hi() == part.Lo() + nbytes;
    SliceHead(d, part.Lo(), part.Hi(), nbytes);
  }

  /** Both kits' image lengths are ones whose heads can be hashed. */
  ghost predicate LengthsValid(lay: Layout, prev: map<PartName, Image>, next: map<PartName, Image>) {
    forall n :: Updatable(n) ==>
      n in prev && n in next && ValidLength(lay, n, prev[n].nbytes) && ValidLength(lay, n, next[n].nbytes)
  }

  /** No file of the capture is the head of an image. */
  ghost predicate NoHeads(files: map<FileName, Bytes>) { forall f :: f in files ==> !f.tag.ImageHead? }

  /** The head of one partition at one image length, hashed on the device. */
  method HashHead(s: Session, lay: Layout, name: PartName, nbytes: int) returns (o: Outcome, digest: Digest)
    requires lay.parts(name).Within(s.dev.disk.Length)
    modifies s, s.dev
    ensures ReadOnly(old(s.Now()), s.Now())
    ensures o.Pass? ==> && ValidLength(lay, name, nbytes)
                        && digest == s.dev.sha(HeadBytes(Slice(s.dev.disk[..], lay.parts(name)), nbytes))
    ensures o.Pass? ==> s.capture.files == old(s.capture.files)
    ensures o.Stopped? ==> o.why !in {ReadbackDiffers, ProtectedChanged}
    ensures old(s.Tireless()) ==> s.Tireless()
    ensures old(s.Tireless()) && ValidLength(lay, name, nbytes) && NoHeads(old(s.capture.files)) ==> o.Pass?
  {
    digest := "";
    if nbytes <= 0 || nbytes % SECTOR != 0 || nbytes > lay.Sectors(name) * SECTOR {
      return Stopped(InvalidImageLength), digest;
    }
    HeadOnDevice(lay, s.dev.disk[..], name, nbytes);
    o, digest := s.HashRegion(ImageHead(name, nbytes), Region(lay.Start(name), nbytes / SECTOR), Plain);
  }

  /** Without saved copies: both kits' image lengths, each hashed at most once. */
  method IdentifyOnDevice(s: Session, lay: Layout, prev: map<PartName, Image>, next: map<PartName, Image>)
    returns (o: Outcome, state: map<PartName, Build>)
    requires forall n :: Updatable(n) ==> n in next && lay.parts(n).Within(s.dev.disk.Length)
    modifies s, s.dev
    ensures ReadOnly(old(s.Now()), s.Now())
    ensures o.Pass? ==> StateOf(s.dev.sha, lay, s.dev.disk[..], prev, next, state) && LengthsValid(lay, prev, next)
    ensures o.Pass? ==> forall n :: Updatable(n) ==> var part := Slice(s.dev.disk[..], lay.parts(n));
      && (state[n] == Prev <==> IsHead(s.dev.sha, part, prev[n]))
      && (state[n] == New <==> !IsHead(s.dev.sha, part, prev[n]) && IsHead(s.dev.sha, part, next[n]))
    ensures o.Pass? ==> s.capture.files == old(s.capture.files)
    ensures o.Stopped? ==> o.why !in {ReadbackDiffers, ProtectedChanged}
    ensures old(s.Tireless()) ==> s.Tireless()
    ensures old(s.Tireless()) && NoHeads(old(s.capture.files)) && LengthsValid(lay, prev, next) ==> o.Pass?
  {
    hide ReadOnly, NoHeads, Session.Tireless;
    UpdatableIsImageOrder();
    ghost var a := s.Now();
    ReadOnlyRefl(a);
    state := map[];
    for k := 0 to |IMAGE_ORDER|
      invariant ReadOnly(a, s.Now()) && s.dev.disk[..] == a.disk && s.capture.files == a.capture.files
      invariant old(s.Tireless()) ==> s.Tireless()
      invariant forall n :: n in state <==> n in IMAGE_ORDER[..k]
      invariant forall n :: n in state ==>
        && n in prev && lay.parts(n).Within(s.dev.disk.Length)
        && ValidLength(lay, n, prev[n].nbytes) && ValidLength(lay, n, next[n].nbytes)
        && state[n] == Identified(s.dev.sha, Slice(a.disk, lay.parts(n)), prev[n], next[n])
    {
      var name := IMAGE_ORDER[k];
      assert name in IMAGE_ORDER;
      if name !in prev { return Stopped(ImagesIncomplete), state; }
      ghost var b := s.Now();
      var p, q;
      o, p := HashHead(s, lay, name, prev[name].nbytes);
      ReadOnlyTrans(a, b, s.Now());
      ReadOnlyDisk(b, s.Now());
      if o.Stopped? { return; }
      if next[name].nbytes == prev[name].nbytes {
        q := p;
      } else {
        b := s.Now();
        o, q := HashHead(s, lay, name, next[name].nbytes);
        ReadOnlyTrans(a, b, s.Now());
        ReadOnlyDisk(b, s.Now());
        if o.Stopped? { return; }
      }
      state := state[name := if p == prev[name].digest then Prev else if q == next[name].digest then New else Other];
      assert IMAGE_ORDER[..k + 1] == IMAGE_ORDER[..k] + [name];
    }
    assert IMAGE_ORDER[..|IMAGE_ORDER|] == IMAGE_ORDER;
    o := Pass;
  }

  // ---- what a finished run has written ----

  /** The first bytes of partition `n` that its image takes. */
  ghost predicate UnderImage(lay: Layout, images: map<PartName, Image>, n: PartName, i: int) {
    Updatable(n) && n in images && 0 <= i - lay.parts(n).start * SECTOR < images[n].nbytes
  }

  /** The first sectors of metadata and userdata, which are zeroed. */
  ghost predicate UnderZeroes(lay: Layout, i: int) {
    || 0 <= i - lay.parts(Metadata).start * SECTOR < lay.metadataHeadZero * SECTOR
    || 0 <= i - lay.parts(Userdata).start * SECTOR < lay.userdataHeadZero * SECTOR
  }

  /** The images are on disk `d1`, zeroes are where asked for, and every other byte
      is that of `d0`. */
  ghost predicate Written(lay: Layout, images: map<PartName, Image>, zeroed: bool, d0: Bytes, d1: Bytes) {
    && |d1| == |d0|
    && (forall n, i :: 0 <= i < |d1| && UnderImage(lay, images, n, i) ==>
          && i - lay.parts(n).start * SECTOR < |images[n].content|
          && d1[i] == images[n].content[i - lay.parts(n).start * SECTOR])
    && (forall i :: zeroed && 0 <= i < |d1| && UnderZeroes(lay, i) ==> d1[i] == 0)
    && (forall i :: (&& 0 <= i < |d1| && !(zeroed && UnderZeroes(lay, i))
                     && (forall n :: Updatable(n) ==> !UnderImage(lay, images, n, i))) ==> d1[i] == d0[i])
  }

  /** Patch `k` of such a run: the four images in order, then the two zeroed heads. */
  ghost predicate WritesPart(lay: Layout, images: map<PartName, Image>, ps: seq<Patch>, k: nat)
    requires k < |ps| && k < 6
  {
    && |ps[k].payload| == ps[k].region.Size()
    && if k < 4 then
         var n := ImageAt(k);
         && n in images && ps[k].region.Lo() == lay.parts(n).start * SECTOR
         && ps[k].region.Size() == images[n].nbytes <= |images[n].content|
         && ps[k].payload == images[n].content[..images[n].nbytes]
       else
         && ps[k].region == (if k == 4 then MetadataHead(lay) else UserdataZeroHead(lay))
         && forall j :: 0 <= j < |ps[k].payload| ==> ps[k].payload[j] == 0
  }

  lemma HoldsWritten(lay: Layout, images: map<PartName, Image>, zeroed: bool, d0: Bytes, d1: Bytes, ps: seq<Patch>)
    requires Holds(d0, d1, ps) && |ps| == (if zeroed then 6 else 4)
    requires forall k :: 0 <= k < |ps| ==> WritesPart(lay, images, ps, k)
    ensures Written(lay, images, zeroed, d0, d1)
  {
    HoldsSize(d0, d1, ps);
    hide Holds, WritesPart, UnderZeroes;
    forall n, i | 0 <= i < |d1| && UnderImage(lay, images, n, i)
      ensures i - lay.parts(n).start * SECTOR < |images[n].content|
      ensures d1[i] == images[n].content[i - lay.parts(n).start * SECTOR]
    {
      WrittenByte(lay, images, d0, d1, ps, n, i);
    }
    forall i | zeroed && 0 <= i < |d1| && UnderZeroes(lay, i) ensures d1[i] == 0 {
      ZeroedByte(lay, images, d0, d1, ps, i);
    }
    forall i | (&& 0 <= i < |d1| && !(zeroed && UnderZeroes(lay, i))
                && (forall n :: Updatable(n) ==> !UnderImage(lay, images, n, i))) ensures d1[i] == d0[i] {
      forall k | 0 <= k < |ps| ensures !ps[k].region.Covers(i) { NotUnder(lay, images, ps, k, i); }
      OutsideAll(d0, d1, ps, i);
    }
  }

  lemma HoldsSize(d0: Bytes, d1: Bytes, ps: seq<Patch>)
    requires Holds(d0, d1, ps)
    ensures |d1| == |d0|
  {
  }

  lemma OutsideAll(d0: Bytes, d1: Bytes, ps: seq<Patch>, i: int)
    requires Holds(d0, d1, ps) && 0 <= i < |d1| == |d0| && forall k :: 0 <= k < |ps| ==> !ps[k].region.Covers(i)
    ensures d1[i] == d0[i]
  {
    assert forall k :: 0 <= k < |Regions(ps)| ==> Regions(ps)[k] == ps[k].region;
  }

  lemma HeldByte(d0: Bytes, d1: Bytes, ps: seq<Patch>, k: nat, i: int)
    requires k < |ps| && Holds(d0, d1, ps) && ps[k].region.Covers(i) && |ps[k].payload| == ps[k].region.Size()
    ensures 0 <= i < |d1| && d1[i] == ps[k].payload[i - ps[k].region.Lo()]
  {
    assert Slice(d1, ps[k].region)[i - ps[k].region.Lo()] == d1[i];
  }

  lemma WrittenByte(lay: Layout, images: map<PartName, Image>, d0: Bytes, d1: Bytes, ps: seq<Patch>, n: PartName,
                    i: int)
    requires Holds(d0, d1, ps) && |ps| >= 4 && forall k :: 0 <= k < 4 ==> WritesPart(lay, images, ps, k)
    requires 0 <= i < |d1| && UnderImage(lay, images, n, i)
    ensures i - lay.parts(n).start * SECTOR < |images[n].content|
    ensures d1[i] == images[n].content[i - lay.parts(n).start * SECTOR]
  {
    hide Holds;
    var k := if n.Boot? then 0 else if n.Dtbo? then 1 else if n.Vendor? then 2 else 3;
    assert ImageAt(k) == n && WritesPart(lay, images, ps, k);
    var r := ps[k].region;
    assert r.Hi() == r.Lo() + r.Size() && r.Covers(i);
    HeldByte(d0, d1, ps, k, i);
  }

  lemma ZeroedByte(lay: Layout, images: map<PartName, Image>, d0: Bytes, d1: Bytes, ps: seq<Patch>, i: int)
    requires Holds(d0, d1, ps) && |ps| == 6 && WritesPart(lay, images, ps, 4) && WritesPart(lay, images, ps, 5)
    requires 0 <= i < |d1| && UnderZeroes(lay, i)
    ensures d1[i] == 0
  {
    hide Holds;
    HeldByte(d0, d1, ps, if ps[4].region.Covers(i) then 4 else 5, i);
  }

  lemma NotUnder(lay: Layout, images: map<PartName, Image>, ps: seq<Patch>, k: nat, i: int)
    requires k < |ps| && k < 6 && WritesPart(lay, images, ps, k) && (k >= 4 ==> !UnderZeroes(lay, i))
    requires forall n :: Updatable(n) ==> !UnderImage(lay, images, n, i)
    ensures !ps[k].region.Covers(i)
  {
    if k < 4 { assert !UnderImage(lay, images, ImageAt(k), i); }
  }
}
