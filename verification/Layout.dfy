// The partition table the tools were written for, and the plans built on it
// (RomFlashLayoutV1.py). The table is a value: the engine reads it at call
// time, and every theorem holds for any table that is Valid.

module Layout {
  import opened Disk
  import opened Outcomes

  datatype PartName =
    | Fsg | Dtbo | Boot | Recovery | Fsc | Modemst1 | Modemst2 | System | Vendor
    | Persist | Misc | Devinfo | Vbmeta | Userdata | Metadata

  /** The order in which the table lists its partitions. */
  const ALL_PARTS: seq<PartName> := [
    Fsg, Dtbo, Boot, Recovery, Fsc, Modemst1, Modemst2, System, Vendor,
    Persist, Misc, Devinfo, Vbmeta, Userdata, Metadata]

  /** Labels of planned writes, reads and capture files. */
  datatype Label =
    | Part(name: PartName)
    | GptPrimary | GptTail
    | MetadataZero | UserdataZero | UserdataFooterZero
    | UserdataHead | UserdataTail | UserdataFull
    | MetadataAfterZero | UserdataHeadAfterZero
    | VbmetaCheck | DevinfoCheck | MiscCheck
    | Invariant(of: Label)
    | ImageHead(image: PartName, nbytes: int)
    | Unknown(text: string)

  datatype Write = Write(tag: Label, region: Region)

  datatype Layout = Layout(
    parts: PartName -> Region,
    gptPrimary: Region,
    gptTail: Region,
    diskBytes: nat,
    userdataHeadZero: int,
    userdataHeadBackup: int,
    userdataTailBackup: int,
    userdataFooter: int,
    metadataHeadZero: int)
  {
    function Start(n: PartName): int { parts(n).start }

    function Sectors(n: PartName): int { parts(n).sectors }

    function Head(n: PartName, sectors: int): Region { Region(Start(n), sectors) }

    ghost predicate Valid() {
      && (forall n :: parts(n).Within(diskBytes) && parts(n).sectors > 0)
      && (forall a, b :: a != b ==> !parts(a).Overlaps(parts(b)))
      && gptPrimary.Within(diskBytes) && gptTail.Within(diskBytes)
      && (forall n :: !gptPrimary.Overlaps(parts(n)) && !gptTail.Overlaps(parts(n)))
      && 0 < metadataHeadZero < Sectors(Metadata)
      && 0 < userdataHeadZero < userdataHeadBackup <= Sectors(Userdata)
      && 0 < userdataFooter <= userdataTailBackup
      && userdataHeadBackup + userdataTailBackup <= Sectors(Userdata)
    }
  }

  /** The verified table of the phone. */
  function A6lPart(n: PartName): Region {
    match n
    case Fsg => Region(149504, 4096)
    case Dtbo => Region(1572864, 16384)
    case Boot => Region(671744, 131072)
    case Recovery => Region(917504, 131072)
    case Fsc => Region(1048576, 2)
    case Modemst1 => Region(1048600, 4096)
    case Modemst2 => Region(1052696, 4096)
    case System => Region(1589248, 12582912)
    case Vendor => Region(14172160, 2252800)
    case Persist => Region(17039360, 65536)
    case Misc => Region(17104896, 2048)
    case Devinfo => Region(495616, 8)
    case Vbmeta => Region(569944, 128)
    case Userdata => Region(20322304, 223963092)
    case Metadata => Region(1472536, 20480)
  }

  const A6L: Layout := Layout(
    A6lPart, Region(0, 2048), Region(244285396, 44), 125074145280, 2048, 131072, 2048, 32, 2048)

  lemma A6lIsValid()
    ensures A6L.Valid()
  {
    forall a, b: PartName | a != b ensures !A6lPart(a).Overlaps(A6lPart(b)) { A6lApart(a, b); }
    forall n: PartName
      ensures A6lPart(n).Within(A6L.diskBytes) && A6lPart(n).sectors > 0
      ensures !A6L.gptPrimary.Overlaps(A6lPart(n)) && !A6L.gptTail.Overlaps(A6lPart(n))
    {
      match n case _ => {}
    }
    hide A6lPart;
  }

  lemma A6lApart(a: PartName, b: PartName)
    requires a != b
    ensures !A6lPart(a).Overlaps(A6lPart(b))
  {
    match a case _ => match b case _ => {}
  }

  // ---- labelled ranges derived from the table ----

  const ROM_MAY_WRITE: seq<PartName> := [Misc, Metadata, Modemst1, Modemst2, Fsg, Fsc, Persist]

  const PROGRAMMABLE: seq<PartName> := [
    Boot, Dtbo, Vendor, System, Metadata, Userdata, Misc, Modemst1, Modemst2, Fsg, Fsc, Persist]

  /** Install and update both write the images in this order. */
  const IMAGE_ORDER: seq<PartName> := [Boot, Dtbo, Vendor, System]

  function MetadataHead(lay: Layout): (r: Region)
    ensures r.Lo() == lay.parts(Metadata).Lo() && r.sectors == lay.metadataHeadZero
  {
    lay.Head(Metadata, lay.metadataHeadZero)
  }

  function UserdataZeroHead(lay: Layout): (r: Region)
    ensures r.Lo() == lay.parts(Userdata).Lo() && r.sectors == lay.userdataHeadZero
  {
    lay.Head(Userdata, lay.userdataHeadZero)
  }

  function UserdataTailRegion(lay: Layout): (r: Region)
    ensures r.Hi() == lay.parts(Userdata).Hi() && r.sectors == lay.userdataTailBackup
  {
    Region(lay.Start(Userdata) + lay.Sectors(Userdata) - lay.userdataTailBackup, lay.userdataTailBackup)
  }

  function UserdataFooterRegion(lay: Layout): (r: Region)
    ensures r.Hi() == lay.parts(Userdata).Hi() && r.sectors == lay.userdataFooter
  {
    Region(lay.Start(Userdata) + lay.Sectors(Userdata) - lay.userdataFooter, lay.userdataFooter)
  }

  function PartWrite(lay: Layout, n: PartName): Write { Write(Part(n), lay.parts(n)) }

  function BackupRegions(lay: Layout): seq<Write> {
    [PartWrite(lay, Boot), PartWrite(lay, Dtbo), PartWrite(lay, Misc), PartWrite(lay, Metadata),
     PartWrite(lay, Modemst1), PartWrite(lay, Modemst2), PartWrite(lay, Fsg), PartWrite(lay, Fsc),
     PartWrite(lay, Persist), PartWrite(lay, Recovery), PartWrite(lay, Vbmeta), PartWrite(lay, Devinfo),
     PartWrite(lay, Vendor), PartWrite(lay, System),
     Write(UserdataHead, lay.Head(Userdata, lay.userdataHeadBackup)),
     Write(UserdataTail, UserdataTailRegion(lay))]
  }

  /** A payload fits: whole sectors, not empty, no longer than its partition. */
  ghost predicate Fits(lay: Layout, n: PartName, nbytes: int) {
    nbytes % SECTOR == 0 && 0 < nbytes / SECTOR <= lay.Sectors(n)
  }

  function ImageWrite(lay: Layout, n: PartName, nbytes: int): Write {
    Write(Part(n), lay.Head(n, nbytes / SECTOR))
  }

  /** A payload of whole sectors, not empty, that its partition holds. */
  ghost predicate HoldsWhole(lay: Layout, n: PartName, nbytes: int) {
    nbytes % 512 == 0 && 0 < nbytes <= lay.parts(n).Size()
  }

  /** So many bytes from the first of partition `n` on, under its name. */
  ghost predicate FromStart(lay: Layout, w: Write, n: PartName, nbytes: int) {
    w.tag == Part(n) && w.region.Lo() == lay.parts(n).Lo() && w.region.Size() == nbytes
  }

  /** The kernel first, then the device tree overlays, the vendor and the system. */
  ghost predicate ImagesInOrder(lay: Layout, sizes: map<PartName, int>, ws: seq<Write>)
    requires forall n :: n in IMAGE_ORDER ==> n in sizes
  {
    && |ws| >= 4 && FromStart(lay, ws[0], Boot, sizes[Boot]) && FromStart(lay, ws[1], Dtbo, sizes[Dtbo])
    && FromStart(lay, ws[2], Vendor, sizes[Vendor]) && FromStart(lay, ws[3], System, sizes[System])
  }

  lemma InOrder(lay: Layout, sizes: map<PartName, int>)
    requires forall n :: n in IMAGE_ORDER ==> n in sizes && Fits(lay, n, sizes[n])
    ensures ImagesInOrder(lay, sizes, ImageWrites(lay, sizes))
  {
    assert Boot in IMAGE_ORDER && Dtbo in IMAGE_ORDER && Vendor in IMAGE_ORDER && System in IMAGE_ORDER;
  }

  /** The four image writes in plan order. */
  function ImageWrites(lay: Layout, sizes: map<PartName, int>): (ws: seq<Write>)
    requires forall n :: n in IMAGE_ORDER ==> n in sizes
  {
    seq(|IMAGE_ORDER|, i requires 0 <= i < |IMAGE_ORDER| =>
      assert IMAGE_ORDER[i] in IMAGE_ORDER; ImageWrite(lay, IMAGE_ORDER[i], sizes[IMAGE_ORDER[i]]))
  }

  function ZeroWrites(lay: Layout): seq<Write> {
    [Write(MetadataZero, MetadataHead(lay)), Write(UserdataZero, UserdataZeroHead(lay))]
  }

  function WriteRegions(ws: seq<Write>): (rs: seq<Region>)
    ensures |rs| == |ws| && forall k :: 0 <= k < |ws| ==> rs[k] == ws[k].region
  {
    seq(|ws|, k requires 0 <= k < |ws| => ws[k].region)
  }

  /** Builds the image writes one partition at a time; shared by install and update. */
  method BuildImageWrites(lay: Layout, sizes: map<PartName, int>) returns (o: Outcome, out: seq<Write>)
    requires forall n :: n in IMAGE_ORDER ==> n in sizes
    ensures o.Pass? <==> forall n :: n in IMAGE_ORDER ==> Fits(lay, n, sizes[n])
    ensures o.Stopped? ==> o.why == DoesNotFit
    ensures o.Pass? ==> out == ImageWrites(lay, sizes) && ImagesInOrder(lay, sizes, out)
    ensures o.Pass? <==> && HoldsWhole(lay, Boot, sizes[Boot]) && HoldsWhole(lay, Dtbo, sizes[Dtbo])
                         && HoldsWhole(lay, Vendor, sizes[Vendor]) && HoldsWhole(lay, System, sizes[System])
  {
    out := [];
    for i := 0 to |IMAGE_ORDER|
      invariant out == ImageWrites(lay, sizes)[..i]
      invariant forall k :: 0 <= k < i ==> Fits(lay, IMAGE_ORDER[k], sizes[IMAGE_ORDER[k]])
    {
      var name := IMAGE_ORDER[i];
      assert name in IMAGE_ORDER;
      if sizes[name] % SECTOR != 0 { return Stopped(DoesNotFit), out; }
      var n := sizes[name] / SECTOR;
      if !(0 < n <= lay.Sectors(name)) { return Stopped(DoesNotFit), out; }
      out := out + [Write(Part(name), Region(lay.Start(name), n))];
    }
    InOrder(lay, sizes);
    o := Pass;
  }

  method InstallWrites(lay: Layout, sizes: map<PartName, int>) returns (o: Outcome, out: seq<Write>)
    requires forall n :: n in IMAGE_ORDER ==> n in sizes
    ensures o.Pass? <==> forall n :: n in IMAGE_ORDER ==> Fits(lay, n, sizes[n])
    ensures o.Stopped? ==> o.why == DoesNotFit
    ensures o.Pass? ==> out == ImageWrites(lay, sizes) + ZeroWrites(lay)
    ensures o.Pass? ==>
      && |out| == 6 && ImagesInOrder(lay, sizes, out)
      && out[4].tag == MetadataZero && out[4].region == Region(lay.parts(Metadata).start, lay.metadataHeadZero)
      && out[5].tag == UserdataZero && out[5].region == Region(lay.parts(Userdata).start, lay.userdataHeadZero)
  {
    out :- BuildImageWrites(lay, sizes);
    out := out + [Write(MetadataZero, lay.Head(Metadata, lay.metadataHeadZero))];
    out := out + [Write(UserdataZero, lay.Head(Userdata, lay.userdataHeadZero))];
    o := Pass;
  }

  function FullImageWrites(lay: Layout): seq<Write> {
    [PartWrite(lay, Boot), PartWrite(lay, Dtbo), PartWrite(lay, Vendor), PartWrite(lay, System)]
  }

  // ---- the weaker plan guard (install and restore) ----

  ghost predicate MayProgram(n: PartName) { !(n.Recovery? || n.Devinfo? || n.Vbmeta?) }

  /** One planned program lies inside one programmable partition. */
  ghost predicate Programmable(lay: Layout, r: Region) {
    r.sectors > 0 && r.start >= 0 && exists n :: MayProgram(n) && r.Inside(lay.parts(n))
  }

  function InsideOf(lay: Layout, names: seq<PartName>, r: Region): (hits: seq<PartName>)
    ensures forall n :: n in hits <==> n in names && r.Inside(lay.parts(n))
    ensures hits == [] <==> forall n :: n in names ==> !r.Inside(lay.parts(n))
  {
    if names == [] then []
    else (if r.Inside(lay.parts(names[0])) then [names[0]] else []) + InsideOf(lay, names[1..], r)
  }

  ghost predicate NoDuplicates<T(!new)>(s: seq<T>) {
    forall i, j :: 0 <= i < j < |s| ==> s[i] != s[j]
  }

  lemma {:induction false} InsideOfSingle(lay: Layout, names: seq<PartName>, r: Region, n: PartName)
    requires lay.Valid() && r.sectors > 0 && r.Inside(lay.parts(n))
    requires n in names && NoDuplicates(names)
    ensures InsideOf(lay, names, r) == [n]
  {
    forall m | r.Inside(lay.parts(m)) ensures m == n {
      if m != n { assert lay.parts(m).Overlaps(lay.parts(n)); }
    }
    var rest := InsideOf(lay, names[1..], r);
    if names[0] == n {
      assert n !in names[1..];
      assert forall m :: m in rest ==> m in names[1..] && m == n;
      assert rest == [];
    } else {
      InsideOfSingle(lay, names[1..], r, n);
    }
  }

  lemma ProgrammableNames()
    ensures NoDuplicates(PROGRAMMABLE)
    ensures forall n :: n in PROGRAMMABLE <==> MayProgram(n)
  {
  }

  /** Counting the partitions a range lies inside decides the guard. */
  lemma InsideOneIsProgrammable(lay: Layout, r: Region, names: seq<PartName>)
    requires lay.Valid() && r.sectors > 0 && r.start >= 0 && names == PROGRAMMABLE
    ensures |InsideOf(lay, names, r)| == 1 <==> Programmable(lay, r)
  {
    ProgrammableNames();
    if n :| n in names && r.Inside(lay.parts(n)) { InsideOfSingle(lay, names, r, n); }
    if |InsideOf(lay, names, r)| == 1 { assert InsideOf(lay, names, r)[0] in InsideOf(lay, names, r); }
  }

  method InsideOneProgrammable(lay: Layout, r: Region) returns (ok: bool)
    requires lay.Valid() && r.sectors > 0 && r.start >= 0
    ensures ok <==> Programmable(lay, r)
  {
    var inside := InsideOf(lay, PROGRAMMABLE, r);
    InsideOneIsProgrammable(lay, r, PROGRAMMABLE);
    ok := |inside| == 1;
  }

  method CheckPlan(lay: Layout, writes: seq<Write>) returns (o: Outcome)
    requires lay.Valid()
    ensures o.Pass? <==> forall k :: 0 <= k < |writes| ==> Programmable(lay, writes[k].region)
    ensures o.Stopped? ==> o.why == PlanRefused
  {
    for i := 0 to |writes|
      invariant forall k :: 0 <= k < i ==> Programmable(lay, writes[k].region)
    {
      var r := writes[i].region;
      if r.sectors <= 0 || r.start < 0 { return Stopped(PlanRefused); }
      var one := InsideOneProgrammable(lay, r);
      if !one { return Stopped(PlanRefused); }
    }
    o := Pass;
  }

  // ---- restore plans ----

  function RomWrites(lay: Layout): seq<Write> {
    [PartWrite(lay, Misc), PartWrite(lay, Metadata), PartWrite(lay, Modemst1), PartWrite(lay, Modemst2),
     PartWrite(lay, Fsg), PartWrite(lay, Fsc), PartWrite(lay, Persist)]
  }

  ghost predicate RomMayWrite(n: PartName) {
    n.Misc? || n.Metadata? || n.Modemst1? || n.Modemst2? || n.Fsg? || n.Fsc? || n.Persist?
  }
}
