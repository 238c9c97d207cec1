// Parsing the primary GPT and comparing it with the layout
// (RomFlashLayoutV1.check_layout_against_gpt; sections 5.3.2 and 5.3.3 of the
// UEFI Specification give the header and entry fields).

module Gpt {
  import opened Disk
  import opened Outcomes
  import opened Layout
  import opened UpdateLayout

  datatype Decoded = Garbled | Text(s: string)

  /** CRC32 and UTF-16 decoding are abstract. */
  datatype Codec = Codec(crc: Bytes -> int, decodeName: Bytes -> Decoded)

  datatype Entry = Unused | Broken | Entry(name: string, region: Region)

  function PartString(n: PartName): string {
    match n
    case Fsg => "fsg" case Dtbo => "dtbo" case Boot => "boot" case Recovery => "recovery" case Fsc => "fsc"
    case Modemst1 => "modemst1" case Modemst2 => "modemst2" case System => "system" case Vendor => "vendor"
    case Persist => "persist" case Misc => "misc" case Devinfo => "devinfo" case Vbmeta => "vbmeta"
    case Userdata => "userdata" case Metadata => "metadata"
  }

  function LittleEndian(d: Bytes): nat {
    if d == [] then 0 else d[0] as nat + 256 * LittleEndian(d[1..])
  }

  function U32(d: Bytes, at: nat): nat
    requires at + 4 <= |d|
  {
    LittleEndian(d[at..at + 4])
  }

  function U64(d: Bytes, at: nat): nat
    requires at + 8 <= |d|
  {
    LittleEndian(d[at..at + 8])
  }

  const MAGIC: Bytes := [69, 70, 73, 32, 80, 65, 82, 84]   // "EFI PART"

  /** The header with its own checksum field zeroed. */
  function ZeroChecksum(h: Bytes): Bytes {
    Cut(h, 0, 16) + [0, 0, 0, 0] + Cut(h, 20, |h|)
  }

  function TrimNul(s: string): (t: string)
    ensures t <= s && (t != [] ==> t[|t| - 1] != '\0') && forall i :: |t| <= i < |s| ==> s[i] == '\0'
  {
    if s != [] && s[|s| - 1] == '\0' then TrimNul(s[..|s| - 1]) else s
  }

  /** Entry `i` of the table; a truncated entry cannot be unpacked. */
  function EntryAt(codec: Codec, table: Bytes, esize: nat, i: nat): Entry {
    var e := Cut(table, i * esize, (i + 1) * esize);
    if Cut(e, 0, 16) == Zeros(16) then Unused
    else if |e| < 48 then Broken
    else
      var first, last := U64(e, 32), U64(e, 40);
      match codec.decodeName(Cut(e, 56, 128))
      case Garbled => Broken
      case Text(s) => Entry(TrimNul(s), Region(first, last - first + 1))
  }

  datatype Header = Header(entriesLba: nat, count: nat, esize: nat, entriesCrc: nat)

  function HeaderOf(hdr: Bytes): Header
    requires |hdr| == 512
  {
    Header(U64(hdr, 72), U32(hdr, 80), U32(hdr, 84), U32(hdr, 88))
  }

  function TableOf(primary: Bytes, h: Header): Bytes {
    Cut(primary, h.entriesLba * 512, h.entriesLba * 512 + h.count * h.esize)
  }

  function EntriesOf(codec: Codec, primary: Bytes, h: Header): (es: seq<Entry>)
    ensures |es| == h.count
  {
    var table := TableOf(primary, h);
    seq(h.count, i requires 0 <= i < h.count => EntryAt(codec, table, h.esize, i))
  }

  /** All entries of an accepted primary GPT. */
  function GptEntries(codec: Codec, primary: Bytes): seq<Entry>
    requires |primary| >= 1024
  {
    EntriesOf(codec, primary, HeaderOf(primary[512..1024]))
  }

  /** The region a name has in the table: its last entry of that name wins. */
  ghost predicate Lists(es: seq<Entry>, name: string, region: Region) {
    exists i :: 0 <= i < |es| && es[i] == Entry(name, region)
      && forall j :: i < j < |es| && es[j].Entry? ==> es[j].name != name
  }

  predicate HeaderAccepted(lay: Layout, codec: Codec, primary: Bytes) {
    && |primary| == lay.gptPrimary.Size() && |primary| >= 1024
    && var hdr := primary[512..1024];
    && hdr[..8] == MAGIC
    && codec.crc(ZeroChecksum(Cut(hdr, 0, U32(hdr, 12)))) == U32(hdr, 16)
    && var h := HeaderOf(hdr);
    && codec.crc(TableOf(primary, h)) == h.entriesCrc
  }

  /** Every layout partition is in the table by name and geometry, and every
      used entry could be unpacked. */
  ghost predicate GptAccepted(lay: Layout, codec: Codec, primary: Bytes) {
    && HeaderAccepted(lay, codec, primary)
    && var es := GptEntries(codec, primary);
    && (forall i :: 0 <= i < |es| ==> !es[i].Broken?)
    && (forall n :: Lists(es, PartString(n), lay.parts(n)))
  }

  /** `found` is the dictionary of these entries. */
  ghost predicate Tabulates(es: seq<Entry>, found: map<string, Region>) {
    forall name, r :: Lists(es, name, r) <==> name in found && found[name] == r
  }

  lemma TabulatesStep(es: seq<Entry>, e: Entry, found: map<string, Region>)
    requires Tabulates(es, found) && !e.Broken?
    ensures Tabulates(es + [e], if e.Entry? then found[e.name := e.region] else found)
  {
    var all, after := es + [e], if e.Entry? then found[e.name := e.region] else found;
    forall name, r ensures Lists(all, name, r) <==> name in after && after[name] == r {
      assert Lists(es, name, r) <==> name in found && found[name] == r;
      if e.Entry? && e.name == name {
        assert all[|es|] == e;
      } else {
        if Lists(es, name, r) {
          var i :| 0 <= i < |es| && es[i] == Entry(name, r) && forall j :: i < j < |es| && es[j].Entry? ==>
            es[j].name != name;
          assert all[i] == Entry(name, r);
        }
        if Lists(all, name, r) {
          var i :| 0 <= i < |all| && all[i] == Entry(name, r) && forall j :: i < j < |all| && all[j].Entry? ==>
            all[j].name != name;
          assert es[i] == Entry(name, r);
          assert forall j :: i < j < |es| && es[j].Entry? ==> all[j] == es[j];
        }
      }
    }
  }

  method ScanEntries(es: seq<Entry>) returns (o: Outcome, found: map<string, Region>)
    ensures o.Pass? <==> forall i :: 0 <= i < |es| ==> !es[i].Broken?
    ensures o.Pass? ==> Tabulates(es, found)
    ensures o.Stopped? ==> o.why == GptRejected
  {
    found := map[];
    for i := 0 to |es|
      invariant forall k :: 0 <= k < i ==> !es[k].Broken?
      invariant Tabulates(es[..i], found)
    {
      var e := es[i];
      if e.Broken? { return Stopped(GptRejected), found; }
      TabulatesStep(es[..i], e, found);
      assert es[..i] + [e] == es[..i + 1];
      if e.Entry? { found := found[e.name := e.region]; }
    }
    assert es[..|es|] == es;
    o := Pass;
  }

  method CheckLayoutAgainstGpt(lay: Layout, codec: Codec, primary: Bytes) returns (o: Outcome)
    ensures o.Pass? <==> GptAccepted(lay, codec, primary)
    ensures o.Stopped? ==> o.why == GptRejected
  {
    if !HeaderAccepted(lay, codec, primary) { return Stopped(GptRejected); }
    var es := GptEntries(codec, primary);
    var found :- ScanEntries(es);
    o := CompareGeometry(lay, found);
    assert forall n :: Lists(es, PartString(n), lay.parts(n)) <==>
                       PartString(n) in found && found[PartString(n)] == lay.parts(n);
  }

  method CompareGeometry(lay: Layout, found: map<string, Region>) returns (o: Outcome)
    ensures o.Pass? <==> forall n :: PartString(n) in found && found[PartString(n)] == lay.parts(n)
    ensures o.Stopped? ==> o.why == GptRejected
  {
    for k := 0 to |ALL_PARTS|
      invariant forall m :: 0 <= m < k ==>
        PartString(ALL_PARTS[m]) in found && found[PartString(ALL_PARTS[m])] == lay.parts(ALL_PARTS[m])
    {
      var n := ALL_PARTS[k];
      if PartString(n) !in found || found[PartString(n)] != lay.parts(n) { return Stopped(GptRejected); }
    }
    AllPartsListed();
    forall n ensures PartString(n) in found && found[PartString(n)] == lay.parts(n) {
      assert n in ALL_PARTS;
    }
    o := Pass;
  }

  // ---- the table as the standard writes it ----

  /** `n` little-endian bytes of a number. */
  function Le(v: nat, n: nat): (d: Bytes)
    ensures |d| == n
  {
    if n == 0 then [] else [(v % 256) as byte] + Le(v / 256, n - 1)
  }

  function Power256(n: nat): (p: nat) { if n == 0 then 1 else 256 * Power256(n - 1) }

  lemma {:induction false} NumberReads(v: nat, n: nat)
    requires v < Power256(n)
    ensures LittleEndian(Le(v, n)) == v
  {
    if n > 0 { NumberReads(v / 256, n - 1); }
  }

  lemma {:induction false} NumberWrites(d: Bytes)
    ensures Le(LittleEndian(d), |d|) == d && LittleEndian(d) < Power256(|d|)
  {
    if d != [] { NumberWrites(d[1..]); }
  }

  /** One entry of 128 bytes: type, identity, first and last sector, flags, name. */
  datatype Slot = Slot(kind: Bytes, identity: Bytes, first: nat, last: nat, flags: Bytes, name: Bytes) {
    predicate Fits() {
      && |kind| == 16 && |identity| == 16 && |flags| == 8 && |name| == 72
      && first < 0x1_0000_0000_0000_0000 && last < 0x1_0000_0000_0000_0000
    }

    predicate Used() { exists i :: 0 <= i < |kind| && kind[i] != 0 }

    function Image(): Bytes { kind + identity + Le(first, 8) + Le(last, 8) + flags + name }
  }

  /** `part` stands in `p` from byte `at` on. */
  ghost predicate StandsAt(p: Bytes, at: nat, part: Bytes) { at + |part| <= |p| && p[at..at + |part|] == part }

  /** A primary GPT: the header in the second sector, with both checksums over
      what they cover, and the entries from sector `lba` on. */
  ghost predicate IsGpt(codec: Codec, p: Bytes, size: nat, lba: nat, slots: seq<Slot>) {
    && size <= 512 && 512 * lba + 128 * |slots| <= |p| && 1024 <= |p|
    && |slots| < 0x1_0000_0000 && lba < 0x1_0000_0000_0000_0000
    && (forall i :: 0 <= i < |slots| ==> slots[i].Fits() && StandsAt(p, 512 * lba + 128 * i, slots[i].Image()))
    && StandsAt(p, 512, [0x45, 0x46, 0x49, 0x20, 0x50, 0x41, 0x52, 0x54])
    && StandsAt(p, 524, Le(size, 4))
    && StandsAt(p, 584, Le(lba, 8)) && StandsAt(p, 592, Le(|slots|, 4)) && StandsAt(p, 596, Le(128, 4))
    && var table, bare := codec.crc(p[512 * lba..512 * lba + 128 * |slots|]), ChecksumBlanked(p[512..512 + size]);
       && 0 <= table < 0x1_0000_0000 && StandsAt(p, 600, Le(table, 4))
       && 0 <= codec.crc(bare) < 0x1_0000_0000 && StandsAt(p, 528, Le(codec.crc(bare), 4))
  }

  /** A header with zeroes for its own checksum. */
  ghost function ChecksumBlanked(h: Bytes): (b: Bytes)
    ensures |h| >= 20 ==> |b| == |h| && forall i :: 0 <= i < |b| ==> b[i] == if 16 <= i < 20 then 0 else h[i]
  {
    if |h| < 16 then h + [0, 0, 0, 0]
    else h[..16] + [0, 0, 0, 0] + (if |h| < 20 then [] else h[20..])
  }

  /** Reading at a place where a number stands gives the number. */
  lemma NumberAt(p: Bytes, at: nat, v: nat, n: nat)
    requires v < Power256(n) && StandsAt(p, at, Le(v, n))
    ensures at + n <= |p| && LittleEndian(p[at..at + n]) == v
  {
    NumberReads(v, n);
  }

  lemma Powers()
    ensures Power256(4) == 0x1_0000_0000 && Power256(8) == 0x1_0000_0000_0000_0000
  {
    assert Power256(2) == 0x1_0000;
    assert Power256(4) == 0x1_0000_0000;
  }

  lemma SubSlice(p: Bytes, a: nat, b: nat, x: nat, y: nat)
    requires x <= y <= b - a && b <= |p|
    ensures p[a..b][x..y] == p[a + x..a + y]
  {
    var s := p[a..b];
    forall k | 0 <= k < y - x ensures s[x..y][k] == p[a + x..a + y][k] {
      assert s[x + k] == p[a + (x + k)];
    }
  }

  lemma HeaderNumber(p: Bytes, at: nat, v: nat, n: nat)
    requires v < Power256(n) && StandsAt(p, 512 + at, Le(v, n)) && at + n <= 512 && 1024 <= |p|
    ensures LittleEndian(p[512..1024][at..at + n]) == v
  {
    NumberAt(p, 512 + at, v, n);
    SubSlice(p, 512, 1024, at, at + n);
  }

  /** The numbers of the header are read as they were written. */
  lemma NumbersRead(codec: Codec, p: Bytes, size: nat, lba: nat, slots: seq<Slot>)
    requires IsGpt(codec, p, size, lba, slots)
    ensures var hdr := p[512..1024];
      && U32(hdr, 12) == size && HeaderOf(hdr) == Header(lba, |slots|, 128, U32(hdr, 88))
      && U32(hdr, 16) == codec.crc(ChecksumBlanked(p[512..512 + size]))
      && U32(hdr, 88) == codec.crc(p[512 * lba..512 * lba + 128 * |slots|])
  {
    hide LittleEndian, Le, Power256, Slot.Fits, Slot.Image, StandsAt, ChecksumBlanked;
    Powers();
    HeaderNumber(p, 12, size, 4);
    HeaderNumber(p, 16, codec.crc(ChecksumBlanked(p[512..512 + size])), 4);
    HeaderNumber(p, 72, lba, 8);
    HeaderNumber(p, 80, |slots|, 4);
    HeaderNumber(p, 84, 128, 4);
    HeaderNumber(p, 88, codec.crc(p[512 * lba..512 * lba + 128 * |slots|]), 4);
  }

  /** The header is accepted: the mark stands there and both checksums agree. */
  lemma HeaderReads(lay: Layout, codec: Codec, p: Bytes, size: nat, lba: nat, slots: seq<Slot>)
    requires IsGpt(codec, p, size, lba, slots) && |p| == lay.gptPrimary.Size()
    ensures HeaderAccepted(lay, codec, p) && HeaderOf(p[512..1024]).count == |slots|
    ensures HeaderOf(p[512..1024]).esize == 128
    ensures TableOf(p, HeaderOf(p[512..1024])) == p[512 * lba..512 * lba + 128 * |slots|]
  {
    hide U32, U64, HeaderOf, Le, Slot.Fits, Slot.Image, Power256;
    NumbersRead(codec, p, size, lba, slots);
    var hdr := p[512..1024];
    assert hdr[..8] == p[512..520];
    assert Cut(hdr, 0, size) == p[512..512 + size];
    assert ZeroChecksum(p[512..512 + size]) == ChecksumBlanked(p[512..512 + size]);
    assert TableOf(p, HeaderOf(hdr)) == p[512 * lba..512 * lba + 128 * |slots|];
  }

  /** The name field decodes to this name and NULs behind it. */
  ghost predicate Named(codec: Codec, slot: Slot, name: string) {
    match codec.decodeName(slot.name)
    case Garbled => false
    case Text(s) =>
      name <= s && (name != [] ==> name[|name| - 1] != '\0') && forall i :: |name| <= i < |s| ==> s[i] == '\0'
  }

  lemma NamedOnce(codec: Codec, slot: Slot, a: string, b: string)
    requires Named(codec, slot, a) && Named(codec, slot, b)
    ensures a == b
  {
    var s := codec.decodeName(slot.name).s;
    assert a == s[..|a|] && b == s[..|b|];
  }

  /** What an entry means: none, or a name and a range of sectors, ends included. */
  ghost predicate Means(codec: Codec, slot: Slot, e: Entry) {
    if !slot.Used() then e == Unused
    else if codec.decodeName(slot.name).Garbled? then e == Broken
    else e.Entry? && e.region == Region(slot.first, slot.last - slot.first + 1) && Named(codec, slot, e.name)
  }

  lemma SlotReads(codec: Codec, table: Bytes, i: nat, slot: Slot)
    requires slot.Fits() && StandsAt(table, 128 * i, slot.Image())
    ensures Means(codec, slot, EntryAt(codec, table, 128, i))
  {
    hide LittleEndian, Le, Power256, TrimNul, Slot.Image, Cut, Slot.Used;
    Powers();
    SlotCut(table, i, slot);
    ImageParts(slot);
    var e := slot.Image();
    NumberAt(e, 32, slot.first, 8);
    NumberAt(e, 40, slot.last, 8);
  }

  lemma SlotCut(table: Bytes, i: nat, slot: Slot)
    requires slot.Fits() && StandsAt(table, 128 * i, slot.Image())
    ensures Cut(table, i * 128, (i + 1) * 128) == slot.Image()
  {
    hide Le, Slot.Used;
    var at := 128 * i;
    assert Cut(table, i * 128, (i + 1) * 128) == table[at..at + 128];
  }

  /** Where the parts of an entry stand. */
  lemma ImageParts(slot: Slot)
    requires slot.Fits()
    ensures var e := slot.Image();
      && |e| == 128 && Cut(e, 0, 16) == slot.kind && Cut(e, 56, 128) == slot.name
      && StandsAt(e, 32, Le(slot.first, 8)) && StandsAt(e, 40, Le(slot.last, 8))
    ensures slot.Used() <==> slot.kind != Zeros(16)
  {
    hide Le, Slot.Used;
    var e := slot.Image();
    assert e[0..16] == slot.kind && e[56..128] == slot.name;
    assert e[32..40] == Le(slot.first, 8) && e[40..48] == Le(slot.last, 8);
    UsedIs(slot);
  }

  lemma UsedIs(slot: Slot)
    requires |slot.kind| == 16
    ensures slot.Used() <==> slot.kind != Zeros(16)
  {
    assert slot.kind != Zeros(16) ==> exists i :: 0 <= i < 16 && slot.kind[i] != Zeros(16)[i];
  }

  /** The table is read back entry by entry as it was written. */
  lemma TableReads(lay: Layout, codec: Codec, p: Bytes, size: nat, lba: nat, slots: seq<Slot>)
    requires IsGpt(codec, p, size, lba, slots) && |p| == lay.gptPrimary.Size()
    ensures HeaderAccepted(lay, codec, p) && 1024 <= |p|
    ensures var es := GptEntries(codec, p);
      |es| == |slots| && forall i :: 0 <= i < |es| ==> Means(codec, slots[i], es[i])
  {
    hide HeaderAccepted, HeaderOf, TableOf, EntryAt, Means, Slot.Fits, Slot.Image, StandsAt, ChecksumBlanked, Le;
    HeaderReads(lay, codec, p, size, lba, slots);
    var es := GptEntries(codec, p);
    forall i | 0 <= i < |es| ensures Means(codec, slots[i], es[i]) {
      SlotStands(p, lba, |slots|, i, slots[i]);
      SlotReads(codec, p[512 * lba..512 * lba + 128 * |slots|], i, slots[i]);
    }
  }

  lemma SlotStands(p: Bytes, lba: nat, count: nat, i: nat, slot: Slot)
    requires i < count && 512 * lba + 128 * count <= |p| && slot.Fits()
    requires StandsAt(p, 512 * lba + 128 * i, slot.Image())
    ensures StandsAt(p[512 * lba..512 * lba + 128 * count], 128 * i, slot.Image())
  {
    SubSlice(p, 512 * lba, 512 * lba + 128 * count, 128 * i, 128 * i + 128);
  }

  /** A used entry with this name and these sectors, and no later one of the name. */
  ghost predicate LastNamed(codec: Codec, slots: seq<Slot>, i: nat, name: string, r: Region) {
    && i < |slots| && slots[i].Used() && Named(codec, slots[i], name)
    && slots[i].first == r.start && slots[i].last == r.start + r.sectors - 1
    && forall j :: i < j < |slots| && slots[j].Used() ==> !Named(codec, slots[j], name)
  }

  ghost predicate InLastSlot(codec: Codec, slots: seq<Slot>, name: string, r: Region) {
    exists i :: LastNamed(codec, slots, i, name, r)
  }

  /** A table written by the standard is accepted exactly if every used name can
      be decoded and each partition of the layout has its first and last sector
      in the last entry of its name. */
  lemma WrittenAccepted(lay: Layout, codec: Codec, p: Bytes, size: nat, lba: nat, slots: seq<Slot>)
    requires IsGpt(codec, p, size, lba, slots) && |p| == lay.gptPrimary.Size()
    ensures GptAccepted(lay, codec, p) <==>
      && (forall i :: 0 <= i < |slots| && slots[i].Used() ==> !codec.decodeName(slots[i].name).Garbled?)
      && (forall n :: InLastSlot(codec, slots, PartString(n), lay.parts(n)))
  {
    hide IsGpt, HeaderAccepted, EntriesOf, HeaderOf, Named, InLastSlot, Lists, PartString, Slot.Used, GptEntries;
    TableReads(lay, codec, p, size, lba, slots);
    var es := GptEntries(codec, p);
    forall i | 0 <= i < |slots|
      ensures es[i].Broken? <==> slots[i].Used() && codec.decodeName(slots[i].name).Garbled?
    {
      assert Means(codec, slots[i], es[i]);
    }
    forall n ensures Lists(GptEntries(codec, p), PartString(n), lay.parts(n)) <==>
                     InLastSlot(codec, slots, PartString(n), lay.parts(n))
    {
      ListsWritten(codec, slots, GptEntries(codec, p), PartString(n), lay.parts(n));
    }
    assert (forall i :: 0 <= i < |es| ==> !es[i].Broken?)
      <==> forall i :: 0 <= i < |slots| && slots[i].Used() ==> !codec.decodeName(slots[i].name).Garbled?;
  }

  lemma ListsWritten(codec: Codec, slots: seq<Slot>, es: seq<Entry>, name: string, r: Region)
    requires |es| == |slots| && forall i :: 0 <= i < |es| ==> Means(codec, slots[i], es[i])
    ensures Lists(es, name, r) <==> InLastSlot(codec, slots, name, r)
  {
    forall i | 0 <= i < |es| && es[i].Entry? ensures es[i].name == name <==> Named(codec, slots[i], name) {
      if Named(codec, slots[i], name) { NamedOnce(codec, slots[i], name, es[i].name); }
    }
    forall i | 0 <= i < |es| ensures es[i].Entry? || !slots[i].Used() || !Named(codec, slots[i], name) {}
    hide Named;
    if Lists(es, name, r) {
      var i :| 0 <= i < |es| && es[i] == Entry(name, r) && forall j :: i < j < |es| && es[j].Entry? ==>
        es[j].name != name;
      assert LastNamed(codec, slots, i, name, r);
    }
    if i: nat :| LastNamed(codec, slots, i, name, r) {
      assert es[i] == Entry(name, r);
    }
  }

  /** The phone's table by the names its GPT gives, as byte ranges. */
  lemma A6lByName(n: PartName)
    ensures var r := A6L.parts(n);
      (PartString(n), r.Lo(), r.Hi()) in {
        ("fsg", 76546048, 78643200), ("dtbo", 805306368, 813694976), ("boot", 343932928, 411041792),
        ("recovery", 469762048, 536870912), ("fsc", 536870912, 536871936), ("modemst1", 536883200, 538980352),
        ("modemst2", 538980352, 541077504), ("system", 813694976, 7256145920), ("vendor", 7256145920, 8409579520),
        ("persist", 8724152320, 8757706752), ("misc", 8757706752, 8758755328), ("devinfo", 253755392, 253759488),
        ("vbmeta", 291811328, 291876864), ("userdata", 10405019648, 125074122752), ("metadata", 753938432, 764424192)}
  {
  }

  // ---- plan safety on the real table ----

  /** No two used entries of the table share a sector. */
  ghost predicate EntriesDisjoint(es: seq<Entry>) {
    forall i, j :: 0 <= i < j < |es| && es[i].Entry? && es[j].Entry? ==> !es[i].region.Overlaps(es[j].region)
  }

  /** If the live table was accepted, an allowed write lies inside the entry of
      the partition it names and touches no other entry, including those of
      partitions the layout does not know. */
  lemma AllowedWriteInOneEntry(lay: Layout, codec: Codec, primary: Bytes, w: Write, wipe: bool) returns (i: nat)
    requires lay.Valid() && GptAccepted(lay, codec, primary) && WriteAllowed(lay, w, wipe)
    requires EntriesDisjoint(GptEntries(codec, primary))
    ensures var es := GptEntries(codec, primary);
            && i < |es| && es[i] == Entry(PartString(Target(w)), lay.parts(Target(w)))
            && w.region.Inside(es[i].region)
            && forall j :: 0 <= j < |es| && j != i && es[j].Entry? ==> !w.region.Overlaps(es[j].region)
  {
    var es, n := GptEntries(codec, primary), Target(w);
    AllowedIsInside(lay, w, wipe);
    assert Lists(es, PartString(n), lay.parts(n));
    i :| 0 <= i < |es| && es[i] == Entry(PartString(n), lay.parts(n));
    forall j | 0 <= j < |es| && j != i && es[j].Entry? ensures !w.region.Overlaps(es[j].region) {
      assert i < j ==> !es[i].region.Overlaps(es[j].region);
      assert j < i ==> !es[j].region.Overlaps(es[i].region);
    }
  }
}
