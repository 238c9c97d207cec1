// The ramdisk edit (Prepare-RecoveryV75Usb): the newc cpio archive is parsed,
// one entry's data is replaced, one entry is added before the trailer, and the
// result is parsed again to check that nothing else changed.

module Newc {
  import opened Options
  import opened Disk

  /** One archive entry: its name, its 13 header fields, its data, and all the
      bytes it occupies. */
  datatype Entry = Entry(name: Bytes, fields: seq<nat>, data: Bytes, raw: Bytes)

  datatype Archive = Archive(entries: seq<Entry>, tail: Bytes)

  const FIELDS: nat := 13
  const INODE: nat := 0
  const MODE: nat := 1
  const FILESIZE: nat := 6
  const NAMESIZE: nat := 11
  const HEADER: nat := 110

  /** The bytes of an ASCII text. */
  function Ascii(text: string): (b: Bytes)
    requires forall i :: 0 <= i < |text| ==> text[i] < 128 as char
    ensures |b| == |text|
  {
    seq(|text|, i requires 0 <= i < |text| => text[i] as int as byte)
  }

  const MAGIC: Bytes := [48, 55, 48, 55, 48, 49]
  const TRAILER: Bytes := Ascii("TRAILER!!!")
  const INIT_RC: Bytes := Ascii("system/etc/init/hw/init.rc")
  const SHELL: Bytes := Ascii("system/bin/sh")
  const WATCHDOG: Bytes := Ascii("system/bin/a6l_usb_watchdog.sh")

  lemma NamesDiffer()
    ensures |TRAILER| == 10 && |INIT_RC| == 26 && |SHELL| == 13 && |WATCHDOG| == 30
    ensures TRAILER != INIT_RC && TRAILER != SHELL && TRAILER != WATCHDOG && INIT_RC != WATCHDOG
    ensures SHELL != INIT_RC && SHELL != WATCHDOG
  {
  }

  // ---- slices of a prefix ----

  /** A slice that ends inside a prefix reads the same in the whole. */
  lemma CutInPrefix(b: Bytes, more: Bytes, from: nat, to: int)
    requires to <= |b|
    ensures Cut(b + more, from, to) == Cut(b, from, to)
    ensures from <= to ==> Cut(b, from, to) == b[from..to]
  {
  }

  /** The next multiple of four, as the parser rounds. */
  function Align(n: nat): (a: nat)
    ensures a % 4 == 0 && n <= a < n + 4
  {
    (n + 3) / 4 * 4
  }

  /** How many zero bytes the printer adds. */
  function Pad(n: nat): (p: nat)
    ensures p < 4 && (n + p) % 4 == 0 && n + p == Align(n)
  {
    (4 - n % 4) % 4
  }

  /** Rounding an absolute position agrees with rounding from an aligned start. */
  lemma AlignFrom(pos: nat, n: nat)
    requires pos % 4 == 0
    ensures Align(pos + n) == pos + Align(n)
  {
  }

  // ---- hexadecimal ----

  function Digit(d: nat): (b: byte)
    requires d < 16
  {
    (if d < 10 then 48 + d else 55 + d) as byte
  }

  /** Python's `%0wX`: at least `w` digits, more when the number needs them. */
  function Hex(x: nat, w: nat): Bytes
    decreases x + w
  {
    if w == 0 && x == 0 then [] else Hex(x / 16, if w == 0 then 0 else w - 1) + [Digit(x % 16)]
  }

  predicate IsDigit(b: byte) { 48 <= b <= 57 || 65 <= b <= 70 || 97 <= b <= 102 }

  function DigitValue(b: byte): (d: nat)
    requires IsDigit(b)
    ensures d < 16
  {
    (if b <= 57 then b as int - 48 else if b <= 70 then b as int - 55 else b as int - 87)
  }

  predicate IsHex(s: Bytes) { s != [] && forall i :: 0 <= i < |s| ==> IsDigit(s[i]) }

  function HexValue(s: Bytes): nat
    requires forall i :: 0 <= i < |s| ==> IsDigit(s[i])
  {
    if s == [] then 0 else HexValue(s[..|s| - 1]) * 16 + DigitValue(s[|s| - 1])
  }

  function Pow16(w: nat): nat { if w == 0 then 1 else 16 * Pow16(w - 1) }

  /** A printed number reads back, in exactly the digits it fits in. */
  lemma {:induction false} HexRoundTrip(x: nat, w: nat)
    ensures forall i :: 0 <= i < |Hex(x, w)| ==> IsDigit(Hex(x, w)[i])
    ensures HexValue(Hex(x, w)) == x
    ensures |Hex(x, w)| >= w && (|Hex(x, w)| == w <==> x < Pow16(w))
    decreases x + w
  {
    if w > 0 || x > 0 {
      var w' := if w == 0 then 0 else w - 1;
      HexRoundTrip(x / 16, w');
      var h := Hex(x / 16, w');
      assert (h + [Digit(x % 16)])[..|h|] == h;
    }
  }

  const UPPER: Bytes := Ascii("0123456789ABCDEF")
  const LOWER: Bytes := Ascii("0123456789abcdef")

  /** The sixteen digits, printed in capitals and read in either case. */
  lemma DigitsAre(d: nat, b: byte)
    requires d < 16
    ensures Digit(d) == UPPER[d]
    ensures IsDigit(b) && DigitValue(b) == d <==> b == UPPER[d] || b == LOWER[d]
  {
  }

  /** `x` without its last `n` hexadecimal digits. */
  function Shifted(x: nat, n: nat): nat { if n == 0 then x else Shifted(x / 16, n - 1) }

  /** A printed number has its most significant digit first. */
  lemma {:induction false} HexDigitAt(x: nat, w: nat, i: nat)
    requires x < Pow16(w) && i < w
    ensures |Hex(x, w)| == w && Hex(x, w)[i] == UPPER[Shifted(x, w - 1 - i) % 16]
  {
    HexRoundTrip(x, w);
    DigitsAre(x % 16, 0);
    if i < w - 1 {
      HexRoundTrip(x / 16, w - 1);
      HexDigitAt(x / 16, w - 1, i);
    }
  }

  /** A header field of at most `w` digits is below 16^w. */
  lemma {:induction false} HexBound(s: Bytes, w: nat)
    requires |s| <= w && forall i :: 0 <= i < |s| ==> IsDigit(s[i])
    ensures HexValue(s) < Pow16(w)
  {
    if s == [] {
      Pow16Positive(w);
    } else {
      HexBound(s[..|s| - 1], w - 1);
    }
  }

  lemma Pow16Positive(w: nat)
    ensures Pow16(w) > 0
  {
  }

  const LIMIT: nat := 0x1_0000_0000

  lemma LimitIsEightDigits()
    ensures Pow16(8) == LIMIT
  {
    assert Pow16(4) == 65536;
  }

  // ---- the parser ----

  function Field(rest: Bytes, i: nat): Bytes { Cut(rest, 6 + 8 * i, 14 + 8 * i) }

  predicate HeaderOk(rest: Bytes) {
    Take(rest, 6) == MAGIC && forall i :: 0 <= i < FIELDS ==> IsHex(Field(rest, i))
  }

  function FieldValues(rest: Bytes): (f: seq<nat>)
    requires HeaderOk(rest)
    ensures |f| == FIELDS && forall i :: 0 <= i < FIELDS ==> f[i] == HexValue(Field(rest, i))
  {
    seq(FIELDS, i requires 0 <= i < FIELDS => HexValue(Field(rest, i)))
  }

  function DataStart(f: seq<nat>): (n: nat)
    requires |f| == FIELDS
    ensures n >= HEADER + f[NAMESIZE]
  {
    Align(HEADER + f[NAMESIZE])
  }

  function EntrySize(f: seq<nat>): (n: nat)
    requires |f| == FIELDS
    ensures n >= DataStart(f) + f[FILESIZE] && n % 4 == 0
  {
    Align(DataStart(f) + f[FILESIZE])
  }

  /** The entry at the front of `rest`, which starts at an aligned position. */
  function ParseEntry(rest: Bytes): (e: Option<Entry>) {
    if !HeaderOk(rest) then None
    else
      var f := FieldValues(rest);
      Some(Entry(
        Cut(rest, HEADER, HEADER + f[NAMESIZE] - 1),
        f,
        Cut(rest, DataStart(f), DataStart(f) + f[FILESIZE]),
        Take(rest, EntrySize(f))))
  }

  /** Where the parts of an entry are: thirteen numbers of eight digits behind
      the mark, the name behind the header up to its NUL, the data and the next
      entry each from a multiple of four on. */
  lemma EntryLaidOut(rest: Bytes, e: Entry)
    requires ParseEntry(rest) == Some(e)
    ensures Take(rest, 6) == [0x30, 0x37, 0x30, 0x37, 0x30, 0x31] && |e.fields| == 13
    ensures forall i :: 0 <= i < 13 ==> NumberIn(rest, 6 + 8 * i, 14 + 8 * i, e.fields[i])
    ensures NumberIn(rest, 94, 102, e.fields[11]) && NumberIn(rest, 54, 62, e.fields[6])
    ensures e.name == Cut(rest, 110, 109 + e.fields[11])
    ensures exists start, end :: LaidAt(rest, e, e.fields[11], e.fields[6], start, end)
  {
    hide HexValue, Cut, Take;
    var f := FieldValues(rest);
    forall i | 0 <= i < 13 ensures NumberIn(rest, 6 + 8 * i, 14 + 8 * i, f[i]) {
      assert IsHex(Field(rest, i)) && f[i] == HexValue(Field(rest, i));
    }
    assert NumberIn(rest, 6 + 8 * 11, 14 + 8 * 11, f[11]) && NumberIn(rest, 6 + 8 * 6, 14 + 8 * 6, f[6]);
    assert LaidAt(rest, e, f[11], f[6], DataStart(f), EntrySize(f));
  }

  /** The digits from byte `from` to byte `to` are this number. */
  ghost predicate NumberIn(rest: Bytes, from: nat, to: nat, v: nat) {
    IsHex(Cut(rest, from, to)) && v == HexValue(Cut(rest, from, to))
  }

  /** The data from the first multiple of four at or behind the name, and all
      bytes up to the next one behind the data. */
  ghost predicate LaidAt(rest: Bytes, e: Entry, names: nat, size: nat, start: nat, end: nat) {
    && 110 + names <= start < 114 + names && start % 4 == 0 && e.data == Cut(rest, start, start + size)
    && start + size <= end < start + size + 4 && end % 4 == 0 && e.raw == Take(rest, end)
  }

  /** Entries up to and including the first trailer, and whatever follows it. */
  function Parsed(rest: Bytes): (a: Option<Archive>)
    decreases |rest|
  {
    if rest == [] then Some(Archive([], []))
    else match ParseEntry(rest)
      case None => None
      case Some(e) =>
        var after := Drop(rest, EntrySize(e.fields));
        if e.name == TRAILER then Some(Archive([e], after))
        else match Parsed(after)
          case None => None
          case Some(a) => Some(Archive([e] + a.entries, a.tail))
  }

  function Prepend(es: seq<Entry>, a: Option<Archive>): Option<Archive> {
    if a.None? then None else Some(Archive(es + a.value.entries, a.value.tail))
  }

  /** The parser works with absolute positions; they stay multiples of four. */
  method ParseNewc(archive: Bytes) returns (a: Option<Archive>)
    ensures a == Parsed(archive)
  {
    hide ParseEntry, HeaderOk, FieldValues, Cut, Align, DataStart, EntrySize, TRAILER, Parsed, Take;
    var pos: nat := 0;
    var entries: seq<Entry> := [];
    assert Drop(archive, 0) == archive;
    PrependNone(Parsed(archive));
    while pos < |archive|
      invariant pos % 4 == 0
      invariant Parsed(archive) == Prepend(entries, Parsed(Drop(archive, pos)))
      decreases |archive| - pos
    {
      ghost var rest := archive[pos..];
      var hdr := Cut(archive, pos, pos + HEADER);
      HeaderAlone(archive, pos);
      if !HeaderOk(hdr) { return None; }
      var f := FieldValues(hdr);
      var nstart: nat := pos + HEADER;
      var dstart := Align(nstart + f[NAMESIZE]);
      var end := Align(dstart + f[FILESIZE]);
      var e := Entry(Cut(archive, nstart, nstart + f[NAMESIZE] - 1), f, Cut(archive, dstart, dstart + f[FILESIZE]),
        Cut(archive, pos, end));
      EntryAbsolute(archive, pos, e);
      ParsedStep(rest, e);
      PrependTwice(entries, e, Parsed(Drop(archive, end)));
      entries := entries + [e];
      pos := end;
      if e.name == TRAILER { return Some(Archive(entries, Drop(archive, pos))); }
    }
    assert entries + [] == entries;
    ParsedEnd();
    a := Some(Archive(entries, []));
  }

  lemma ParsedEnd()
    ensures Parsed([]) == Some(Archive([], []))
  {
  }

  lemma ParsedStep(rest: Bytes, e: Entry)
    requires rest != [] && ParseEntry(rest) == Some(e)
    ensures |e.fields| == FIELDS
    ensures Parsed(rest) ==
      if e.name == TRAILER then Some(Archive([e], Drop(rest, EntrySize(e.fields))))
      else Prepend([e], Parsed(Drop(rest, EntrySize(e.fields))))
  {
  }

  lemma PrependNone(a: Option<Archive>)
    ensures Prepend([], a) == a
  {
    if a.Some? { assert [] + a.value.entries == a.value.entries; }
  }

  lemma PrependTwice(es: seq<Entry>, e: Entry, a: Option<Archive>)
    ensures Prepend(es, Prepend([e], a)) == Prepend(es + [e], a)
  {
    if a.Some? { assert es + ([e] + a.value.entries) == (es + [e]) + a.value.entries; }
  }

  /** Looking at the header alone is looking at it in place. */
  lemma HeaderAlone(archive: Bytes, pos: nat)
    requires pos < |archive|
    ensures var hdr, rest := Cut(archive, pos, pos + HEADER), archive[pos..];
      (HeaderOk(hdr) <==> HeaderOk(rest)) && (HeaderOk(rest) ==> FieldValues(hdr) == FieldValues(rest))
    ensures !HeaderOk(archive[pos..]) ==> Parsed(archive[pos..]).None?
  {
    var hdr, rest := Cut(archive, pos, pos + HEADER), archive[pos..];
    assert hdr == Take(rest, HEADER);
    HeaderTaken(rest);
  }

  lemma HeaderTaken(rest: Bytes)
    ensures HeaderOk(Take(rest, HEADER)) <==> HeaderOk(rest)
    ensures HeaderOk(rest) ==> FieldValues(Take(rest, HEADER)) == FieldValues(rest)
  {
    var hdr := Take(rest, HEADER);
    forall i | 0 <= i < FIELDS ensures Field(hdr, i) == Field(rest, i) {}
    assert Take(hdr, 6) == Take(rest, 6);
    if HeaderOk(rest) {
      assert HeaderOk(hdr);
      assert FieldValues(hdr) == FieldValues(rest);
    }
  }

  /** From an aligned position the absolute slices are those of the entry there. */
  lemma EntryAbsolute(archive: Bytes, pos: nat, e: Entry)
    requires pos < |archive| && pos % 4 == 0 && HeaderOk(archive[pos..]) && e.fields == FieldValues(archive[pos..])
    requires var f := e.fields; var dstart := Align(pos + HEADER + f[NAMESIZE]); var end := Align(dstart + f[FILESIZE]);
      && e.name == Cut(archive, pos + HEADER, pos + HEADER + f[NAMESIZE] - 1)
      && e.data == Cut(archive, dstart, dstart + f[FILESIZE]) && e.raw == Cut(archive, pos, end)
    ensures ParseEntry(archive[pos..]) == Some(e)
    ensures var end := Align(Align(pos + HEADER + e.fields[NAMESIZE]) + e.fields[FILESIZE]);
      && end == pos + EntrySize(e.fields) && end % 4 == 0
        && Drop(archive[pos..], EntrySize(e.fields)) == Drop(archive, end)
  {
    hide HeaderOk, FieldValues, Cut, Align, Take, Drop;
    var f := e.fields;
    AlignFrom(pos, HEADER + f[NAMESIZE]);
    AlignFrom(pos, DataStart(f) + f[FILESIZE]);
    CutAbsolute(archive, pos, HEADER, HEADER + f[NAMESIZE] - 1);
    CutAbsolute(archive, pos, DataStart(f), DataStart(f) + f[FILESIZE]);
    TakeAbsolute(archive, pos, EntrySize(f));
  }

  lemma TakeAbsolute(b: Bytes, pos: nat, n: nat)
    requires pos < |b|
    ensures Cut(b, pos, pos + n) == Take(b[pos..], n)
    ensures Drop(b[pos..], n) == Drop(b, pos + n)
  {
  }

  lemma CutAbsolute(b: Bytes, pos: nat, from: nat, to: int)
    requires pos <= |b|
    ensures Cut(b, pos + from, pos + to) == Cut(b[pos..], from, to)
  {
  }

  // ---- the printer ----

  function HeaderText(f: seq<nat>): (h: Bytes) {
    if f == [] then [] else HeaderText(f[..|f| - 1]) + Hex(f[|f| - 1], 8)
  }

  function Reprinted(f: seq<nat>, name: Bytes, data: Bytes): (g: seq<nat>)
    requires |f| == FIELDS
    ensures |g| == FIELDS && g[FILESIZE] == |data| && g[NAMESIZE] == |name| + 1
    ensures forall i :: 0 <= i < FIELDS && i != FILESIZE && i != NAMESIZE ==> g[i] == f[i]
  {
    f[FILESIZE := |data|][NAMESIZE := |name| + 1]
  }

  function NewcEntry(name: Bytes, f: seq<nat>, data: Bytes): (e: Bytes)
    requires |f| == FIELDS
  {
    var head := MAGIC + HeaderText(Reprinted(f, name, data)) + name + [0];
    head + Zeros(Pad(|head|)) + data + Zeros(Pad(|data|))
  }

  ghost predicate EightDigits(f: seq<nat>) { forall i :: 0 <= i < |f| ==> f[i] < LIMIT }

  lemma {:induction false} HeaderTextFields(f: seq<nat>)
    requires EightDigits(f)
    ensures |HeaderText(f)| == 8 * |f|
    ensures forall i :: 0 <= i < |f| ==> HeaderText(f)[8 * i..8 * i + 8] == Hex(f[i], 8)
  {
    if f != [] {
      var front, last := f[..|f| - 1], Hex(f[|f| - 1], 8);
      HeaderTextFields(front);
      LimitIsEightDigits();
      HexRoundTrip(f[|f| - 1], 8);
      var h := HeaderText(front);
      forall i | 0 <= i < |f| ensures (h + last)[8 * i..8 * i + 8] == Hex(f[i], 8) {
        if i < |front| { assert (h + last)[8 * i..8 * i + 8] == h[8 * i..8 * i + 8]; }
      }
    }
  }

  /** A printed header reads back as the fields it was printed from. */
  lemma HeaderReads(g: seq<nat>, more: Bytes)
    requires |g| == FIELDS && EightDigits(g)
    ensures HeaderOk(MAGIC + HeaderText(g) + more) && FieldValues(MAGIC + HeaderText(g) + more) == g
  {
    assert forall i :: 0 <= i < FIELDS ==> g[i] < LIMIT;
    hide HeaderText, Hex, HexValue, EightDigits, Field;
    var h := HeaderText(g);
    HeaderTextFields(g);
    LimitIsEightDigits();
    forall i | 0 <= i < FIELDS
      ensures IsHex(Field(MAGIC + h + more, i)) && HexValue(Field(MAGIC + h + more, i)) == g[i] {
      FieldOf(h, more, i);
      HexRoundTrip(g[i], 8);
    }
    assert Take(MAGIC + h + more, 6) == MAGIC;
  }

  /** The fields stand one behind the other. */
  lemma FieldOf(h: Bytes, more: Bytes, k: nat)
    requires k < FIELDS && 8 * k + 8 <= |h|
    ensures Field(MAGIC + h + more, k) == h[8 * k..8 * k + 8]
  {
    var front, back := MAGIC + h[..8 * k], h[8 * k + 8..] + more;
    assert h == h[..8 * k] + h[8 * k..8 * k + 8] + h[8 * k + 8..];
    assert MAGIC + h + more == front + h[8 * k..8 * k + 8] + back;
    CutMiddle(front, h[8 * k..8 * k + 8], back, MAGIC + h + more);
  }

  // ---- entries that parse alike wherever they stand ----

  /** Read at any aligned position, the bytes of this entry give this entry. */
  ghost predicate Solid(e: Entry) {
    && |e.fields| == FIELDS && |e.raw| == EntrySize(e.fields)
    && forall more :: ParseEntry(e.raw + more) == Some(e)
  }

  /** An entry that is not cut off by the end of the archive is solid. */
  lemma WholeIsSolid(rest: Bytes)
    requires HeaderOk(rest) && EntrySize(FieldValues(rest)) <= |rest|
    ensures Solid(ParseEntry(rest).value)
  {
    var e := ParseEntry(rest).value;
    forall more ensures ParseEntry(e.raw + more) == Some(e) {
      SamePrefix(rest, e.raw + more, e);
    }
  }

  lemma SamePrefix(rest: Bytes, other: Bytes, e: Entry)
    requires ParseEntry(rest) == Some(e) && EntrySize(e.fields) <= |rest|
    requires e.raw <= other
    ensures ParseEntry(other) == Some(e)
  {
    hide Cut, Align, DataStart, EntrySize;
    var f, n := e.fields, |e.raw|;
    var after, other' := rest[n..], other[n..];
    assert rest == e.raw + after && other == e.raw + other';
    forall i | 0 <= i < FIELDS ensures Field(other, i) == Field(rest, i) {
      CutSame(e.raw, after, other', 6 + 8 * i, 14 + 8 * i);
    }
    assert Take(other, 6) == Take(rest, 6);
    assert HeaderOk(other);
    assert FieldValues(other) == f;
    assert Take(other, EntrySize(f)) == e.raw;
    CutSame(e.raw, after, other', HEADER, HEADER + f[NAMESIZE] - 1);
    CutSame(e.raw, after, other', DataStart(f), DataStart(f) + f[FILESIZE]);
  }

  lemma CutSame(b: Bytes, more: Bytes, other: Bytes, from: nat, to: int)
    requires to <= |b|
    ensures Cut(b + more, from, to) == Cut(b + other, from, to)
  {
    CutInPrefix(b, more, from, to);
    CutInPrefix(b, other, from, to);
  }

  function PrintedEntry(name: Bytes, f: seq<nat>, data: Bytes): (e: Entry)
    requires |f| == FIELDS
  {
    Entry(name, Reprinted(f, name, data), data, NewcEntry(name, f, data))
  }

  /** Printing then parsing is the identity when every field fits eight digits. */
  lemma PrintedIsSolid(name: Bytes, f: seq<nat>, data: Bytes)
    requires |f| == FIELDS && EightDigits(Reprinted(f, name, data))
    ensures Solid(PrintedEntry(name, f, data))
  {
    var e := PrintedEntry(name, f, data);
    forall more ensures ParseEntry(e.raw + more) == Some(e) && |e.raw| == EntrySize(e.fields) {
      PrintedReads(name, f, data, more);
    }
    assert ParseEntry(e.raw + []) == Some(e);
  }

  lemma PrintedReads(name: Bytes, f: seq<nat>, data: Bytes, more: Bytes)
    requires |f| == FIELDS && EightDigits(Reprinted(f, name, data))
    ensures var e := PrintedEntry(name, f, data); ParseEntry(e.raw + more) == Some(e) && |e.raw| == EntrySize(e.fields)
  {
    hide HeaderText, HeaderOk, FieldValues, EntrySize, DataStart, Reprinted, Cut, Align, Zeros, Pad, Take, NewcEntry,
         EightDigits;
    var e := PrintedEntry(name, f, data);
    var g := e.fields;
    HeaderTextFields(g);
    var text := MAGIC + HeaderText(g);
    var z1, z2 := Zeros(Pad(|text| + |name| + 1)), Zeros(Pad(|data|));
    var rest := e.raw + more;
    PrintedParts(name, f, data, text, z1, z2);
    assert rest == text + (name + [0] + z1 + data + z2 + more);
    HeaderReads(g, name + [0] + z1 + data + z2 + more);
    CutInside(text, name, data, z1, z2 + more);
    assert rest == text + name + [0] + z1 + data + (z2 + more);
    TakeFront(e.raw, more);
  }

  lemma PrintedParts(name: Bytes, f: seq<nat>, data: Bytes, text: Bytes, z1: Bytes, z2: Bytes)
    requires |f| == FIELDS
    requires var g := Reprinted(f, name, data); text == MAGIC + HeaderText(g) && |text| == HEADER
    requires z1 == Zeros(Pad(|text| + |name| + 1)) && z2 == Zeros(Pad(|data|))
    ensures var e := PrintedEntry(name, f, data);
      && e.raw == text + name + [0] + z1 + data + z2
      && |text + name + [0] + z1| == DataStart(e.fields) && |e.raw| == EntrySize(e.fields)
  {
    hide HeaderText, Align, Pad, Zeros;
    var g := Reprinted(f, name, data);
    var head := text + name + [0];
    assert |head| == HEADER + g[NAMESIZE];
    assert |head + z1| == DataStart(g);
    AlignFrom(DataStart(g), |data|);
    assert NewcEntry(name, f, data) == head + z1 + data + z2;
  }

  /** Name and data are cut out of the whole where they stand. */
  lemma CutInside(text: Bytes, name: Bytes, data: Bytes, z1: Bytes, back: Bytes)
    ensures var rest := text + name + [0] + z1 + data + back;
      && Cut(rest, |text|, |text| + |name|) == name
      && Cut(rest, |text + name + [0] + z1|, |text + name + [0] + z1| + |data|) == data
  {
    hide Cut;
    var rest := text + name + [0] + z1 + data + back;
    assert rest == text + name + ([0] + z1 + data + back);
    CutMiddle(text, name, [0] + z1 + data + back, rest);
    CutMiddle(text + name + [0] + z1, data, back, rest);
  }

  lemma TakeFront(front: Bytes, more: Bytes)
    ensures Take(front + more, |front|) == front
  {
  }

  lemma CutMiddle(front: Bytes, mid: Bytes, back: Bytes, all: Bytes)
    requires all == front + mid + back
    ensures Cut(all, |front|, |front| + |mid|) == mid
  {
  }

  // ---- the edit ----

  const WATCHDOG_MODE: nat := 33261

  function Raws(es: seq<Entry>): Bytes {
    if es == [] then [] else es[0].raw + Raws(es[1..])
  }

  lemma Assoc(a: Bytes, b: Bytes, c: Bytes)
    ensures a + (b + c) == a + b + c
  {
  }

  lemma {:induction false} RawsAppend(es: seq<Entry>, fs: seq<Entry>)
    ensures Raws(es + fs) == Raws(es) + Raws(fs)
  {
    if es == [] {
      assert es + fs == fs;
    } else {
      hide Raws;
      RawsAppend(es[1..], fs);
      assert es + fs == [es[0]] + (es[1..] + fs) && es == [es[0]] + es[1..];
      RawsCons(es[0], es[1..] + fs);
      RawsCons(es[0], es[1..]);
      Assoc(es[0].raw, Raws(es[1..]), Raws(fs));
    }
  }

  ghost predicate Fielded(es: seq<Entry>) { forall k :: 0 <= k < |es| ==> |es[k].fields| == FIELDS }

  /** What one entry becomes. */
  function EditedOne(e: Entry, nf: seq<nat>, rc: Bytes, wd: Bytes): (es: seq<Entry>)
    requires |e.fields| == FIELDS == |nf|
  {
    if e.name == INIT_RC then [PrintedEntry(e.name, e.fields, rc)]
    else if e.name == TRAILER then [PrintedEntry(WATCHDOG, nf, wd), e]
    else [e]
  }

  function Edited(es: seq<Entry>, nf: seq<nat>, rc: Bytes, wd: Bytes): (out: seq<Entry>)
    requires |nf| == FIELDS && Fielded(es)
  {
    if es == [] then [] else EditedOne(es[0], nf, rc, wd) + Edited(es[1..], nf, rc, wd)
  }

  lemma {:induction false} EditedAppend(es: seq<Entry>, fs: seq<Entry>, nf: seq<nat>, rc: Bytes, wd: Bytes)
    requires |nf| == FIELDS && Fielded(es) && Fielded(fs)
    ensures Fielded(es + fs) && Edited(es + fs, nf, rc, wd) == Edited(es, nf, rc, wd) + Edited(fs, nf, rc, wd)
  {
    hide EditedOne;
    if es == [] {
      assert es + fs == fs;
    } else {
      EditedAppend(es[1..], fs, nf, rc, wd);
      assert (es + fs)[1..] == es[1..] + fs;
    }
  }

  /** With the entries named apart, the edit replaces one, adds one directly
      before the trailer, and passes every other on byte by byte. */
  lemma EditedExactly(es: seq<Entry>, i: nat, nf: seq<nat>, rc: Bytes, wd: Bytes)
    requires |nf| == FIELDS && Fielded(es) && i < |es| - 1
    requires es[i].name == INIT_RC && es[|es| - 1].name == TRAILER
    requires forall j, k :: 0 <= j < k < |es| ==> es[j].name != es[k].name
    ensures Edited(es, nf, rc, wd) ==
      es[..i] + [PrintedEntry(INIT_RC, es[i].fields, rc)] + es[i + 1..|es| - 1]
      + [PrintedEntry(WATCHDOG, nf, wd), es[|es| - 1]]
  {
    hide EditedOne, Edited;
    NamesDiffer();
    var a, b, c, d := es[..i], [es[i]], es[i + 1..|es| - 1], [es[|es| - 1]];
    assert es == a + (b + (c + d));
    PassedOn(a, nf, rc, wd);
    PassedOn(c, nf, rc, wd);
    EditedAppend(c, d, nf, rc, wd);
    EditedAppend(b, c + d, nf, rc, wd);
    EditedAppend(a, b + (c + d), nf, rc, wd);
    EditedSingle(es[|es| - 1], nf, rc, wd);
    EditedRc(es[i], nf, rc, wd);
  }

  lemma EditedRc(e: Entry, nf: seq<nat>, rc: Bytes, wd: Bytes)
    requires |e.fields| == FIELDS == |nf| && e.name == INIT_RC
    ensures Edited([e], nf, rc, wd) == [PrintedEntry(INIT_RC, e.fields, rc)]
  {
    assert [e][1..] == [];
  }

  lemma {:induction false} PassedOn(es: seq<Entry>, nf: seq<nat>, rc: Bytes, wd: Bytes)
    requires |nf| == FIELDS && Fielded(es)
    requires forall k :: 0 <= k < |es| ==> es[k].name != INIT_RC && es[k].name != TRAILER
    ensures Edited(es, nf, rc, wd) == es
  {
    if es != [] {
      PassedOn(es[1..], nf, rc, wd);
      assert [es[0]] + es[1..] == es;
    }
  }

  /** Every printed number fits its eight digits. */
  ghost predicate Fits(nf: seq<nat>, rc: Bytes, wd: Bytes)
    requires |nf| == FIELDS
  {
    |rc| < LIMIT && |wd| < LIMIT && forall i :: 0 <= i < FIELDS && i != FILESIZE && i != NAMESIZE ==> nf[i] < LIMIT
  }

  /** What the parser yields: 13 fields each, all below 2^32. */
  ghost predicate Read(es: seq<Entry>) {
    forall k :: 0 <= k < |es| ==> |es[k].fields| == FIELDS && EightDigits(es[k].fields)
  }

  lemma FieldsFit(rest: Bytes)
    requires HeaderOk(rest)
    ensures EightDigits(FieldValues(rest))
  {
    LimitIsEightDigits();
    forall i | 0 <= i < FIELDS ensures FieldValues(rest)[i] < LIMIT {
      HexBound(Field(rest, i), 8);
    }
  }

  lemma {:induction false} ParsedRead(rest: Bytes)
    requires Parsed(rest).Some?
    ensures Read(Parsed(rest).value.entries)
    decreases |rest|
  {
    hide HeaderOk, FieldValues, EightDigits, EntrySize, TRAILER, ParseEntry, Cut, Take, Read;
    NothingRead();
    if rest != [] {
      EntryRead(rest);
      var e := ParseEntry(rest).value;
      ReadCons(e, []);
      if e.name != TRAILER {
        var after := Drop(rest, EntrySize(e.fields));
        ParsedRead(after);
        ReadCons(e, Parsed(after).value.entries);
      }
    }
  }

  lemma NothingRead()
    ensures Read([])
  {
  }

  lemma ReadCons(e: Entry, es: seq<Entry>)
    requires |e.fields| == FIELDS && EightDigits(e.fields) && Read(es)
    ensures Read([e] + es) && [e] + [] == [e]
  {
    hide EightDigits;
    assert forall k :: 1 <= k < |[e] + es| ==> ([e] + es)[k] == es[k - 1];
  }

  lemma EntryRead(rest: Bytes)
    requires ParseEntry(rest).Some?
    ensures var f := ParseEntry(rest).value.fields; |f| == FIELDS && EightDigits(f)
  {
    hide EightDigits, FieldValues;
    FieldsFit(rest);
  }

  lemma ParsedSolid(e: Entry, more: Bytes)
    requires Solid(e) && e.name != TRAILER
    ensures Parsed(e.raw + more) == Prepend([e], Parsed(more))
  {
    assert ParseEntry(e.raw + more) == Some(e);
    assert Drop(e.raw + more, EntrySize(e.fields)) == more;
  }

  lemma RcSolid(e: Entry, nf: seq<nat>, rc: Bytes, wd: Bytes)
    requires |e.fields| == FIELDS == |nf| && EightDigits(e.fields) && Fits(nf, rc, wd) && e.name == INIT_RC
    ensures Solid(PrintedEntry(e.name, e.fields, rc))
  {
    NamesDiffer();
    PrintedIsSolid(e.name, e.fields, rc);
  }

  lemma WatchdogSolid(nf: seq<nat>, rc: Bytes, wd: Bytes)
    requires |nf| == FIELDS && Fits(nf, rc, wd)
    ensures Solid(PrintedEntry(WATCHDOG, nf, wd)) && WATCHDOG != TRAILER
  {
    NamesDiffer();
    PrintedIsSolid(WATCHDOG, nf, wd);
  }

  /** The edited archive reads back as the edited entries, with the old tail. */
  ghost predicate ReadsBack(a: Archive, nf: seq<nat>, rc: Bytes, wd: Bytes)
    requires |nf| == FIELDS && Read(a.entries)
  {
    var out := Edited(a.entries, nf, rc, wd);
    Parsed(Raws(out) + a.tail) == Some(Archive(out, a.tail))
  }

  lemma {:induction false} EditReads(rest: Bytes, nf: seq<nat>, rc: Bytes, wd: Bytes)
    requires |nf| == FIELDS && Fits(nf, rc, wd) && Parsed(rest).Some?
    ensures Read(Parsed(rest).value.entries) && ReadsBack(Parsed(rest).value, nf, rc, wd)
    decreases |rest|
  {
    hide Solid, ParseEntry, HeaderOk, FieldValues, Fits, EntrySize, NewcEntry, ReadsBack;
    ParsedRead(rest);
    if rest == [] {
      NothingReadsBack(nf, rc, wd);
      return;
    }
    var e := ParseEntry(rest).value;
    TakeDrop(rest, e);
    var after := Drop(rest, EntrySize(e.fields));
    if e.name == TRAILER {
      TrailerReadsBack(rest, e, nf, rc, wd);
    } else {
      EditReads(after, nf, rc, wd);
      OneReadsBack(rest, e, nf, rc, wd);
    }
  }

  lemma NothingReadsBack(nf: seq<nat>, rc: Bytes, wd: Bytes)
    requires |nf| == FIELDS
    ensures ReadsBack(Archive([], []), nf, rc, wd)
  {
    assert Raws([]) + [] == [];
  }

  lemma TrailerReadsBack(rest: Bytes, e: Entry, nf: seq<nat>, rc: Bytes, wd: Bytes)
    requires |nf| == FIELDS && Fits(nf, rc, wd) && rest != [] && ParseEntry(rest) == Some(e) && e.name == TRAILER
    requires Read([e])
    ensures |e.fields| == FIELDS && ReadsBack(Archive([e], Drop(rest, EntrySize(e.fields))), nf, rc, wd)
  {
    hide ParseEntry, HeaderOk, FieldValues, EntrySize, NewcEntry, Solid, Fits;
    TakeDrop(rest, e);
    NamesDiffer();
    var w, after := PrintedEntry(WATCHDOG, nf, wd), Drop(rest, EntrySize(e.fields));
    WatchdogSolid(nf, rc, wd);
    EditedSingle(e, nf, rc, wd);
    RawsPair(w, e);
    ParsedSolid(w, rest);
    assert w.raw + e.raw + after == w.raw + (e.raw + after);
    assert Parsed(rest) == Some(Archive([e], after));
    assert [w] + [e] == [w, e];
  }

  lemma RawsPair(w: Entry, e: Entry)
    ensures Raws([w, e]) == w.raw + e.raw
  {
    assert [w, e] == [w] + [e] && [e] == [e] + [];
    RawsCons(w, [e]);
    RawsCons(e, []);
    assert e.raw + Raws([]) == e.raw;
  }

  lemma RawsCons(e: Entry, es: seq<Entry>)
    ensures Raws([e] + es) == e.raw + Raws(es)
  {
    assert ([e] + es)[1..] == es;
  }

  lemma OneReadsBack(rest: Bytes, e: Entry, nf: seq<nat>, rc: Bytes, wd: Bytes)
    requires |nf| == FIELDS && Fits(nf, rc, wd) && rest != [] && ParseEntry(rest) == Some(e) && e.name != TRAILER
    requires |e.fields| == FIELDS
    requires var p := Parsed(Drop(rest, EntrySize(e.fields)));
      p.Some? && Read(p.value.entries) && Read([e] + p.value.entries) && ReadsBack(p.value, nf, rc, wd)
    ensures ReadsBack(Archive([e] + Parsed(Drop(rest, EntrySize(e.fields))).value.entries,
                              Parsed(Drop(rest, EntrySize(e.fields))).value.tail), nf, rc, wd)
  {
    hide ParseEntry, HeaderOk, FieldValues, EntrySize, NewcEntry, Solid, Fits, EightDigits, Parsed, Raws, Edited;
    var after := Drop(rest, EntrySize(e.fields));
    var a := Parsed(after).value;
    var later := Edited(a.entries, nf, rc, wd);
    EditedCons(e, a.entries, nf, rc, wd);
    assert EightDigits(([e] + a.entries)[0].fields);
    if e.name == INIT_RC {
      RcSolid(e, nf, rc, wd);
      SolidReadsBack(PrintedEntry(e.name, e.fields, rc), later, a.tail);
    } else if after != [] {
      SolidBefore(rest);
      SolidReadsBack(e, later, a.tail);
    } else {
      LastReadsBack(rest, e, nf, rc, wd);
    }
  }

  lemma SolidReadsBack(x: Entry, later: seq<Entry>, tail: Bytes)
    requires Solid(x) && x.name != TRAILER
    requires Parsed(Raws(later) + tail) == Some(Archive(later, tail))
    ensures Parsed(Raws([x] + later) + tail) == Some(Archive([x] + later, tail))
  {
    hide Solid, Parsed, Raws;
    ParsedSolid(x, Raws(later) + tail);
    RawsCons(x, later);
    assert x.raw + (Raws(later) + tail) == x.raw + Raws(later) + tail;
  }

  /** An entry that reaches, or is cut off by, the end of the archive. */
  lemma LastReadsBack(rest: Bytes, e: Entry, nf: seq<nat>, rc: Bytes, wd: Bytes)
    requires |nf| == FIELDS && rest != [] && ParseEntry(rest) == Some(e) && e.name != TRAILER && e.name != INIT_RC
    requires |e.fields| == FIELDS && Drop(rest, EntrySize(e.fields)) == [] && Read([e])
    ensures Parsed([]) == Some(Archive([], [])) && ReadsBack(Archive([e] + [], []), nf, rc, wd)
  {
    hide ParseEntry, EntrySize;
    TakeDrop(rest, e);
    EditedCons(e, [], nf, rc, wd);
    RawsCons(e, []);
    assert e.raw + Raws([]) + [] == rest;
    assert [e] + [] == [e];
  }

  lemma EditedCons(e: Entry, es: seq<Entry>, nf: seq<nat>, rc: Bytes, wd: Bytes)
    requires |nf| == FIELDS && Fielded(es) && |e.fields| == FIELDS && e.name != TRAILER
    ensures Fielded([e] + es)
    ensures Edited([e] + es, nf, rc, wd) ==
      [if e.name == INIT_RC then PrintedEntry(e.name, e.fields, rc) else e] + Edited(es, nf, rc, wd)
  {
    assert ([e] + es)[1..] == es;
  }

  ghost predicate NamesApart() { TRAILER != INIT_RC && TRAILER != WATCHDOG }

  lemma EditedSingle(e: Entry, nf: seq<nat>, rc: Bytes, wd: Bytes)
    requires |e.fields| == FIELDS == |nf| && e.name == TRAILER && NamesApart()
    ensures Edited([e], nf, rc, wd) == [PrintedEntry(WATCHDOG, nf, wd), e]
  {
    assert [e][1..] == [];
  }

  lemma TakeDrop(rest: Bytes, e: Entry)
    requires ParseEntry(rest) == Some(e)
    ensures |e.fields| == FIELDS && e.raw + Drop(rest, EntrySize(e.fields)) == rest
  {
  }

  lemma SolidBefore(rest: Bytes)
    requires ParseEntry(rest).Some?
    requires var e := ParseEntry(rest).value; |e.fields| == FIELDS && Drop(rest, EntrySize(e.fields)) != []
    ensures Solid(ParseEntry(rest).value)
  {
    WholeIsSolid(rest);
  }

  // ---- exactly when ----

  lemma {:induction false} EditedKeeps(es: seq<Entry>, nf: seq<nat>, rc: Bytes, wd: Bytes, k: nat)
    requires |nf| == FIELDS && Fielded(es) && k < |es|
    ensures forall e :: e in EditedOne(es[k], nf, rc, wd) ==> e in Edited(es, nf, rc, wd)
  {
    if k > 0 { EditedKeeps(es[1..], nf, rc, wd, k - 1); }
  }

  /** The edited archive reads back as meant if and only if every number the
      printer writes is below 2^32. */
  lemma EditReadsIff(archive: Bytes, nf: seq<nat>, rc: Bytes, wd: Bytes)
    requires |nf| == FIELDS && Parsed(archive).Some?
    requires exists e :: e in Parsed(archive).value.entries && e.name == INIT_RC
    requires exists e :: e in Parsed(archive).value.entries && e.name == TRAILER
    ensures Read(Parsed(archive).value.entries)
    ensures ReadsBack(Parsed(archive).value, nf, rc, wd) <==> Fits(nf, rc, wd)
  {
    ParsedRead(archive);
    if Fits(nf, rc, wd) { EditReads(archive, nf, rc, wd); }
    if ReadsBack(Parsed(archive).value, nf, rc, wd) { ReadsThenFits(Parsed(archive).value, nf, rc, wd); }
  }

  lemma ReadsThenFits(a: Archive, nf: seq<nat>, rc: Bytes, wd: Bytes)
    requires |nf| == FIELDS && Read(a.entries) && ReadsBack(a, nf, rc, wd)
    requires exists e :: e in a.entries && e.name == INIT_RC
    requires exists e :: e in a.entries && e.name == TRAILER
    ensures Fits(nf, rc, wd)
  {
    NamesDiffer();
    var out := Edited(a.entries, nf, rc, wd);
    ParsedRead(Raws(out) + a.tail);
    var i :| 0 <= i < |a.entries| && a.entries[i].name == INIT_RC;
    var t :| 0 <= t < |a.entries| && a.entries[t].name == TRAILER;
    EditedKeeps(a.entries, nf, rc, wd, i);
    EditedKeeps(a.entries, nf, rc, wd, t);
    var r, w := PrintedEntry(INIT_RC, a.entries[i].fields, rc), PrintedEntry(WATCHDOG, nf, wd);
    assert r in EditedOne(a.entries[i], nf, rc, wd) && w in EditedOne(a.entries[t], nf, rc, wd);
    assert EightDigits(r.fields) && EightDigits(w.fields);
    assert r.fields[FILESIZE] == |rc| && w.fields[FILESIZE] == |wd|;
  }

  // ---- when a number does not fit ----

  ghost predicate IsUpperHex(b: byte) { 48 <= b <= 57 || 65 <= b <= 70 }

  /** What an entry behind an overlong header is taken to be called. */
  ghost predicate Misread(name: Bytes) { name == [] || IsUpperHex(name[0]) }

  /** The printer only writes upper-case digits, and more than eight of them
      exactly for numbers from 2^32 on. */
  lemma {:induction false} HexDigits(x: nat, w: nat)
    ensures forall i :: 0 <= i < |Hex(x, w)| ==> IsUpperHex(Hex(x, w)[i])
    decreases x + w
  {
    if w > 0 || x > 0 { HexDigits(x / 16, if w == 0 then 0 else w - 1); }
  }

  lemma {:induction false} HeaderTextLong(f: seq<nat>)
    ensures |HeaderText(f)| >= 8 * |f| && (!EightDigits(f) ==> |HeaderText(f)| > 8 * |f|)
    ensures forall i :: 0 <= i < |HeaderText(f)| ==> IsUpperHex(HeaderText(f)[i])
  {
    if f != [] {
      var front, x := f[..|f| - 1], f[|f| - 1];
      HeaderTextLong(front);
      HexRoundTrip(x, 8);
      HexDigits(x, 8);
      LimitIsEightDigits();
      hide Hex;
      assert EightDigits(front) && x < LIMIT ==> EightDigits(f);
    }
  }

  /** An entry printed with an overlong header, if it parses at all, is read
      under a name that is empty or starts with a digit of the header. */
  lemma OverlongMisread(name: Bytes, f: seq<nat>, data: Bytes, more: Bytes)
    requires |f| == FIELDS && !EightDigits(Reprinted(f, name, data))
    ensures ParseEntry(NewcEntry(name, f, data) + more).Some? ==>
      Misread(ParseEntry(NewcEntry(name, f, data) + more).value.name)
    ensures NewcEntry(name, f, data) != []
  {
    var g := Reprinted(f, name, data);
    HeaderTextLong(g);
    var rest, h := NewcEntry(name, f, data) + more, HeaderText(g);
    assert rest[..6 + |h|] == MAGIC + h;
    assert rest[HEADER] == h[HEADER - 6];
  }

  /** Something among the printed entries is 2^32 or more. */
  ghost predicate Overflows(es: seq<Entry>, nf: seq<nat>, rc: Bytes, wd: Bytes)
    requires |nf| == FIELDS
  {
    exists k :: 0 <= k < |es| && OverflowsAt(es[k], nf, rc, wd)
  }

  ghost predicate OverflowsAt(e: Entry, nf: seq<nat>, rc: Bytes, wd: Bytes)
    requires |nf| == FIELDS
  {
    (e.name == INIT_RC && |rc| >= LIMIT) || (e.name == TRAILER && !EightDigits(Reprinted(nf, WATCHDOG, wd)))
  }

  ghost predicate HasMisread(es: seq<Entry>) { exists k :: 0 <= k < |es| && Misread(es[k].name) }

  lemma HasMisreadLater(es: seq<Entry>, e: Entry)
    requires HasMisread(es)
    ensures HasMisread([e] + es)
  {
    var k :| 0 <= k < |es| && Misread(es[k].name);
    assert ([e] + es)[k + 1] == es[k];
  }

  /** Such an archive, parsed again, fails or has a misread entry. */
  ghost predicate Garbled(p: Option<Archive>) { p.None? || HasMisread(p.value.entries) }

  lemma OverlongGarbles(name: Bytes, f: seq<nat>, data: Bytes, more: Bytes)
    requires |f| == FIELDS && !EightDigits(Reprinted(f, name, data))
    ensures Garbled(Parsed(NewcEntry(name, f, data) + more))
  {
    hide NewcEntry, ParseEntry;
    OverlongMisread(name, f, data, more);
    var rest := NewcEntry(name, f, data) + more;
    if Parsed(rest).Some? { assert Misread(Parsed(rest).value.entries[0].name); }
  }

  lemma SolidGarbles(x: Entry, later: seq<Entry>, tail: Bytes)
    requires Solid(x) && x.name != TRAILER && Garbled(Parsed(Raws(later) + tail))
    ensures Garbled(Parsed(Raws([x] + later) + tail))
  {
    hide Solid, Parsed, Raws, HasMisread;
    ParsedSolid(x, Raws(later) + tail);
    RawsCons(x, later);
    assert x.raw + (Raws(later) + tail) == x.raw + Raws(later) + tail;
    var p := Parsed(Raws(later) + tail);
    if p.Some? { HasMisreadLater(p.value.entries, x); }
  }

  lemma {:induction false} OverflowGarbles(rest: Bytes, nf: seq<nat>, rc: Bytes, wd: Bytes)
    requires |nf| == FIELDS && Parsed(rest).Some? && Overflows(Parsed(rest).value.entries, nf, rc, wd)
    ensures Read(Parsed(rest).value.entries)
    ensures var a := Parsed(rest).value; Garbled(Parsed(Raws(Edited(a.entries, nf, rc, wd)) + a.tail))
    decreases |rest|
  {
    hide Solid, ParseEntry, HeaderOk, FieldValues, EntrySize, NewcEntry, Garbled, EightDigits, Reprinted, OverflowsAt;
    ParsedRead(rest);
    assert rest != [];
    var e := ParseEntry(rest).value;
    TakeDrop(rest, e);
    var after := Drop(rest, EntrySize(e.fields));
    if e.name == TRAILER {
      TrailerGarbles(rest, e, nf, rc, wd);
    } else {
      var es := Parsed(after).value.entries;
      assert Parsed(rest).value.entries == [e] + es;
      ParsedRead(after);
      OverflowsCons(e, es, nf, rc, wd);
      if Overflows(es, nf, rc, wd) { OverflowGarbles(after, nf, rc, wd); }
      OneGarbles(rest, e, nf, rc, wd);
    }
  }

  lemma OverflowsAlone(e: Entry, nf: seq<nat>, rc: Bytes, wd: Bytes)
    requires |nf| == FIELDS && Overflows([e], nf, rc, wd)
    ensures OverflowsAt(e, nf, rc, wd)
  {
    hide OverflowsAt;
  }

  lemma OverflowsCons(e: Entry, es: seq<Entry>, nf: seq<nat>, rc: Bytes, wd: Bytes)
    requires |nf| == FIELDS && Overflows([e] + es, nf, rc, wd)
    ensures OverflowsAt(e, nf, rc, wd) || Overflows(es, nf, rc, wd)
  {
    hide OverflowsAt;
    var k :| 0 <= k < |[e] + es| && OverflowsAt(([e] + es)[k], nf, rc, wd);
    if k > 0 { assert es[k - 1] == ([e] + es)[k]; }
  }

  lemma TrailerGarbles(rest: Bytes, e: Entry, nf: seq<nat>, rc: Bytes, wd: Bytes)
    requires |nf| == FIELDS && rest != [] && ParseEntry(rest) == Some(e) && e.name == TRAILER && Read([e])
    requires Overflows([e], nf, rc, wd)
    ensures |e.fields| == FIELDS
    ensures Garbled(Parsed(Raws(Edited([e], nf, rc, wd)) + Drop(rest, EntrySize(e.fields))))
  {
    hide ParseEntry, HeaderOk, FieldValues, EntrySize, NewcEntry, Garbled, Overflows, Parsed, Raws, Edited, EightDigits,
         Reprinted, TRAILER, INIT_RC, WATCHDOG, Take, Drop;
    NamesDiffer();
    OverflowsAlone(e, nf, rc, wd);
    TakeDrop(rest, e);
    var after := Drop(rest, EntrySize(e.fields));
    EditedSingle(e, nf, rc, wd);
    RawsPair(PrintedEntry(WATCHDOG, nf, wd), e);
    OverlongGarbles(WATCHDOG, nf, wd, e.raw + after);
    assert NewcEntry(WATCHDOG, nf, wd) + (e.raw + after) == NewcEntry(WATCHDOG, nf, wd) + e.raw + after;
  }

  lemma OneGarbles(rest: Bytes, e: Entry, nf: seq<nat>, rc: Bytes, wd: Bytes)
    requires |nf| == FIELDS && rest != [] && ParseEntry(rest) == Some(e) && e.name != TRAILER && |e.fields| == FIELDS
    requires Parsed(Drop(rest, EntrySize(e.fields))).Some?
    requires var a := Parsed(Drop(rest, EntrySize(e.fields))).value; Read(a.entries) && Read([e] + a.entries)
    requires var a := Parsed(Drop(rest, EntrySize(e.fields))).value;
      OverflowsAt(e, nf, rc, wd)
        || (Overflows(a.entries, nf, rc, wd) && Garbled(Parsed(Raws(Edited(a.entries, nf, rc, wd)) + a.tail)))
    ensures var a := Parsed(Drop(rest, EntrySize(e.fields))).value;
      Garbled(Parsed(Raws(Edited([e] + a.entries, nf, rc, wd)) + a.tail))
  {
    hide ParseEntry, HeaderOk, FieldValues, EntrySize, NewcEntry, Solid, EightDigits, Raws, Edited, Garbled, Parsed,
         Overflows;
    var after := Drop(rest, EntrySize(e.fields));
    var a := Parsed(after).value;
    var later := Edited(a.entries, nf, rc, wd);
    EditedCons(e, a.entries, nf, rc, wd);
    assert EightDigits(([e] + a.entries)[0].fields);
    if OverflowsAt(e, nf, rc, wd) {
      OverlongFirst(e, rc, later, a.tail);
    } else if e.name == INIT_RC {
      RcFits(e, rc);
      SolidGarbles(PrintedEntry(e.name, e.fields, rc), later, a.tail);
    } else {
      SomethingAfter(after, nf, rc, wd);
      SolidBefore(rest);
      SolidGarbles(e, later, a.tail);
    }
  }

  lemma OverlongFirst(e: Entry, rc: Bytes, later: seq<Entry>, tail: Bytes)
    requires |e.fields| == FIELDS && |rc| >= LIMIT
    ensures Garbled(Parsed(Raws([PrintedEntry(e.name, e.fields, rc)] + later) + tail))
  {
    hide NewcEntry, Garbled, Parsed, Raws, EightDigits;
    RcOverlong(e, rc);
    RawsCons(PrintedEntry(e.name, e.fields, rc), later);
    OverlongGarbles(e.name, e.fields, rc, Raws(later) + tail);
    assert NewcEntry(e.name, e.fields, rc) + (Raws(later) + tail)
        == NewcEntry(e.name, e.fields, rc) + Raws(later) + tail;
  }

  lemma SomethingAfter(after: Bytes, nf: seq<nat>, rc: Bytes, wd: Bytes)
    requires |nf| == FIELDS && Parsed(after).Some? && Overflows(Parsed(after).value.entries, nf, rc, wd)
    ensures after != []
  {
  }

  lemma RcOverlong(e: Entry, rc: Bytes)
    requires |e.fields| == FIELDS && |rc| >= LIMIT
    ensures !EightDigits(Reprinted(e.fields, e.name, rc))
  {
    assert Reprinted(e.fields, e.name, rc)[FILESIZE] == |rc|;
  }

  lemma RcFits(e: Entry, rc: Bytes)
    requires |e.fields| == FIELDS && EightDigits(e.fields) && e.name == INIT_RC && |rc| < LIMIT
    ensures Solid(PrintedEntry(e.name, e.fields, rc))
  {
    NamesDiffer();
    PrintedIsSolid(e.name, e.fields, rc);
  }

  // ---- the tool ----

  function NewFields(shell: seq<nat>, inode: nat): (f: seq<nat>)
    requires |shell| == FIELDS
    ensures |f| == FIELDS
  {
    shell[INODE := inode][MODE := WATCHDOG_MODE][2 := 0][3 := 0][4 := 1]
  }

  ghost predicate IsFirst(es: seq<Entry>, name: Bytes, k: nat) {
    k < |es| && es[k].name == name && forall j :: 0 <= j < k ==> es[j].name != name
  }

  /** `e` has this name, and no entry before it has. */
  ghost predicate FirstIs(es: seq<Entry>, name: Bytes, e: Entry) {
    exists k: nat :: IsFirst(es, name, k) && es[k] == e
  }

  lemma FirstLater(es: seq<Entry>, name: Bytes)
    requires es != [] && es[0].name != name
    ensures forall e :: FirstIs(es[1..], name, e) ==> FirstIs(es, name, e)
  {
    forall e | FirstIs(es[1..], name, e) ensures FirstIs(es, name, e) {
      var k: nat :| IsFirst(es[1..], name, k) && es[1..][k] == e;
      forall j | 0 <= j < k + 1 ensures es[j].name != name {
        assert j > 0 ==> es[j] == es[1..][j - 1];
      }
      assert IsFirst(es, name, k + 1);
    }
  }

  /** The first entry of a name (`names.index`). */
  function FirstNamed(es: seq<Entry>, name: Bytes): (e: Option<Entry>)
    ensures e.Some? ==> e.value in es && e.value.name == name && FirstIs(es, name, e.value)
    ensures e.None? ==> forall k :: 0 <= k < |es| ==> es[k].name != name
  {
    if es == [] then None
    else if es[0].name == name then
      assert IsFirst(es, name, 0);
      Some(es[0])
    else
      FirstLater(es, name);
      FirstNamed(es[1..], name)
  }

  predicate HasName(es: seq<Entry>, name: Bytes) { exists k :: 0 <= k < |es| && es[k].name == name }

  ghost predicate IsTop(es: seq<Entry>, m: nat)
    requires Fielded(es)
  {
    && (exists k :: 0 <= k < |es| && es[k].fields[INODE] == m)
    && (forall k :: 0 <= k < |es| ==> es[k].fields[INODE] <= m)
  }

  method MaxInode(es: seq<Entry>) returns (m: nat)
    requires es != [] && Read(es)
    ensures IsTop(es, m)
  {
    m := es[0].fields[INODE];
    for i := 1 to |es|
      invariant exists k :: 0 <= k < i && es[k].fields[INODE] == m
      invariant forall k :: 0 <= k < i ==> es[k].fields[INODE] <= m
    {
      if es[i].fields[INODE] > m { m := es[i].fields[INODE]; }
    }
  }

  method EditEntries(es: seq<Entry>, nf: seq<nat>, rc: Bytes, wd: Bytes) returns (out: Bytes)
    requires |nf| == FIELDS && Fielded(es)
    ensures out == Raws(Edited(es, nf, rc, wd))
  {
    hide NewcEntry, Reprinted;
    out := [];
    for i := 0 to |es|
      invariant Fielded(es[..i]) && out == Raws(Edited(es[..i], nf, rc, wd))
    {
      var e := es[i];
      EditedNext(es, i, nf, rc, wd);
      if e.name == INIT_RC {
        out := out + NewcEntry(e.name, e.fields, rc);
      } else if e.name == TRAILER {
        out := out + (NewcEntry(WATCHDOG, nf, wd) + e.raw);
      } else {
        out := out + e.raw;
      }
    }
    assert es[..|es|] == es;
  }

  lemma EditedNext(es: seq<Entry>, i: nat, nf: seq<nat>, rc: Bytes, wd: Bytes)
    requires |nf| == FIELDS && Fielded(es) && i < |es|
    ensures Fielded(es[..i]) && Fielded(es[..i + 1])
    ensures var e := es[i];
      Raws(Edited(es[..i + 1], nf, rc, wd)) == Raws(Edited(es[..i], nf, rc, wd)) + (
        if e.name == INIT_RC then NewcEntry(e.name, e.fields, rc)
        else if e.name == TRAILER then NewcEntry(WATCHDOG, nf, wd) + e.raw
        else e.raw)
  {
    hide NewcEntry, Reprinted;
    var e := es[i];
    assert es[..i + 1] == es[..i] + [e];
    EditedAppend(es[..i], [e], nf, rc, wd);
    var one := EditedOne(e, nf, rc, wd);
    assert Edited([e], nf, rc, wd) == one by { assert [e][1..] == [] && one + [] == one; }
    RawsAppend(Edited(es[..i], nf, rc, wd), one);
    if |one| == 1 {
      RawsCons(one[0], []);
      assert one == [one[0]] + [];
      assert one[0].raw + Raws([]) == one[0].raw;
    } else {
      RawsPair(one[0], one[1]);
      assert one == [one[0], one[1]];
    }
  }

  /** The entries by name; a repeated name keeps the last (`{e[0]: e for e in …}`). */
  function ByName(es: seq<Entry>): (m: map<Bytes, Entry>)
    ensures forall n :: n in m <==> HasName(es, n)
  {
    if es == [] then map[]
    else
      var front, last := es[..|es| - 1], es[|es| - 1];
      ByName(front)[last.name := last]
  }

  /** The tool's own check of its result: parsed again, it has the old names and
      the new one, every entry but the replaced one is byte-identical, and the
      two edited entries hold what was meant. */
  method SelfCheck(es: seq<Entry>, out: Bytes, rc: Bytes, wd: Bytes) returns (ok: bool)
    requires HasName(es, INIT_RC)
    ensures ok <==> Parsed(out).Some? && Checked(es, Parsed(out).value.entries, rc, wd)
    ensures Parsed(out).Some? ==> (ok <==> Agrees(es, Parsed(out).value.entries, rc, wd))
  {
    var a := ParseNewc(out);
    if a.None? { return false; }
    CheckedIs(es, a.value.entries, rc, wd);
    ok := Checked(es, a.value.entries, rc, wd);
  }

  /** `e` has this name, and no entry behind it has. */
  ghost predicate LastIs(es: seq<Entry>, name: Bytes, e: Entry) {
    exists k :: 0 <= k < |es| && es[k] == e && e.name == name && forall j :: k < j < |es| ==> es[j].name != name
  }

  /** Told by the last entry of each name: no name went and only the new one
      came, all but init.rc are the same bytes, and those two hold what was put in. */
  ghost predicate Agrees(es: seq<Entry>, e2: seq<Entry>, rc: Bytes, wd: Bytes) {
    && (forall n :: HasName(e2, n) <==> HasName(es, n) || n == WATCHDOG)
    && (forall n, a, b :: LastIs(es, n, a) && LastIs(e2, n, b) && n != INIT_RC ==> a.raw == b.raw)
    && (forall w :: LastIs(e2, WATCHDOG, w) ==> w.data == wd && |w.fields| == 13 && w.fields[1] == 33261)
    && HasName(e2, INIT_RC) && (forall r :: LastIs(e2, INIT_RC, r) ==> r.data == rc)
  }

  lemma LastSnoc(front: seq<Entry>, last: Entry, n: Bytes, e: Entry)
    ensures LastIs(front + [last], n, e) <==> if last.name == n then e == last else LastIs(front, n, e)
  {
    var es := front + [last];
    assert es[|front|] == last;
    if last.name != n {
      if k :| 0 <= k < |es| && es[k] == e && e.name == n && forall j :: k < j < |es| ==> es[j].name != n {
        assert front[k] == e;
        assert forall j :: k < j < |front| ==> front[j] == es[j];
      }
      if k :| 0 <= k < |front| && front[k] == e && e.name == n && forall j :: k < j < |front| ==> front[j].name != n {
        assert es[k] == e;
      }
    }
  }

  lemma {:induction false} ByNameIsLast(es: seq<Entry>, n: Bytes)
    ensures forall e :: LastIs(es, n, e) <==> n in ByName(es) && ByName(es)[n] == e
  {
    if es != [] {
      hide LastIs;
      var front, last := es[..|es| - 1], es[|es| - 1];
      assert es == front + [last];
      ByNameIsLast(front, n);
      forall e ensures LastIs(es, n, e) <==> if last.name == n then e == last else LastIs(front, n, e) {
        LastSnoc(front, last, n, e);
      }
    }
  }

  lemma CheckedIs(es: seq<Entry>, e2: seq<Entry>, rc: Bytes, wd: Bytes)
    ensures Checked(es, e2, rc, wd) <==> Agrees(es, e2, rc, wd)
  {
    hide LastIs, HasName, TRAILER, INIT_RC, WATCHDOG;
    forall n ensures forall e :: LastIs(es, n, e) <==> n in ByName(es) && ByName(es)[n] == e { ByNameIsLast(es, n); }
    forall n ensures forall e :: LastIs(e2, n, e) <==> n in ByName(e2) && ByName(e2)[n] == e { ByNameIsLast(e2, n); }
    hide ByName;
    var m1, m2 := ByName(es), ByName(e2);
    if Agrees(es, e2, rc, wd) {
      forall n ensures n in m2.Keys <==> n in m1.Keys + {WATCHDOG} { assert HasName(e2, n) <==> n in m2; }
      forall n | n in m1.Keys && n != INIT_RC ensures m1[n].raw == m2[n].raw {
        assert LastIs(es, n, m1[n]) && LastIs(e2, n, m2[n]);
      }
      assert LastIs(e2, WATCHDOG, m2[WATCHDOG]) && LastIs(e2, INIT_RC, m2[INIT_RC]);
    }
    if Checked(es, e2, rc, wd) {
      forall n ensures HasName(e2, n) <==> HasName(es, n) || n == WATCHDOG {
        assert n in m2.Keys <==> n in m1.Keys || n == WATCHDOG;
      }
      forall n, a, b | LastIs(es, n, a) && LastIs(e2, n, b) && n != INIT_RC ensures a.raw == b.raw {
        assert a == m1[n] && b == m2[n] && n in m1.Keys;
      }
      assert HasName(e2, INIT_RC);
    }
  }

  predicate Checked(es: seq<Entry>, e2: seq<Entry>, rc: Bytes, wd: Bytes)
  {
    var m1, m2 := ByName(es), ByName(e2);
    && m2.Keys == m1.Keys + {WATCHDOG}
    && (forall n :: n in m1.Keys && n != INIT_RC ==> m1[n].raw == m2[n].raw)
    && m2[WATCHDOG].data == wd && |m2[WATCHDOG].fields| == FIELDS && m2[WATCHDOG].fields[MODE] == WATCHDOG_MODE
    && INIT_RC in m2 && m2[INIT_RC].data == rc
  }

  /** What the tool asks of the entries it edits. */
  ghost predicate Editable(es: seq<Entry>, rcOld: Bytes) {
    && FirstNamed(es, INIT_RC).Some? && FirstNamed(es, INIT_RC).value.data == rcOld
    && !HasName(es, WATCHDOG) && FirstNamed(es, SHELL).Some?
  }

  /** The new entry gets an inode above all others and the shell's other fields. */
  ghost predicate NewFieldsOf(es: seq<Entry>, nf: seq<nat>)
    requires Fielded(es) && FirstNamed(es, SHELL).Some?
  {
    var shell := FirstNamed(es, SHELL).value.fields;
    && |nf| == |shell| == 13 && (exists top: nat :: IsTop(es, top) && nf[0] == top + 1)
    && nf[1] == 8 * 8 * 8 * 8 * 8 + 7 * 64 + 5 * 8 + 5 && nf[2] == 0 && nf[3] == 0 && nf[4] == 1
    && forall i :: 5 <= i < 13 ==> nf[i] == shell[i]
  }

  lemma NewFieldsAre(es: seq<Entry>, top: nat)
    requires Fielded(es) && FirstNamed(es, SHELL).Some? && IsTop(es, top)
    ensures NewFieldsOf(es, NewFields(FirstNamed(es, SHELL).value.fields, top + 1))
  {
    hide FirstNamed;
  }

  /** The whole edit of one ramdisk archive, with the asserts around it. */
  method EditRamdisk(archive: Bytes, rcOld: Bytes, rcNew: Bytes, wd: Bytes)
      returns (r: Option<Bytes>, ghost nf: seq<nat>)
    ensures |nf| == FIELDS
    ensures Parsed(archive).Some? ==> Read(Parsed(archive).value.entries)
    ensures r.Some? ==> Parsed(archive).Some? && Editable(Parsed(archive).value.entries, rcOld)
    ensures Parsed(archive).Some? && Editable(Parsed(archive).value.entries, rcOld) ==>
      NewFieldsOf(Parsed(archive).value.entries, nf)
    ensures Parsed(archive).Some? && Editable(Parsed(archive).value.entries, rcOld) ==>
      Result(Parsed(archive).value, nf, rcNew, wd, r)
  {
    hide Parsed, Raws, Edited, Fits, Checked, NewFields, FirstNamed;
    nf := seq(FIELDS, i => 0);
    var p := ParseNewc(archive);
    if p.None? { return None, nf; }
    ParsedRead(archive);
    var es := p.value.entries;
    var old_, shell := FirstNamed(es, INIT_RC), FirstNamed(es, SHELL);
    if old_.None? || old_.value.data != rcOld { return None, nf; }
    if HasName(es, WATCHDOG) || shell.None? { return None, nf; }
    assert es != [];
    var top := MaxInode(es);
    var fields := NewFields(shell.value.fields, top + 1);
    nf := fields;
    NewFieldsAre(es, top);
    var edited := EditEntries(es, fields, rcNew, wd);
    var out := edited + p.value.tail;
    var ok := SelfCheck(es, out, rcNew, wd);
    r := if ok then Some(out) else None;
    NewFieldsMode(shell.value.fields, top + 1);
    if Fits(nf, rcNew, wd) {
      EditReads(archive, nf, rcNew, wd);
      EditChecks(es, nf, rcNew, wd);
    } else {
      MisfitRefused(archive, nf, rcNew, wd);
    }
  }

  /** What the tool's answer means. With every number below 2^32 it accepts
      exactly the archives with a trailer, and the result reads back as edited.
      With one that is not, it refuses, unless the archive has an entry of the
      kind of name such a number makes up. */
  ghost predicate Result(a: Archive, nf: seq<nat>, rc: Bytes, wd: Bytes, r: Option<Bytes>)
    requires |nf| == FIELDS && Read(a.entries)
  {
    && (Fits(nf, rc, wd) ==> (r.Some? <==> HasName(a.entries, TRAILER)))
    && (Fits(nf, rc, wd) && r.Some? ==> Parsed(r.value) == Some(Archive(Edited(a.entries, nf, rc, wd), a.tail)))
    && (!Fits(nf, rc, wd) && r.Some? ==> HasMisread(a.entries))
  }

  /** The self-check does not accept the edited archive. */
  ghost predicate Refused(a: Archive, nf: seq<nat>, rc: Bytes, wd: Bytes)
    requires |nf| == FIELDS && Read(a.entries)
  {
    var p := Parsed(Raws(Edited(a.entries, nf, rc, wd)) + a.tail);
    p.None? || !Checked(a.entries, p.value.entries, rc, wd)
  }

  /** The self-check refuses the output with an overlong header: the misread
      name is none of the archive's, nor the new one's. */
  lemma MisfitRefused(archive: Bytes, nf: seq<nat>, rc: Bytes, wd: Bytes)
    requires |nf| == FIELDS && Parsed(archive).Some? && !Fits(nf, rc, wd)
    requires HasName(Parsed(archive).value.entries, INIT_RC) && !HasName(Parsed(archive).value.entries, WATCHDOG)
    ensures Read(Parsed(archive).value.entries)
    ensures !HasMisread(Parsed(archive).value.entries) ==> Refused(Parsed(archive).value, nf, rc, wd)
  {
    hide Parsed, Raws, Edited, Fits, Checked, Misread;
    ParsedRead(archive);
    var a := Parsed(archive).value;
    var p := Parsed(Raws(Edited(a.entries, nf, rc, wd)) + a.tail);
    if Overflows(a.entries, nf, rc, wd) {
      OverflowGarbles(archive, nf, rc, wd);
      if p.Some? && !HasMisread(a.entries) { GarbledUnchecked(a.entries, p.value.entries, rc, wd); }
    } else {
      NoOverflow(a.entries, nf, rc, wd);
      if p.Some? { NoTrailerUnchecked(archive, nf, rc, wd); }
    }
  }

  lemma GarbledUnchecked(es: seq<Entry>, e2: seq<Entry>, rc: Bytes, wd: Bytes)
    requires HasMisread(e2) && !HasMisread(es)
    ensures !Checked(es, e2, rc, wd)
  {
    NamesDiffer();
    assert WATCHDOG[0] == 115;
    var k :| 0 <= k < |e2| && Misread(e2[k].name);
    hide ByName, Misread;
    var m1, m2, n := ByName(es), ByName(e2), e2[k].name;
    assert HasName(e2, n) && !HasName(es, n);
    assert n in m2.Keys && n !in m1.Keys && n != WATCHDOG by { WatchdogReadable(n); }
  }

  lemma WatchdogReadable(n: Bytes)
    requires Misread(n)
    ensures n != WATCHDOG
  {
    NamesDiffer();
    assert WATCHDOG[0] == 115;
  }

  lemma NoOverflow(es: seq<Entry>, nf: seq<nat>, rc: Bytes, wd: Bytes)
    requires |nf| == FIELDS && !Fits(nf, rc, wd) && !Overflows(es, nf, rc, wd) && HasName(es, INIT_RC)
    ensures |rc| < LIMIT && !HasName(es, TRAILER)
  {
    NamesDiffer();
    var i :| 0 <= i < |es| && es[i].name == INIT_RC;
    assert !OverflowsAt(es[i], nf, rc, wd);
    if t :| 0 <= t < |es| && es[t].name == TRAILER {
      assert !OverflowsAt(es[t], nf, rc, wd);
      FitsPrinted(nf, wd);
    }
  }

  lemma FitsPrinted(nf: seq<nat>, wd: Bytes)
    requires |nf| == FIELDS && EightDigits(Reprinted(nf, WATCHDOG, wd))
    ensures |wd| < LIMIT && forall i :: 0 <= i < FIELDS && i != FILESIZE && i != NAMESIZE ==> nf[i] < LIMIT
  {
    var g := Reprinted(nf, WATCHDOG, wd);
    assert g[FILESIZE] == |wd|;
    forall i | 0 <= i < FIELDS && i != FILESIZE && i != NAMESIZE ensures nf[i] < LIMIT { assert g[i] == nf[i]; }
  }

  /** Without a trailer the new entry is never printed, and so never found. */
  lemma NoTrailerUnchecked(archive: Bytes, nf: seq<nat>, rc: Bytes, wd: Bytes)
    requires |nf| == FIELDS && |rc| < LIMIT && Parsed(archive).Some? && Read(Parsed(archive).value.entries)
    requires !HasName(Parsed(archive).value.entries, TRAILER) && !HasName(Parsed(archive).value.entries, WATCHDOG)
    ensures var a := Parsed(archive).value; var p := Parsed(Raws(Edited(a.entries, nf, rc, wd)) + a.tail);
      p.Some? && !Checked(a.entries, p.value.entries, rc, wd)
  {
    hide Parsed, Raws, Edited, ByName, NewcEntry;
    var a, zeros := Parsed(archive).value, seq(FIELDS, i => 0);
    EditedUnused(a.entries, nf, zeros, rc, wd, []);
    assert Fits(zeros, rc, []);
    EditReads(archive, zeros, rc, []);
    EditedByName(a.entries, zeros, rc, []);
    assert WATCHDOG !in ByName(a.entries);
  }

  lemma {:induction false} EditedUnused(es: seq<Entry>, nf: seq<nat>, nf': seq<nat>, rc: Bytes, wd: Bytes, wd': Bytes)
    requires |nf| == |nf'| == FIELDS && Fielded(es) && !HasName(es, TRAILER)
    ensures Edited(es, nf, rc, wd) == Edited(es, nf', rc, wd')
  {
    if es != [] {
      assert es[0].name != TRAILER;
      EditedUnused(es[1..], nf, nf', rc, wd, wd');
    }
  }

  lemma NewFieldsMode(shell: seq<nat>, inode: nat)
    requires |shell| == FIELDS
    ensures NewFields(shell, inode)[MODE] == WATCHDOG_MODE
  {
  }

  /** The self-check accepts the edited entries exactly when there was a trailer
      to put the new one before. */
  lemma EditChecks(es: seq<Entry>, nf: seq<nat>, rc: Bytes, wd: Bytes)
    requires |nf| == FIELDS && Fielded(es) && HasName(es, INIT_RC) && !HasName(es, WATCHDOG)
    requires nf[MODE] == WATCHDOG_MODE
    ensures Checked(es, Edited(es, nf, rc, wd), rc, wd) <==> HasName(es, TRAILER)
  {
    NamesDiffer();
    hide Edited, ByName, NewcEntry;
    EditedByName(es, nf, rc, wd);
  }

  /** Looked up by name, the edited entries are the old ones with the two changes. */
  ghost predicate Like(m1: map<Bytes, Entry>, m2: map<Bytes, Entry>, trailer: bool, nf: seq<nat>, rc: Bytes, wd: Bytes)
    requires |nf| == FIELDS
  {
    && m2.Keys == m1.Keys + (if trailer then {WATCHDOG} else {})
    && (forall n :: n in m1 && n != INIT_RC ==> m2[n] == m1[n])
    && (trailer ==> m2[WATCHDOG] == PrintedEntry(WATCHDOG, nf, wd))
    && (INIT_RC in m1 ==> m2[INIT_RC].data == rc)
  }

  lemma {:induction false} EditedByName(es: seq<Entry>, nf: seq<nat>, rc: Bytes, wd: Bytes)
    requires |nf| == FIELDS && Fielded(es) && !HasName(es, WATCHDOG)
    ensures Like(ByName(es), ByName(Edited(es, nf, rc, wd)), HasName(es, TRAILER), nf, rc, wd)
  {
    if es != [] {
      hide PrintedEntry, Edited, Like, ByName;
      var front, e := es[..|es| - 1], es[|es| - 1];
      assert es == front + [e];
      forall n ensures HasName(es, n) <==> HasName(front, n) || e.name == n { HasNameSnoc(front, e, n); }
      EditedByName(front, nf, rc, wd);
      EditedAppend(front, [e], nf, rc, wd);
      EditedLast(e, nf, rc, wd);
      ByNameSnoc(front, e);
      var before := Edited(front, nf, rc, wd);
      NamesDiffer();
      if e.name == TRAILER {
        var w := PrintedEntry(WATCHDOG, nf, wd);
        assert before + [w, e] == before + [w] + [e];
        ByNameSnoc(before, w);
        ByNameSnoc(before + [w], e);
        LikeTrailer(ByName(front), ByName(before), HasName(front, TRAILER), e, nf, rc, wd);
      } else {
        var x := EditedOne(e, nf, rc, wd)[0];
        ByNameSnoc(before, x);
        LikeOne(ByName(front), ByName(before), HasName(front, TRAILER), e, x, nf, rc, wd);
      }
    }
  }

  lemma HasNameSnoc(front: seq<Entry>, e: Entry, n: Bytes)
    ensures HasName(front + [e], n) <==> HasName(front, n) || e.name == n
  {
    var all := front + [e];
    if HasName(front, n) {
      var k :| 0 <= k < |front| && front[k].name == n;
      assert all[k].name == n;
    }
    if e.name == n { assert all[|front|].name == n; }
  }

  lemma ByNameSnoc(es: seq<Entry>, e: Entry)
    ensures ByName(es + [e]) == ByName(es)[e.name := e]
  {
    assert (es + [e])[..|es|] == es;
  }

  lemma EditedLast(e: Entry, nf: seq<nat>, rc: Bytes, wd: Bytes)
    requires |nf| == FIELDS == |e.fields|
    ensures Edited([e], nf, rc, wd) == EditedOne(e, nf, rc, wd)
  {
    assert [e][1..] == [];
    var one := EditedOne(e, nf, rc, wd);
    assert one + [] == one;
  }

  lemma LikeOne(m1: map<Bytes, Entry>, m2: map<Bytes, Entry>, trailer: bool, e: Entry, x: Entry, nf: seq<nat>,
                rc: Bytes, wd: Bytes)
    requires |nf| == FIELDS && Like(m1, m2, trailer, nf, rc, wd) && WATCHDOG !in m1
    requires e.name != TRAILER && e.name != WATCHDOG && x.name == e.name
    requires if e.name == INIT_RC then x.data == rc else x == e
    ensures Like(m1[e.name := e], m2[x.name := x], trailer, nf, rc, wd)
  {
    hide PrintedEntry;
  }

  lemma LikeTrailer(m1: map<Bytes, Entry>, m2: map<Bytes, Entry>, trailer: bool, e: Entry, nf: seq<nat>, rc: Bytes,
                    wd: Bytes)
    requires |nf| == FIELDS && Like(m1, m2, trailer, nf, rc, wd) && WATCHDOG !in m1
    requires e.name == TRAILER && TRAILER != INIT_RC && TRAILER != WATCHDOG && INIT_RC != WATCHDOG
    ensures var w := PrintedEntry(WATCHDOG, nf, wd);
      Like(m1[e.name := e], m2[w.name := w][e.name := e], true, nf, rc, wd)
  {
    var w := PrintedEntry(WATCHDOG, nf, wd);
    assert w.name == WATCHDOG;
    hide PrintedEntry;
  }
}
