// Where the ramdisk edit ends: an archive whose inodes are used up cannot be
// edited. The self-check says so, unless the archive has a nameless entry, by
// which it can be led past the damage.

module NewcLimits {
  import opened Options
  import opened Disk
  import opened Newc

  // ---- an archive the edit cannot take ----

  const NO_FIELDS: seq<nat> := [0, 0, 0, 0, 0, 0, 0, 0, 0, 0, 0, 0, 0]
  const LAST_INODE: nat := 0xFFFF_FFFF

  /** init.rc, a shell with the last inode there is, and the trailer. */
  function LastInode(rc: Bytes): (es: seq<Entry>)
    ensures |es| == 3
  {
    [PrintedEntry(INIT_RC, NO_FIELDS, rc), PrintedEntry(SHELL, NO_FIELDS[INODE := LAST_INODE], []),
      PrintedEntry(TRAILER, NO_FIELDS, [])]
  }

  lemma ParsedTrailer(t: Entry, tail: Bytes)
    requires Solid(t) && t.name == TRAILER && t.raw != []
    ensures Parsed(t.raw + tail) == Some(Archive([t], tail))
  {
    assert ParseEntry(t.raw + tail) == Some(t);
    assert Drop(t.raw + tail, EntrySize(t.fields)) == tail;
  }

  lemma SmallEntriesSolid(rc: Bytes)
    requires |rc| < LIMIT
    ensures forall k :: 0 <= k < 3 ==> Solid(LastInode(rc)[k]) && LastInode(rc)[k].raw != []
  {
    NamesDiffer();
    PrintedIsSolid(INIT_RC, NO_FIELDS, rc);
    PrintedIsSolid(SHELL, NO_FIELDS[INODE := LAST_INODE], []);
    PrintedIsSolid(TRAILER, NO_FIELDS, []);
  }

  lemma SolidParses(x: Entry, es: seq<Entry>, tail: Bytes)
    requires Solid(x) && x.name != TRAILER && Parsed(Raws(es) + tail) == Some(Archive(es, tail))
    ensures Parsed(Raws([x] + es) + tail) == Some(Archive([x] + es, tail))
  {
    SolidReadsBack(x, es, tail);
  }

  lemma TrailerParses(t: Entry, tail: Bytes)
    requires Solid(t) && t.name == TRAILER && t.raw != []
    ensures Parsed(Raws([t]) + tail) == Some(Archive([t], tail))
  {
    hide Parsed, Solid;
    ParsedTrailer(t, tail);
    RawsCons(t, []);
    assert [t] + [] == [t] && t.raw + Raws([]) == t.raw;
  }

  /** This archive parses and can be edited, but the new entry's inode needs a
      ninth digit: whatever is put in, the result does not read back as meant,
      and the self-check refuses it. */
  lemma LastInodeFails(rcOld: Bytes, rcNew: Bytes, wd: Bytes)
    requires |rcOld| < LIMIT
    ensures var es := LastInode(rcOld); var nf := NewFields(es[1].fields, LAST_INODE + 1);
      && Parsed(Raws(es)) == Some(Archive(es, [])) && Read(es) && Editable(es, rcOld) && HasName(es, TRAILER)
      && FirstNamed(es, SHELL) == Some(es[1]) && IsTop(es, LAST_INODE) && nf[INODE] == LIMIT
      && !Fits(nf, rcNew, wd) && !ReadsBack(Archive(es, []), nf, rcNew, wd) && Refused(Archive(es, []), nf, rcNew, wd)
  {
    var es := LastInode(rcOld);
    var nf := NewFields(es[1].fields, LAST_INODE + 1);
    LastInodeParses(rcOld);
    LastInodeNames(rcOld);
    hide Parsed, Raws, LastInode, PrintedEntry, FirstNamed, Edited, Checked, NewFields;
    assert nf[INODE] == LIMIT by { NewFieldsInode(es[1].fields, LAST_INODE + 1); }
    ParsedRead(Raws(es));
    EditReadsIff(Raws(es), nf, rcNew, wd);
    MisfitRefused(Raws(es), nf, rcNew, wd);
  }

  lemma NewFieldsInode(shell: seq<nat>, inode: nat)
    requires |shell| == FIELDS
    ensures NewFields(shell, inode)[INODE] == inode
  {
  }

  lemma LastInodeParses(rc: Bytes)
    requires |rc| < LIMIT
    ensures Parsed(Raws(LastInode(rc))) == Some(Archive(LastInode(rc), []))
  {
    hide LastInode, Parsed, Raws, Solid, NewcEntry, TRAILER, SHELL, INIT_RC;
    var es := LastInode(rc);
    NamesDiffer();
    SmallEntriesSolid(rc);
    LastInodeNamed(rc);
    TrailerParses(es[2], []);
    SolidParses(es[1], [es[2]], []);
    SolidParses(es[0], [es[1]] + [es[2]], []);
    assert es == [es[0]] + ([es[1]] + [es[2]]);
    assert Raws(es) + [] == Raws(es);
  }

  lemma LastInodeNames(rc: Bytes)
    ensures var es := LastInode(rc);
      && Fielded(es) && Editable(es, rc) && HasName(es, TRAILER) && HasName(es, INIT_RC) && !HasMisread(es)
      && FirstNamed(es, SHELL) == Some(es[1]) && IsTop(es, LAST_INODE)
  {
    NamesDiffer();
    hide NewcEntry;
    var es := LastInode(rc);
    assert INIT_RC[0] == 115 && SHELL[0] == 115 && TRAILER[0] == 84;
    assert es[0].name == INIT_RC && es[1].name == SHELL && es[2].name == TRAILER;
    assert es[1..][0] == es[1];
    assert es[1].fields[INODE] == LAST_INODE;
  }

  // ---- the self-check can be led past an overlong header ----

  lemma {:induction false} HeaderTextCons(x: nat, f: seq<nat>)
    ensures HeaderText([x] + f) == Hex(x, 8) + HeaderText(f)
  {
    hide Hex;
    if f == [] {
      assert [x] + f == [x] && [x][..0] == [];
    } else {
      var front, y := f[..|f| - 1], f[|f| - 1];
      HeaderTextCons(x, front);
      assert ([x] + f)[..|f|] == [x] + front;
    }
  }

  /** 16^w in w digits is a one and w zeroes: one digit too many. */
  lemma {:induction false} HexPower(w: nat)
    ensures |Hex(Pow16(w), w)| == w + 1 && (w > 0 ==> Hex(Pow16(w), w)[w] == 48)
  {
    if w > 0 {
      HexPower(w - 1);
      Pow16Positive(w - 1);
      assert Pow16(w) / 16 == Pow16(w - 1) && Pow16(w) % 16 == 0;
      assert Hex(Pow16(w), w) == Hex(Pow16(w - 1), w - 1) + [Digit(0)];
    } else {
      assert Hex(1, 0) == Hex(0, 0) + [Digit(1)];
    }
  }

  /** A digit in front counts for as many digits as follow it. */
  lemma {:induction false} LeadingDigit(d: byte, s: Bytes)
    requires IsDigit(d) && forall i :: 0 <= i < |s| ==> IsDigit(s[i])
    ensures HexValue([d] + s) == DigitValue(d) * Pow16(|s|) + HexValue(s)
  {
    if s == [] {
      assert [d][..0] == [];
    } else {
      var front := s[..|s| - 1];
      LeadingDigit(d, front);
      assert ([d] + s)[..|s|] == [d] + front;
      Sixteenfold(DigitValue(d), Pow16(|front|), HexValue(front));
    }
  }

  lemma Sixteenfold(v: nat, p: nat, h: nat)
    ensures (v * p + h) * 16 == v * (16 * p) + h * 16
  {
  }

  /** Behind an overlong first field every field is read one digit early: where
      the field before ends in a zero, a sixteenth of it is read. */
  lemma OverlongFields(g: seq<nat>, more: Bytes, k: nat)
    requires |g| == FIELDS && g[0] == LIMIT && EightDigits(g[1..]) && 1 <= k < FIELDS && (k == 1 || g[k - 1] % 16 == 0)
    ensures HeaderOk(MAGIC + HeaderText(g) + more) && FieldValues(MAGIC + HeaderText(g) + more)[k] == g[k] / 16
    ensures |HeaderText(g)| == 8 * FIELDS + 1
  {
    hide HeaderText, Hex, HeaderOk, Field, HexValue, EightDigits;
    OverlongText(g, k);
    HeaderTextLong(g);
    OverlongHeaderOk(HeaderText(g), more);
    FieldOf(HeaderText(g), more, k);
    SixteenthRead(g[k]);
  }

  lemma SixteenthRead(x: nat)
    ensures var s := [48] + Hex(x / 16, 7); (forall i :: 0 <= i < |s| ==> IsDigit(s[i])) && HexValue(s) == x / 16
  {
    HexRoundTrip(x / 16, 7);
    LeadingDigit(48, Hex(x / 16, 7));
  }

  lemma OverlongText(g: seq<nat>, k: nat)
    requires |g| == FIELDS && g[0] == LIMIT && EightDigits(g[1..]) && 1 <= k < FIELDS && (k == 1 || g[k - 1] % 16 == 0)
    ensures |HeaderText(g)| == 8 * FIELDS + 1 && HeaderText(g)[8 * k..8 * k + 8] == [48] + Hex(g[k] / 16, 7)
  {
    hide HeaderText, Hex, Pow16;
    LimitIsEightDigits();
    HexPower(8);
    var f := g[1..];
    assert [g[0]] + f == g;
    HeaderTextCons(LIMIT, f);
    HeaderTextFields(f);
    var first, t := Hex(LIMIT, 8), HeaderText(f);
    HexSplit(g[k]);
    assert t[8 * (k - 1)..8 * (k - 1) + 8] == Hex(f[k - 1], 8);
    if k == 1 {
      Straddle(first, t, 1, Hex(g[k], 8));
    } else {
      HexSplit(g[k - 1]);
      assert t[8 * (k - 2)..8 * (k - 2) + 8] == Hex(f[k - 2], 8);
      assert t[8 * (k - 2) + 7] == Hex(f[k - 2], 8)[7];
      Straddle(first, t, k, Hex(g[k], 8));
    }
  }

  /** The eight characters that start one before a field of `t`. */
  lemma Straddle(first: Bytes, t: Bytes, k: nat, x: Bytes)
    requires |first| == 9 && 1 <= k && 8 * k <= |t| && t[8 * (k - 1)..8 * (k - 1) + 8] == x && |x| == 8
    requires k == 1 ==> first[8] == 48
    requires k > 1 ==> t[8 * (k - 2) + 7] == 48
    ensures (first + t)[8 * k..8 * k + 8] == [48] + x[..7]
  {
    var s := (first + t)[8 * k..8 * k + 8];
    forall i | 0 <= i < 8 ensures s[i] == ([48] + x[..7])[i] {
      if i > 0 { assert s[i] == t[8 * (k - 1)..8 * (k - 1) + 8][i - 1]; }
    }
  }

  lemma HexSplit(x: nat)
    requires x < LIMIT
    ensures |Hex(x, 8)| == 8 && Hex(x, 8)[..7] == Hex(x / 16, 7) && Hex(x, 8)[7] == Digit(x % 16)
  {
    LimitIsEightDigits();
    HexRoundTrip(x, 8);
    assert Hex(x, 8) == Hex(x / 16, 7) + [Digit(x % 16)];
  }

  lemma OverlongHeaderOk(h: Bytes, more: Bytes)
    requires |h| >= 8 * FIELDS && forall i :: 0 <= i < |h| ==> IsUpperHex(h[i])
    ensures HeaderOk(MAGIC + h + more)
  {
    var rest := MAGIC + h + more;
    forall k | 0 <= k < FIELDS ensures IsHex(Field(rest, k)) { assert Field(rest, k) == h[8 * k..8 * k + 8]; }
  }

  // ---- what was printed, and what is read ----

  /** The length of a printed entry. */
  lemma PrintedLength(name: Bytes, f: seq<nat>, data: Bytes)
    requires |f| == FIELDS && EightDigits(Reprinted(f, name, data))
    ensures |NewcEntry(name, f, data)| == Align(Align(HEADER + |name| + 1) + |data|)
    ensures Solid(PrintedEntry(name, f, data))
  {
    hide NewcEntry, HeaderText;
    PrintedIsSolid(name, f, data);
  }

  /** Its data stands at the end, but for the padding. */
  lemma PrintedEnds(name: Bytes, f: seq<nat>, data: Bytes) returns (front: Bytes)
    requires |f| == FIELDS && |data| % 4 == 0
    ensures NewcEntry(name, f, data) == front + data
  {
    hide HeaderText;
    var head := MAGIC + HeaderText(Reprinted(f, name, data)) + name + [0];
    front := head + Zeros(Pad(|head|));
    assert Zeros(Pad(|data|)) == [];
    assert front + data + [] == front + data;
  }

  const PRELUDE: Bytes := Ascii("#!/system/bin/sh\n") + Ascii("log \"START v75-usb\"\n") + Ascii("###########")

  /** An entry without a name, as an archive may hold. */
  function Nameless(): (e: Entry) { PrintedEntry([], NO_FIELDS, []) }

  function TrailerEntry(): (e: Entry) { PrintedEntry(TRAILER, NO_FIELDS, []) }

  /** An entry that reaches over the rest of the script and over the trailer. */
  function Bridge(): (e: Entry) { PrintedEntry([], NO_FIELDS, Zeros(1120) + TrailerEntry().raw) }

  /** A shell script by its first lines, with the front of that entry inside. */
  function Script(): (wd: Bytes) { PRELUDE + Take(Bridge().raw, 1232) }

  /** The new entry as it should have been. */
  function Planted(wd: Bytes): (e: Entry) { PrintedEntry(WATCHDOG, NO_FIELDS[MODE := WATCHDOG_MODE], wd) }

  function TrickFields(): (f: seq<nat>)
    ensures |f| == FIELDS
  {
    NewFields(Reprinted(NO_FIELDS[INODE := LAST_INODE], SHELL, []), LIMIT)
  }

  lemma SmallFits(f: seq<nat>, name: Bytes, data: Bytes)
    requires |f| == FIELDS && EightDigits(f) && |name| + 1 < LIMIT && |data| < LIMIT
    ensures EightDigits(Reprinted(f, name, data))
  {
  }

  lemma TrailerShape()
    ensures Solid(TrailerEntry()) && |TrailerEntry().raw| == 124 && TrailerEntry().name == TRAILER
  {
    NamesDiffer();
    SmallFits(NO_FIELDS, TRAILER, []);
    PrintedLength(TRAILER, NO_FIELDS, []);
  }

  lemma NamelessShape()
    ensures Solid(Nameless()) && Nameless().name == []
  {
    SmallFits(NO_FIELDS, [], []);
    PrintedLength([], NO_FIELDS, []);
  }

  lemma BridgeShape(t: Bytes)
    requires |t| == 124
    ensures var k := PrintedEntry([], NO_FIELDS, Zeros(1120) + t);
      Solid(k) && |k.raw| == 1356 && k.name == [] && k.raw == Take(k.raw, 1232) + t
  {
    var data := Zeros(1120) + t;
    hide NewcEntry, HeaderText;
    SmallFits(NO_FIELDS, [], data);
    PrintedLength([], NO_FIELDS, data);
    var front := PrintedEnds([], NO_FIELDS, data);
    var raw := NewcEntry([], NO_FIELDS, data);
    assert raw == (front + Zeros(1120)) + t;
    assert Take(raw, 1232) == front + Zeros(1120);
  }

  lemma PlantedShape(wd: Bytes)
    requires |wd| < LIMIT
    ensures Solid(Planted(wd)) && Planted(wd).name == WATCHDOG
  {
    NamesDiffer();
    hide NewcEntry;
    SmallFits(NO_FIELDS[MODE := WATCHDOG_MODE], WATCHDOG, wd);
    PrintedLength(WATCHDOG, NO_FIELDS[MODE := WATCHDOG_MODE], wd);
  }

  lemma ScriptShape()
    ensures |PRELUDE| == 48 && |Script()| == 1280 && Script() + TrailerEntry().raw == PRELUDE + Bridge().raw
    ensures Solid(Bridge()) && Bridge().name == []
  {
    TrailerShape();
    hide TrailerEntry, NewcEntry;
    var t := TrailerEntry().raw;
    BridgeShape(t);
    ScriptJoins(Bridge().raw, t);
  }

  lemma ScriptJoins(k: Bytes, t: Bytes)
    requires |k| == 1356 && k == Take(k, 1232) + t
    ensures |PRELUDE| == 48 && |PRELUDE + Take(k, 1232)| == 1280 && PRELUDE + Take(k, 1232) + t == PRELUDE + k
  {
    assert PRELUDE + Take(k, 1232) + t == PRELUDE + (Take(k, 1232) + t);
  }

  /** The overlong new entry is read without a name, and ends inside the script. */
  lemma FrontReads(wd: Bytes, k: Bytes, t: Bytes) returns (b: Entry)
    requires |PRELUDE| == 48 && |wd| == 1280 && wd + t == PRELUDE + k
    ensures Solid(b) && b.name == [] && NewcEntry(WATCHDOG, TrickFields(), wd) + t == b.raw + k
  {
    NamesDiffer();
    var g := Reprinted(TrickFields(), WATCHDOG, wd);
    TrickDigits(wd);
    var text, rest := MAGIC + HeaderText(g), WATCHDOG + [0] + Zeros(2) + PRELUDE;
    hide HeaderText, HeaderOk, FieldValues, NewcEntry;
    OverlongFields(g, rest, FILESIZE);
    OverlongFields(g, rest, NAMESIZE);
    b := FrontEntry(text + rest);
    FrontSplit(wd, k, t);
  }

  lemma TrickDigits(wd: Bytes)
    requires |wd| == 1280 && |WATCHDOG| == 30
    ensures var g := Reprinted(TrickFields(), WATCHDOG, wd);
      g[0] == LIMIT && EightDigits(g[1..]) && g[5] == 0 && g[6] == 1280 && g[10] == 0 && g[11] == 31
  {
  }

  lemma FrontEntry(raw: Bytes) returns (e: Entry)
    requires |raw| == 192 && HeaderOk(raw) && FieldValues(raw)[FILESIZE] == 80 && FieldValues(raw)[NAMESIZE] == 1
    ensures Solid(e) && e.name == [] && e.raw == raw
  {
    hide HeaderOk, FieldValues, Solid, Zeros;
    var f := FieldValues(raw);
    assert DataStart(f) == 112 && EntrySize(f) == 192;
    hide DataStart, EntrySize;
    e := ParseEntry(raw).value;
    WholeIsSolid(raw);
  }

  lemma FrontSplit(wd: Bytes, k: Bytes, t: Bytes)
    requires |wd| == 1280 && wd + t == PRELUDE + k && |WATCHDOG| == 30
    requires |HeaderText(Reprinted(TrickFields(), WATCHDOG, wd))| == 105
    ensures NewcEntry(WATCHDOG, TrickFields(), wd) + t
      == MAGIC + HeaderText(Reprinted(TrickFields(), WATCHDOG, wd)) + (WATCHDOG + [0] + Zeros(2) + PRELUDE) + k
  {
    hide HeaderText, Reprinted;
    var head := MAGIC + HeaderText(Reprinted(TrickFields(), WATCHDOG, wd)) + WATCHDOG + [0];
    assert |head| == 142 && Pad(142) == 2 && Pad(1280) == 0 && Zeros(0) == [];
    assert NewcEntry(WATCHDOG, TrickFields(), wd) == head + Zeros(2) + wd;
    assert head + Zeros(2) + wd + t == head + Zeros(2) + (wd + t);
    assert head + Zeros(2) + (PRELUDE + k) == head + Zeros(2) + PRELUDE + k;
    var h := MAGIC + HeaderText(Reprinted(TrickFields(), WATCHDOG, wd));
    assert h + (WATCHDOG + [0] + Zeros(2) + PRELUDE) == head + Zeros(2) + PRELUDE;
  }

  // ---- the whole archives ----

  /** Three solid entries in front of anything. */
  lemma ThreeFirst(x: Entry, y: Entry, z: Entry, es: seq<Entry>, rest: Bytes, tail: Bytes)
    requires Solid(x) && Solid(y) && Solid(z) && x.name != TRAILER && y.name != TRAILER && z.name != TRAILER
    requires Parsed(rest) == Some(Archive(es, tail))
    ensures Parsed(x.raw + (y.raw + (z.raw + rest))) == Some(Archive([x, y, z] + es, tail))
  {
    hide Parsed, Solid;
    ParsedSolid(z, rest);
    ParsedSolid(y, z.raw + rest);
    ParsedSolid(x, y.raw + (z.raw + rest));
    assert [x] + ([y] + ([z] + es)) == [x, y, z] + es;
  }

  lemma RawsThree(x: Entry, y: Entry, z: Entry, es: seq<Entry>)
    ensures Raws([x, y, z] + es) == x.raw + (y.raw + (z.raw + Raws(es)))
  {
    hide Raws;
    RawsCons(z, es);
    RawsCons(y, [z] + es);
    RawsCons(x, [y] + ([z] + es));
    assert [x, y, z] + es == [x] + ([y] + ([z] + es));
  }

  lemma FourParse(x: Entry, y: Entry, z: Entry, t: Entry, tail: Bytes)
    requires Solid(x) && Solid(y) && Solid(z) && x.name != TRAILER && y.name != TRAILER && z.name != TRAILER
    requires Solid(t) && t.name == TRAILER && t.raw != []
    ensures Parsed(Raws([x, y, z] + [t]) + tail) == Some(Archive([x, y, z] + [t], tail))
  {
    hide Parsed, Solid, Raws;
    TrailerParses(t, tail);
    ThreeFirst(x, y, z, [t], Raws([t]) + tail, tail);
    RawsThree(x, y, z, [t]);
    Assoc4(x.raw, y.raw, z.raw, Raws([t]), tail);
  }

  lemma Assoc4(a: Bytes, b: Bytes, c: Bytes, d: Bytes, e: Bytes)
    ensures a + (b + (c + (d + e))) == a + (b + (c + d)) + e
  {
  }

  /** Behind three entries, an overlong `w` and the trailer are read as `b` and
      `k`, and the tail is read on. */
  lemma TrickParses(x: Entry, y: Entry, z: Entry, w: Entry, t: Entry, b: Entry, k: Entry, later: seq<Entry>)
    requires Solid(x) && Solid(y) && Solid(z) && x.name != TRAILER && y.name != TRAILER && z.name != TRAILER
    requires Solid(b) && Solid(k) && b.name != TRAILER && k.name != TRAILER
    requires w.raw + t.raw == b.raw + k.raw && Parsed(Raws(later)) == Some(Archive(later, []))
    ensures Parsed(Raws([x, y, z] + [w, t]) + Raws(later)) == Some(Archive([x, y, z] + ([b, k] + later), []))
  {
    hide Parsed, Solid, Raws;
    ParsedSolid(k, Raws(later));
    ParsedSolid(b, k.raw + Raws(later));
    assert [b] + ([k] + later) == [b, k] + later;
    ThreeFirst(x, y, z, [b, k] + later, b.raw + (k.raw + Raws(later)), []);
    RawsThree(x, y, z, [w, t]);
    RawsPair(w, t);
    assert b.raw + (k.raw + Raws(later)) == b.raw + k.raw + Raws(later);
    Assoc4(x.raw, y.raw, z.raw, w.raw + t.raw, Raws(later));
  }

  /** The tail of the trick: the new entry, the nameless one and a trailer. */
  lemma TailParses(p: Entry, n: Entry, t: Entry)
    requires Solid(p) && Solid(n) && p.name != TRAILER && n.name != TRAILER
    requires Solid(t) && t.name == TRAILER && t.raw != []
    ensures Parsed(Raws([p, n, t])) == Some(Archive([p, n, t], []))
  {
    hide Parsed, Raws, Solid;
    TrailerParses(t, []);
    SolidParses(n, [t], []);
    SolidParses(p, [n] + [t], []);
    assert [p, n, t] == [p] + ([n] + [t]);
    assert Raws([p, n, t]) + [] == Raws([p, n, t]);
  }

  /** Looked up by name, what is read back is what was there, the new entry and
      the replaced one: the self-check is content. */
  lemma TrickChecked(i: Entry, i': Entry, s: Entry, n: Entry, b: Entry, k: Entry, p: Entry, t: Entry, rc: Bytes,
                     wd: Bytes)
    requires i.name == i'.name == INIT_RC && i'.data == rc && s.name == SHELL && t.name == TRAILER
    requires n.name == b.name == k.name == []
    requires p.name == WATCHDOG && p.data == wd && |p.fields| == FIELDS && p.fields[MODE] == WATCHDOG_MODE
    ensures Checked([i, s, n] + [t], [i', s, n] + ([b, k] + [p, n, t]), rc, wd)
  {
    NamesDiffer();
    hide ByName, TRAILER, INIT_RC, SHELL, WATCHDOG, MODE, WATCHDOG_MODE;
    ByNameFour(i, s, n, t);
    ByNameEight(i', s, n, b, k, p, t);
    assert [i', s, n] + ([b, k] + [p, n, t]) == [i', s, n, b, k, p, n, t] && [i, s, n] + [t] == [i, s, n, t];
    MapsAgree(ByName([i, s, n, t]), ByName([i', s, n, b, k, p, n, t]), i, i', s, n, b, k, p, t);
  }

  lemma MapsAgree(m1: map<Bytes, Entry>, m2: map<Bytes, Entry>,
                  i: Entry, i': Entry, s: Entry, n: Entry, b: Entry, k: Entry, p: Entry, t: Entry)
    requires i'.name == i.name && k.name == b.name == n.name
    requires |{i.name, s.name, n.name, p.name, t.name}| == 5
    requires m1 == map[][i.name := i][s.name := s][n.name := n][t.name := t]
    requires m2
      == map[][i'.name := i'][s.name := s][n.name := n][b.name := b][k.name := k][p.name := p][n.name := n][t.name := t]
    ensures m2.Keys == m1.Keys + {p.name}
    ensures forall x :: x in m1 && x != i.name ==> x in m2 && m2[x] == m1[x]
    ensures p.name in m2 && m2[p.name] == p && i.name in m2 && m2[i.name] == i'
  {
  }

  lemma ByNameEight(a: Entry, s: Entry, n: Entry, b: Entry, k: Entry, p: Entry, t: Entry)
    ensures ByName([a, s, n, b, k, p, n, t]) ==
      map[][a.name := a][s.name := s][n.name := n][b.name := b][k.name := k][p.name := p][n.name := n][t.name := t]
  {
    hide ByName;
    ByNameFour(a, s, n, b);
    var es := [a, s, n, b];
    ByNameSnoc(es, k);
    ByNameSnoc(es + [k], p);
    ByNameSnoc(es + [k] + [p], n);
    ByNameSnoc(es + [k] + [p] + [n], t);
    assert [a, s, n, b, k, p, n, t] == es + [k] + [p] + [n] + [t];
  }

  lemma ByNameNothing()
    ensures ByName([]) == map[]
  {
  }

  lemma ByNameFour(a: Entry, b: Entry, c: Entry, d: Entry)
    ensures ByName([a, b, c, d]) == map[][a.name := a][b.name := b][c.name := c][d.name := d]
  {
    hide ByName;
    ByNameNothing();
    ByNameSnoc([], a);
    ByNameSnoc([a], b);
    ByNameSnoc([a, b], c);
    ByNameSnoc([a, b, c], d);
    assert [] + [a] == [a] && [a] + [b] == [a, b] && [a, b] + [c] == [a, b, c] && [a, b, c] + [d] == [a, b, c, d];
  }

  // ---- the witness ----

  /** The archive: init.rc, the shell with the last inode, a nameless entry. */
  function TrickEntries(rc: Bytes): (es: seq<Entry>) {
    [LastInode(rc)[0], LastInode(rc)[1], Nameless()] + [TrailerEntry()]
  }

  /** And behind its trailer what the reader is led to. */
  function TrickTail(): (es: seq<Entry>) { [Planted(Script()), Nameless(), TrailerEntry()] }

  lemma TrickEdited(rcOld: Bytes, rc: Bytes, wd: Bytes)
    ensures Fielded(TrickEntries(rcOld))
    ensures Edited(TrickEntries(rcOld), TrickFields(), rc, wd)
      == [LastInode(rc)[0], LastInode(rc)[1], Nameless()] + [PrintedEntry(WATCHDOG, TrickFields(), wd), TrailerEntry()]
  {
    NamesDiffer();
    hide NewcEntry, Edited;
    var es, nf := TrickEntries(rcOld), TrickFields();
    assert NamesApart();
    EditedRc(es[0], nf, rc, wd);
    PrintedTwice(rcOld, rc);
    PassedOn([es[1], es[2]], nf, rc, wd);
    EditedSingle(es[3], nf, rc, wd);
    EditedAppend([es[1], es[2]], [es[3]], nf, rc, wd);
    EditedAppend([es[0]], [es[1], es[2]] + [es[3]], nf, rc, wd);
    assert es == [es[0]] + ([es[1], es[2]] + [es[3]]);
  }

  lemma PrintedTwice(rcOld: Bytes, rc: Bytes)
    ensures PrintedEntry(INIT_RC, PrintedEntry(INIT_RC, NO_FIELDS, rcOld).fields, rc)
      == PrintedEntry(INIT_RC, NO_FIELDS, rc)
  {
    var f := Reprinted(NO_FIELDS, INIT_RC, rcOld);
    assert Reprinted(f, INIT_RC, rc) == Reprinted(NO_FIELDS, INIT_RC, rc);
  }

  lemma TrickNames(rc: Bytes)
    ensures var es := TrickEntries(rc);
      && Fielded(es) && Editable(es, rc) && HasName(es, TRAILER) && HasName(es, INIT_RC)
      && FirstNamed(es, SHELL) == Some(es[1]) && IsTop(es, LAST_INODE)
      && TrickFields() == NewFields(es[1].fields, LAST_INODE + 1) && TrickFields()[INODE] == LIMIT
  {
    NamesDiffer();
    hide NewcEntry;
    var es := TrickEntries(rc);
    assert es[0].name == INIT_RC && es[1].name == SHELL && es[2].name == [] && es[3].name == TRAILER;
    assert es[1..][0] == es[1];
    assert es[1].fields[INODE] == LAST_INODE;
  }

  /** Why the exception for nameless entries stands: this archive, edited with
      this script, is accepted by the self-check and does not read back as meant,
      whatever init.rc is put in. */
  lemma SelfCheckMisled(rcOld: Bytes, rc: Bytes)
    requires |rcOld| < LIMIT && |rc| < LIMIT
    ensures PRELUDE <= Script()
    ensures var es, nf := TrickEntries(rcOld), TrickFields();
      var a := Archive(es, Raws(TrickTail()));
      && Parsed(Raws(es) + Raws(TrickTail())) == Some(a) && Read(es) && Editable(es, rcOld) && NewFieldsOf(es, nf)
      && !ReadsBack(a, nf, rc, Script()) && !Refused(a, nf, rc, Script())
  {
    var es, nf, wd := TrickEntries(rcOld), TrickFields(), Script();
    var a := Archive(es, Raws(TrickTail()));
    TrickParsesBack(rcOld, rc);
    TrickNames(rcOld);
    hide Parsed, Raws, TrickEntries, TrickTail, Script, Edited, Checked, NewFields, FirstNamed, PrintedEntry;
    ParsedRead(Raws(es) + Raws(TrickTail()));
    EditReadsIff(Raws(es) + Raws(TrickTail()), nf, rc, wd);
    TrickFieldsAre(rcOld);
  }

  lemma TrickFieldsAre(rcOld: Bytes)
    requires |rcOld| < LIMIT
    ensures var es := TrickEntries(rcOld); Fielded(es) && FirstNamed(es, SHELL).Some? && NewFieldsOf(es, TrickFields())
  {
    hide TrickEntries, FirstNamed, NewFieldsOf;
    TrickNames(rcOld);
    NewFieldsAre(TrickEntries(rcOld), LAST_INODE);
  }

  lemma TrickParsesBack(rcOld: Bytes, rc: Bytes)
    requires |rcOld| < LIMIT && |rc| < LIMIT
    ensures PRELUDE <= Script() && Fielded(TrickEntries(rcOld))
    ensures Parsed(Raws(TrickEntries(rcOld)) + Raws(TrickTail()))
      == Some(Archive(TrickEntries(rcOld), Raws(TrickTail())))
    ensures var p := Parsed(Raws(Edited(TrickEntries(rcOld), TrickFields(), rc, Script())) + Raws(TrickTail()));
      p.Some? && Checked(TrickEntries(rcOld), p.value.entries, rc, Script())
  {
    hide Script, Nameless, TrailerEntry, Bridge, Planted, LastInode, TrickTail, NewcEntry, Solid, Parsed, Raws, Edited,
         Checked,
         TRAILER, SHELL, INIT_RC, WATCHDOG, PRELUDE, TrickFields, TrickEntries, PrintedEntry, EightDigits;
    ScriptShape();
    TrailerShape();
    NamelessShape();
    PlantedShape(Script());
    SmallEntriesSolid(rcOld);
    SmallEntriesSolid(rc);
    NamesDiffer();
    LastInodeNamed(rcOld);
    LastInodeNamed(rc);
    TrickLists(rcOld);
    var x, y, i, wd := LastInode(rc)[0], LastInode(rc)[1], LastInode(rcOld)[0], Script();
    var n, t, k, p := Nameless(), TrailerEntry(), Bridge(), Planted(wd);
    PlantedHolds(wd);
    FourParse(i, y, n, t, Raws(TrickTail()));
    var b := FrontReads(wd, k.raw, t.raw);
    TrickEdited(rcOld, rc, wd);
    TailParses(p, n, t);
    WatchdogRaw(wd);
    TrickParses(x, y, n, PrintedEntry(WATCHDOG, TrickFields(), wd), t, b, k, [p, n, t]);
    TrickChecked(i, x, y, n, b, k, p, t, rc, wd);
  }

  lemma WatchdogRaw(wd: Bytes)
    ensures PrintedEntry(WATCHDOG, TrickFields(), wd).raw == NewcEntry(WATCHDOG, TrickFields(), wd)
  {
    hide NewcEntry;
  }

  lemma TrickLists(rc: Bytes)
    ensures TrickEntries(rc) == [LastInode(rc)[0], LastInode(rc)[1], Nameless()] + [TrailerEntry()]
    ensures TrickTail() == [Planted(Script()), Nameless(), TrailerEntry()] && PRELUDE <= Script()
  {
    hide LastInode, Nameless, TrailerEntry, Planted;
  }

  lemma LastInodeNamed(rc: Bytes)
    ensures LastInode(rc)[0].name == INIT_RC && LastInode(rc)[0].data == rc && LastInode(rc)[1].name == SHELL
    ensures LastInode(rc)[2].name == TRAILER
    ensures LastInode(rc)[1] == LastInode([])[1]
  {
    hide NewcEntry;
  }

  lemma PlantedHolds(wd: Bytes)
    ensures Planted(wd).data == wd && |Planted(wd).fields| == FIELDS && Planted(wd).fields[MODE] == WATCHDOG_MODE
  {
    hide NewcEntry;
  }

  // ---- by nothing else, in an archive of ordinary size ----

  const SPAN: nat := 0x1000_0000

  /** Behind an overlong first field, the length of a name is read behind the last
      digit of the field before: next to nothing, or more than 2^28. */
  lemma OverlongName(g: seq<nat>, more: Bytes)
    requires |g| == FIELDS && g[0] == LIMIT && EightDigits(g[1..]) && g[NAMESIZE] < 32 && g[NAMESIZE] > 0
    ensures |HeaderText(g)| == 8 * FIELDS + 1
    ensures HeaderOk(MAGIC + HeaderText(g) + more)
    ensures var n := FieldValues(MAGIC + HeaderText(g) + more)[NAMESIZE]; n <= 1 || n >= SPAN
  {
    hide HeaderText, Hex, HeaderOk, Field, HexValue, EightDigits, Pow16, FieldValues;
    var h := HeaderText(g);
    OverlongLead(g);
    HeaderTextLong(g);
    OverlongHeaderOk(h, more);
    FieldOf(h, more, NAMESIZE);
    var d := h[8 * NAMESIZE];
    HexRoundTrip(g[NAMESIZE] / 16, 7);
    LeadingDigit(d, Hex(g[NAMESIZE] / 16, 7));
    SevenDigits();
    if DigitValue(d) > 0 { Spans(DigitValue(d)); }
    FieldValueOf(MAGIC + h + more, NAMESIZE);
  }

  lemma FieldValueOf(rest: Bytes, k: nat)
    requires HeaderOk(rest) && k < FIELDS
    ensures IsHex(Field(rest, k)) && FieldValues(rest)[k] == HexValue(Field(rest, k))
  {
  }

  lemma SevenDigits()
    ensures Pow16(7) == SPAN
  {
    assert Pow16(4) == 65536;
  }

  lemma Spans(d: nat)
    requires d > 0
    ensures d * SPAN >= SPAN
  {
  }

  lemma OverlongLead(g: seq<nat>)
    requires |g| == FIELDS && g[0] == LIMIT && EightDigits(g[1..]) && g[NAMESIZE] < LIMIT
    ensures |HeaderText(g)| == 8 * FIELDS + 1 && IsDigit(HeaderText(g)[8 * NAMESIZE])
    ensures |Hex(g[NAMESIZE] / 16, 7)| == 7
    ensures HeaderText(g)[8 * NAMESIZE..8 * NAMESIZE + 8] == [HeaderText(g)[8 * NAMESIZE]] + Hex(g[NAMESIZE] / 16, 7)
  {
    hide HeaderText, Hex, Pow16;
    LimitIsEightDigits();
    HexPower(8);
    var f := g[1..];
    assert [g[0]] + f == g;
    HeaderTextCons(LIMIT, f);
    HeaderTextFields(f);
    HeaderTextLong(g);
    var first, t := Hex(LIMIT, 8), HeaderText(f);
    HexSplit(g[NAMESIZE]);
    assert t[8 * (NAMESIZE - 1)..8 * (NAMESIZE - 1) + 8] == Hex(f[NAMESIZE - 1], 8);
    Lead(first, t, NAMESIZE, Hex(g[NAMESIZE], 8));
  }

  lemma Lead(first: Bytes, t: Bytes, k: nat, x: Bytes)
    requires |first| == 9 && 1 <= k && 8 * k <= |t| && t[8 * (k - 1)..8 * (k - 1) + 8] == x && |x| == 8
    ensures (first + t)[8 * k..8 * k + 8] == [(first + t)[8 * k]] + x[..7]
  {
    var s := (first + t)[8 * k..8 * k + 8];
    forall i | 0 <= i < 8 ensures s[i] == ([(first + t)[8 * k]] + x[..7])[i] {
      if i > 0 { assert s[i] == t[8 * (k - 1)..8 * (k - 1) + 8][i - 1]; }
    }
  }

  /** Parsed again, such an archive fails, shows a nameless entry, or loses its trailer. */
  ghost predicate Spoilt(p: Option<Archive>) {
    p.None? || HasName(p.value.entries, []) || !HasName(p.value.entries, TRAILER)
  }

  /** Only the inode is too large. */
  ghost predicate LongInode(nf: seq<nat>)
    requires |nf| == FIELDS
  {
    nf[INODE] == LIMIT && EightDigits(nf[1..])
  }

  lemma OverlongSpoils(nf: seq<nat>, wd: Bytes, more: Bytes)
    requires |nf| == FIELDS && LongInode(nf) && |wd| < LIMIT && |NewcEntry(WATCHDOG, nf, wd) + more| < SPAN
    ensures Spoilt(Parsed(NewcEntry(WATCHDOG, nf, wd) + more))
  {
    NamesDiffer();
    var g := Reprinted(nf, WATCHDOG, wd);
    var rest := NewcEntry(WATCHDOG, nf, wd) + more;
    var tail := OverlongTail(nf, wd, more);
    assert EightDigits(g[1..]) by { LongReprinted(nf, wd); }
    OverlongName(g, tail);
    hide NewcEntry, HeaderText, HeaderOk, FieldValues, Reprinted;
    OverlongMisread(WATCHDOG, nf, wd, more);
    var e := ParseEntry(rest).value;
    if e.fields[NAMESIZE] <= 1 { NoName(rest, e); } else { NoMore(rest, e); }
    SpoiltHere(rest, e);
  }

  lemma LongReprinted(nf: seq<nat>, wd: Bytes)
    requires |nf| == FIELDS && LongInode(nf) && |wd| < LIMIT && |WATCHDOG| == 30
    ensures var g := Reprinted(nf, WATCHDOG, wd); g[0] == LIMIT && g[NAMESIZE] == 31 && EightDigits(g[1..])
  {
    var g := Reprinted(nf, WATCHDOG, wd);
    forall i | 0 <= i < |g[1..]| ensures g[1..][i] < LIMIT { assert nf[1..][i] < LIMIT; }
  }

  lemma OverlongTail(nf: seq<nat>, wd: Bytes, more: Bytes) returns (tail: Bytes)
    requires |nf| == FIELDS
    ensures NewcEntry(WATCHDOG, nf, wd) + more == MAGIC + HeaderText(Reprinted(nf, WATCHDOG, wd)) + tail
    ensures NewcEntry(WATCHDOG, nf, wd) != []
  {
    hide HeaderText, Reprinted;
    var h := MAGIC + HeaderText(Reprinted(nf, WATCHDOG, wd));
    var head := h + WATCHDOG + [0];
    tail := WATCHDOG + [0] + Zeros(Pad(|head|)) + wd + Zeros(Pad(|wd|)) + more;
    assert head + Zeros(Pad(|head|)) + wd + Zeros(Pad(|wd|)) + more == h + tail;
  }

  lemma NoName(rest: Bytes, e: Entry)
    requires ParseEntry(rest) == Some(e) && |e.fields| == FIELDS && e.fields[NAMESIZE] <= 1
    ensures e.name == []
  {
    hide HeaderOk, FieldValues;
  }

  lemma NoMore(rest: Bytes, e: Entry)
    requires ParseEntry(rest) == Some(e) && |e.fields| == FIELDS && e.fields[NAMESIZE] >= SPAN > |rest|
    ensures Drop(rest, EntrySize(e.fields)) == []
  {
    hide HeaderOk, FieldValues;
  }

  lemma SpoiltHere(rest: Bytes, e: Entry)
    requires rest != [] && ParseEntry(rest) == Some(e) && |e.fields| == FIELDS && Misread(e.name)
    requires e.name == [] || Drop(rest, EntrySize(e.fields)) == []
    ensures Spoilt(Parsed(rest))
  {
    hide ParseEntry, EntrySize;
    NamesDiffer();
    assert TRAILER[0] == 84;
    ParsedStep(rest, e);
    ParsedEnd();
    hide Parsed;
    var p := Parsed(Drop(rest, EntrySize(e.fields)));
    if p.Some? {
      assert ([e] + p.value.entries)[0] == e;
      assert Parsed(rest).value.entries[0].name == e.name;
    }
  }

  lemma SolidSpoils(x: Entry, later: seq<Entry>, tail: Bytes)
    requires Solid(x) && x.name != TRAILER && Spoilt(Parsed(Raws(later) + tail))
    ensures Spoilt(Parsed(Raws([x] + later) + tail))
  {
    hide Solid, Parsed, Raws;
    ParsedSolid(x, Raws(later) + tail);
    RawsCons(x, later);
    assert x.raw + (Raws(later) + tail) == x.raw + Raws(later) + tail;
    var p := Parsed(Raws(later) + tail);
    if p.Some? {
      var es := p.value.entries;
      forall n ensures HasName([x] + es, n) <==> x.name == n || HasName(es, n) { HasNameCons(x, es, n); }
    }
  }

  lemma HasNameCons(x: Entry, es: seq<Entry>, n: Bytes)
    ensures HasName([x] + es, n) <==> x.name == n || HasName(es, n)
  {
    var all := [x] + es;
    assert all[0] == x;
    if HasName(es, n) {
      var k :| 0 <= k < |es| && es[k].name == n;
      assert all[k + 1] == es[k];
    }
    if k :| 0 <= k < |all| && all[k].name == n { assert k > 0 ==> es[k - 1] == all[k]; }
  }

  lemma {:induction false} InodeSpoils(rest: Bytes, nf: seq<nat>, rc: Bytes, wd: Bytes)
    requires |nf| == FIELDS && Parsed(rest).Some? && LongInode(nf) && |rc| < LIMIT && |wd| < LIMIT
    requires HasName(Parsed(rest).value.entries, TRAILER) && Read(Parsed(rest).value.entries)
    requires var a := Parsed(rest).value; |Raws(Edited(a.entries, nf, rc, wd)) + a.tail| < SPAN
    ensures var a := Parsed(rest).value; Spoilt(Parsed(Raws(Edited(a.entries, nf, rc, wd)) + a.tail))
    decreases |rest|
  {
    hide Solid, ParseEntry, HeaderOk, FieldValues, EntrySize, NewcEntry, Spoilt, EightDigits, Reprinted, Edited, Raws,
         LongInode, TRAILER;
    assert rest != [];
    var e := ParseEntry(rest).value;
    TakeDrop(rest, e);
    ParsedStep(rest, e);
    var after := Drop(rest, EntrySize(e.fields));
    if e.name == TRAILER {
      TrailerSpoils(rest, e, nf, rc, wd);
    } else {
      var a := Parsed(after).value;
      ParsedRead(after);
      HasNameCons(e, a.entries, TRAILER);
      SomethingNamed(after, TRAILER);
      EditedCons(e, a.entries, nf, rc, wd);
      var x := if e.name == INIT_RC then PrintedEntry(e.name, e.fields, rc) else e;
      RawsCons(x, Edited(a.entries, nf, rc, wd));
      InodeSpoils(after, nf, rc, wd);
      assert EightDigits(Parsed(rest).value.entries[0].fields);
      if e.name == INIT_RC { RcFits(e, rc); } else { SolidBefore(rest); }
      SolidSpoils(x, Edited(a.entries, nf, rc, wd), a.tail);
    }
  }

  lemma TrailerSpoils(rest: Bytes, e: Entry, nf: seq<nat>, rc: Bytes, wd: Bytes)
    requires |nf| == FIELDS && rest != [] && ParseEntry(rest) == Some(e) && e.name == TRAILER && Fielded([e])
    requires LongInode(nf) && |wd| < LIMIT && |e.fields| == FIELDS
    requires |Raws(Edited([e], nf, rc, wd)) + Drop(rest, EntrySize(e.fields))| < SPAN
    ensures Spoilt(Parsed(Raws(Edited([e], nf, rc, wd)) + Drop(rest, EntrySize(e.fields))))
  {
    hide ParseEntry, EntrySize, NewcEntry, Spoilt, LongInode, Parsed, TRAILER, INIT_RC, WATCHDOG, Edited, Raws;
    NamesDiffer();
    var after := Drop(rest, EntrySize(e.fields));
    EditedSingle(e, nf, rc, wd);
    RawsPair(PrintedEntry(WATCHDOG, nf, wd), e);
    assert NewcEntry(WATCHDOG, nf, wd) + (e.raw + after) == NewcEntry(WATCHDOG, nf, wd) + e.raw + after;
    OverlongSpoils(nf, wd, e.raw + after);
  }

  lemma SomethingNamed(rest: Bytes, n: Bytes)
    requires Parsed(rest).Some? && HasName(Parsed(rest).value.entries, n)
    ensures rest != []
  {
  }

  lemma SpoiltUnchecked(es: seq<Entry>, e2: seq<Entry>, tail: Bytes, rc: Bytes, wd: Bytes)
    requires Spoilt(Some(Archive(e2, tail))) && !HasName(es, []) && HasName(es, TRAILER)
    ensures !Checked(es, e2, rc, wd)
  {
    NamesDiffer();
    assert WATCHDOG != [];
    hide ByName;
    var m1, m2 := ByName(es), ByName(e2);
    assert TRAILER in m1.Keys && [] !in m1.Keys;
    assert [] in m2.Keys || TRAILER !in m2.Keys;
  }

  /** The new entry's number too large for its field is its inode, if the files
      put in are smaller than 4 GiB. */
  lemma OnlyInode(es: seq<Entry>, nf: seq<nat>, rc: Bytes, wd: Bytes)
    requires Read(es) && FirstNamed(es, SHELL).Some? && NewFieldsOf(es, nf) && |nf| == FIELDS
    requires !Fits(nf, rc, wd) && |rc| < LIMIT && |wd| < LIMIT
    ensures LongInode(nf)
  {
    hide FirstNamed;
    var shell := FirstNamed(es, SHELL).value;
    var k :| 0 <= k < |es| && es[k] == shell;
    var top: nat :| IsTop(es, top) && nf[0] == top + 1;
    var j :| 0 <= j < |es| && es[j].fields[INODE] == top;
    assert top < LIMIT && EightDigits(es[k].fields);
    hide IsTop;
    forall i | 1 <= i < FIELDS ensures nf[i] < LIMIT { assert shell.fields[i] < LIMIT; }
  }

  /** In an archive of ordinary size, below 256 MiB, nothing but a nameless entry
      leads the self-check past an overlong header. */
  lemma NamelessOnly(archive: Bytes, rcOld: Bytes, nf: seq<nat>, rc: Bytes, wd: Bytes)
    requires |nf| == FIELDS && Parsed(archive).Some? && Read(Parsed(archive).value.entries)
    requires Editable(Parsed(archive).value.entries, rcOld) && NewFieldsOf(Parsed(archive).value.entries, nf)
    requires !Fits(nf, rc, wd) && |rc| < LIMIT && |wd| < LIMIT
    requires var a := Parsed(archive).value; |Raws(Edited(a.entries, nf, rc, wd)) + a.tail| < SPAN
    ensures !HasName(Parsed(archive).value.entries, []) ==> Refused(Parsed(archive).value, nf, rc, wd)
  {
    hide Parsed, Raws, Edited, Fits, Checked, FirstNamed, LongInode, Spoilt, NewFieldsOf;
    var a := Parsed(archive).value;
    var p := Parsed(Raws(Edited(a.entries, nf, rc, wd)) + a.tail);
    OnlyInode(a.entries, nf, rc, wd);
    if HasName(a.entries, TRAILER) {
      InodeSpoils(archive, nf, rc, wd);
      if p.Some? && !HasName(a.entries, []) {
        assert p == Some(Archive(p.value.entries, p.value.tail));
        SpoiltUnchecked(a.entries, p.value.entries, p.value.tail, rc, wd);
      }
    } else {
      NoTrailerUnchecked(archive, nf, rc, wd);
    }
  }
}
