// The adb transport of the update (RomUpdateAdbV1.AdbRecoveryDevice): its own
// allowlist, and a program that re-cuts any stream of blocks into chunks, pushes
// each over a link that may lose or alter it, writes it with dd and reads it
// back. On success it has done exactly what the simple file device does.

module Adb {
  import opened Disk
  import opened Outcomes
  import opened Layout
  import opened UpdateLayout
  import opened Streams
  import opened Devices
  import opened Orders

  const MIB: nat := 0x10_0000

  /** The transport's own chunk size. */
  const PUSH_CHUNK: nat := 256 * MIB

  /** What `adb push` left on the phone. */
  datatype Push = Refused | Arrived(file: Bytes)

  /** Everything that happens out of sight, by step number: the push, what dd
      makes of the old bytes of the range it writes, whether a remote command
      succeeds, and whether the partition is mounted. */
  datatype Link = Link(
    push: (nat, Bytes) -> Push,
    dd: (nat, Bytes, Bytes) -> Bytes,
    succeeds: nat -> bool,
    mounted: nat -> bool)

  /** One chunk: what was to be written, and what the range holds afterwards. */
  datatype Piece = Piece(wanted: Bytes, landed: Bytes)

  function WantedOf(ps: seq<Piece>): (bs: seq<Bytes>)
    ensures |bs| == |ps| && forall k :: 0 <= k < |bs| ==> bs[k] == ps[k].wanted
  {
    seq(|ps|, k requires 0 <= k < |ps| => ps[k].wanted)
  }

  function LandedOf(ps: seq<Piece>): (bs: seq<Bytes>)
    ensures |bs| == |ps| && forall k :: 0 <= k < |bs| ==> bs[k] == ps[k].landed
  {
    seq(|ps|, k requires 0 <= k < |ps| => ps[k].landed)
  }

  /** Every piece has been verified on the phone. */
  ghost predicate Matched(sha: Hash, ps: seq<Piece>) {
    forall k :: 0 <= k < |ps| ==> |ps[k].landed| == |ps[k].wanted| && sha(ps[k].landed) == sha(ps[k].wanted)
  }

  /** All pieces but the last are exactly one chunk, and none is longer. */
  ghost predicate CutAt(chunk: nat, ps: seq<Piece>) {
    && (forall k :: 0 <= k < |ps| ==> 0 < |ps[k].wanted| <= chunk)
    && (forall k :: 0 <= k < |ps| - 1 ==> |ps[k].wanted| == chunk)
  }

  lemma PiecesSnoc(ps: seq<Piece>, p: Piece)
    ensures Flatten(WantedOf(ps + [p])) == Flatten(WantedOf(ps)) + p.wanted
    ensures Flatten(LandedOf(ps + [p])) == Flatten(LandedOf(ps)) + p.landed
  {
    assert WantedOf(ps + [p]) == WantedOf(ps) + [p.wanted];
    assert LandedOf(ps + [p]) == LandedOf(ps) + [p.landed];
    FlattenAppend(WantedOf(ps), p.wanted);
    FlattenAppend(LandedOf(ps), p.landed);
  }

  /** No chunk collides with what landed in its place. */
  ghost predicate ChunksDoNotCollide(sha: Hash, ps: seq<Piece>) {
    forall k :: 0 <= k < |ps| ==> NoCollision(sha, ps[k].landed, ps[k].wanted)
  }

  /** If no chunk collides with what landed, the bytes are the payload. */
  lemma MatchedIsEqual(sha: Hash, ps: seq<Piece>)
    requires Matched(sha, ps) && ChunksDoNotCollide(sha, ps)
    ensures Flatten(LandedOf(ps)) == Flatten(WantedOf(ps))
  {
    assert LandedOf(ps) == WantedOf(ps);
  }

  // ---- zeroes only ----

  predicate AllZero(b: Bytes) { forall i :: 0 <= i < |b| ==> b[i] == 0 }

  /** The filtered stream: it breaks at the first block holding a non-zero byte. */
  function ZerosOnly(s: Stream): (z: Stream) {
    Stream(ZeroPrefix(s.blocks), s.broken || ZeroPrefix(s.blocks) != s.blocks)
  }

  function ZeroPrefix(blocks: seq<Bytes>): (z: seq<Bytes>)
    ensures |z| <= |blocks| && z == blocks[..|z|]
    ensures |z| < |blocks| ==> !AllZero(blocks[|z|])
    ensures forall k :: 0 <= k < |z| ==> AllZero(z[k])
  {
    if blocks == [] || !AllZero(blocks[0]) then [] else [blocks[0]] + ZeroPrefix(blocks[1..])
  }

  /** The filter lets a stream through whole exactly when it is all zeroes. */
  lemma ZerosOnlyWhole(s: Stream)
    ensures !ZerosOnly(s).broken <==> !s.broken && AllZero(Flatten(s.blocks))
    ensures !ZerosOnly(s).broken ==> ZerosOnly(s) == s
    ensures AllZero(Flatten(ZerosOnly(s).blocks))
  {
    var z := ZeroPrefix(s.blocks);
    BlocksZero(z);
    if |z| < |s.blocks| {
      FlattenPiece(s.blocks, |z|, |Flatten(s.blocks[..|z|])|);
      var i :| 0 <= i < |s.blocks[|z|]| && s.blocks[|z|][i] != 0;
      var at := |Flatten(s.blocks[..|z|])|;
      assert Flatten(s.blocks)[at..at + |s.blocks[|z|]|][i] == Flatten(s.blocks)[at + i];
    }
  }

  lemma {:induction false} BlocksZero(blocks: seq<Bytes>)
    requires forall k :: 0 <= k < |blocks| ==> AllZero(blocks[k])
    ensures AllZero(Flatten(blocks))
  {
    if blocks != [] { BlocksZero(blocks[..|blocks| - 1]); }
  }

  /** The pushed file has the chunk's length and digest. */
  ghost predicate ArrivedWhole(sha: Hash, pushed: Push, b: Bytes) {
    pushed.Arrived? && |pushed.file| == |b| && sha(pushed.file) == sha(b)
  }

  class AdbDevice {
    const disk: array<byte>
    const lay: Layout
    const sha: Hash
    const link: Link
    const chunk: nat
    const mib: nat
    const wipe: bool
    var step: nat
    /** Offsets and lengths of the chunks written, as the transport logs them. */
    var log: seq<(nat, nat)>

    constructor (disk: array<byte>, lay: Layout, sha: Hash, link: Link, wipe: bool)
      ensures this.disk == disk && this.lay == lay && this.sha == sha && this.link == link && this.wipe == wipe
      ensures chunk == PUSH_CHUNK && mib == MIB && step == 0 && log == []
      ensures lay.Valid() && lay.diskBytes == disk.Length && (forall k, old_, p :: |link.dd(k, old_, p)| == |old_|) ==>
        Valid()
    {
      this.disk, this.lay, this.sha, this.link, this.wipe := disk, lay, sha, link, wipe;
      this.chunk, this.mib, this.step, this.log := PUSH_CHUNK, MIB, 0, [];
    }

    ghost predicate Valid() {
      && lay.Valid() && lay.diskBytes == disk.Length
      && 0 < mib && 0 < chunk && chunk % mib == 0
      && (forall k, old_, p :: |link.dd(k, old_, p)| == |old_|)
    }

    /** A link on which nothing goes wrong. */
    ghost predicate Reliable() {
      && (forall k, b :: link.push(k, b) == Arrived(b))
      && (forall k, old_, p :: |p| == |old_| ==> link.dd(k, old_, p) == p)
      && (forall k :: link.succeeds(k))
      && (forall k :: !link.mounted(k))
    }

    // ---- the allowlist of the transport ----

    /** The layout partitions that start at a sector. */
    static function StartingAt(lay: Layout, names: seq<PartName>, start: int): (hits: seq<PartName>)
      ensures forall n :: n in hits <==> n in names && lay.Start(n) == start
      ensures hits == [] <==> forall n :: n in names ==> lay.Start(n) != start
    {
      if names == [] then []
      else (if lay.Start(names[0]) == start then [names[0]] else []) + StartingAt(lay, names[1..], start)
    }

    static lemma {:induction false} StartingAtSingle(lay: Layout, names: seq<PartName>, n: PartName)
      requires lay.Valid() && NoDuplicates(names) && n in names
      ensures StartingAt(lay, names, lay.Start(n)) == [n]
    {
      var rest := StartingAt(lay, names[1..], lay.Start(n));
      forall m | lay.Start(m) == lay.Start(n) ensures m == n { assert m == n || !lay.parts(m).Overlaps(lay.parts(n)); }
      if names[0] == n {
        assert n !in names[1..];
        assert rest == [];
      } else {
        StartingAtSingle(lay, names[1..], n);
      }
    }

    /** How the transport names a program that starts where partition `n` does. */
    static function Named(lay: Layout, n: PartName, r: Region, wipe: bool): (w: Write)
      ensures w.region == r
    {
      if wipe && r == MetadataHead(lay) then Write(MetadataZero, r)
      else if wipe && r == UserdataZeroHead(lay) then Write(UserdataZero, r)
      else Write(Part(n), r)
    }

    static predicate ZeroOnly(lay: Layout, r: Region, wipe: bool) {
      wipe && (r == MetadataHead(lay) || r == UserdataZeroHead(lay))
    }

    /** Some write of the engine's allowlist has this range. */
    static ghost predicate Allowlisted(lay: Layout, r: Region, wipe: bool) {
      exists tag :: WriteAllowed(lay, Write(tag, r), wipe)
    }

    static lemma AllowlistedStart(lay: Layout, tag: Label, r: Region, wipe: bool)
      requires lay.Valid() && WriteAllowed(lay, Write(tag, r), wipe)
      ensures StartingAt(lay, ALL_PARTS, r.start) == [Target(Write(tag, r))]
      ensures WriteAllowed(lay, Named(lay, Target(Write(tag, r)), r, wipe), ZeroOnly(lay, r, wipe))
    {
      var n := Target(Write(tag, r));
      assert lay.Start(n) == r.start;
      AllPartsListed();
      StartingAtSingle(lay, ALL_PARTS, n);
    }

    static lemma NamedAllowed(lay: Layout, n: PartName, r: Region, wipe: bool)
      requires lay.Valid() && lay.Start(n) == r.start
      requires WriteAllowed(lay, Named(lay, n, r, wipe), ZeroOnly(lay, r, wipe))
      ensures Allowlisted(lay, r, wipe)
      ensures r.Inside(lay.parts(n)) && r.Within(lay.diskBytes) && r.sectors > 0
    {
      var w := Named(lay, n, r, wipe);
      AllowedIsInside(lay, w, ZeroOnly(lay, r, wipe));
      assert WriteAllowed(lay, Write(w.tag, r), wipe);
      var m := Target(w);
      assert lay.Start(m) == r.start;
      assert m == n || !lay.parts(m).Overlaps(lay.parts(n));
    }

    /** The partition the transport would write for this range, if any: exactly
        the ranges of the engine's allowlist are accepted. */
    method CheckProgram(r: Region) returns (o: Outcome, name: PartName, zeroOnly: bool)
      requires Valid()
      ensures o.Pass? <==> Allowlisted(lay, r, wipe)
      ensures o.Pass? ==>
        r.Inside(lay.parts(name)) && r.start == lay.Start(name) && r.Within(disk.Length) && r.sectors > 0
      ensures o.Pass? ==> (zeroOnly <==> ZeroOnly(lay, r, wipe))
      ensures o.Stopped? ==> o.why == PlanRefused
    {
      hide Layout.Valid, WriteAllowed, Target;
      name, zeroOnly := Boot, false;
      var hit := StartingAt(lay, ALL_PARTS, r.start);
      if Allowlisted(lay, r, wipe) {
        var tag :| WriteAllowed(lay, Write(tag, r), wipe);
        AllowlistedStart(lay, tag, r, wipe);
      }
      if |hit| != 1 { return Stopped(PlanRefused), name, zeroOnly; }
      name := hit[0];
      assert name in hit;
      zeroOnly := ZeroOnly(lay, r, wipe);
      var ws := [Named(lay, name, r, wipe)];
      o := CheckUpdatePlan(lay, ws, zeroOnly);
      SinglePlan(lay, ws[0], zeroOnly);
      if o.Pass? { NamedAllowed(lay, name, r, wipe); }
    }

    static lemma SinglePlan(lay: Layout, w: Write, wipe: bool)
      ensures PlanAllowed(lay, [w], wipe) <==> WriteAllowed(lay, w, wipe)
    {
      assert [w][0] == w;
    }

    // ---- one chunk ----

    method RemoteCommand() returns (o: Outcome)
      modifies this`step
      ensures step == old(step) + 1 && (o.Pass? <==> link.succeeds(old(step)))
      ensures o.Stopped? ==> o.why == DeviceFailed
      ensures Reliable() ==> o.Pass?
    {
      o := if link.succeeds(step) then Pass else Stopped(DeviceFailed);
      step := step + 1;
    }

    /** Push, compare on the phone, write with dd, read back. Whatever goes wrong,
        only the chunk's own range can have changed; a chunk that did not arrive
        whole, as far as its digest tells, is not written at all. */
    method WriteChunk(base: nat, off: nat, b: Bytes) returns (o: Outcome, ghost landed: Bytes)
      requires Valid() && base + off + |b| <= disk.Length && off % mib == 0
      modifies this`step, this`log, disk
      ensures |landed| == |b| && disk[..] == Overwrite(old(disk[..]), base + off, landed)
      ensures log == old(log) + [(off, |b|)]
      ensures o.Pass? ==> sha(landed) == sha(b)
      ensures o.Pass? ==> step == old(step) + 5 && forall k :: old(step) < k < step ==> link.succeeds(k)
      ensures !ArrivedWhole(sha, link.push(old(step), b), b) ==> o.Stopped? && disk[..] == old(disk[..])
      ensures o.Stopped? ==> o.why == DeviceFailed
      ensures Reliable() ==> o.Pass?
    {
      hide Layout.Valid, ArrivedWhole, Reliable, Overwrite;
      landed := disk[base + off..base + off + |b|];
      OverwriteSame(disk[..], base + off, |b|);
      log := log + [(off, |b|)];
      var file;
      o, file := PushChunk(b);
      if o.Stopped? { return; }
      // dd seeks in whole blocks of `mib` bytes
      var seek := off / mib;
      SeekAt(off, mib);
      var at := base + seek * mib;
      var range := disk[at..at + |b|];
      var result := link.dd(step, range, file);
      if Reliable() { ReliableLands(step, range, file); }
      ghost var before := disk[..];
      WriteRange(at, result);
      landed := result;
      OverwriteReads(before, at, landed);
      assert disk[at..at + |b|] == disk[..][at..at + |b|];
      o := ReadBackChunk(at, b, landed);
    }

    lemma ReliableLands(k: nat, range: Bytes, file: Bytes)
      requires Reliable() && |file| == |range|
      ensures link.dd(k, range, file) == file
    {
    }

    /** Pushes a chunk and compares it on the phone. */
    method PushChunk(b: Bytes) returns (o: Outcome, file: Bytes)
      modifies this`step
      ensures o.Pass? <==> link.succeeds(old(step) + 1) && ArrivedWhole(sha, link.push(old(step), b), b)
      ensures o.Pass? ==> step == old(step) + 2 && file == link.push(old(step), b).file && |file| == |b|
      ensures o.Stopped? ==> o.why == DeviceFailed
      ensures Reliable() ==> o.Pass? && file == b
    {
      var pushed := link.push(step, b);
      step := step + 1;
      file := [];
      if pushed.Refused? { return Stopped(DeviceFailed), file; }
      o := RemoteCommand();
      if o.Stopped? { return; }
      if sha(pushed.file) != sha(b) || |pushed.file| != |b| { return Stopped(DeviceFailed), file; }
      file := pushed.file;
    }

    /** The end of the write, the readback of what it left, and the clean-up. */
    method ReadBackChunk(at: nat, b: Bytes, ghost landed: Bytes) returns (o: Outcome)
      requires at + |b| <= disk.Length && landed == disk[at..at + |b|]
      modifies this`step
      ensures o.Pass? ==> sha(landed) == sha(b)
      ensures o.Pass? ==> step == old(step) + 3 && forall k :: old(step) <= k < step ==> link.succeeds(k)
      ensures o.Stopped? ==> o.why == DeviceFailed
      ensures Reliable() && landed == b ==> o.Pass?
    {
      o := RemoteCommand();
      if o.Stopped? { return; }
      var back := sha(disk[at..at + |b|]);
      o := RemoteCommand();
      if o.Stopped? { return; }
      if back != sha(b) { return Stopped(DeviceFailed); }
      o := RemoteCommand();
    }

    method WriteRange(at: nat, b: Bytes)
      requires at + |b| <= disk.Length
      modifies disk
      ensures disk[..] == Overwrite(old(disk[..]), at, b)
    {
      forall k | 0 <= k < |b| { disk[at + k] := b[k]; }
    }

    // ---- a whole stream ----

    /** Takes blocks until a whole chunk is buffered or the stream ends. */
    method Fill(s: Stream, i0: nat, buf0: Bytes, sent: nat, n: nat)
      returns (o: Outcome, i: nat, buf: Bytes, done: bool)
      requires i0 <= |s.blocks| && sent + |buf0| == |Flatten(s.blocks[..i0])| <= n
      ensures i0 <= i <= |s.blocks| && buf0 <= buf
      ensures Flatten(s.blocks[..i]) == Flatten(s.blocks[..i0]) + buf[|buf0|..]
      ensures sent + |buf| == |Flatten(s.blocks[..i])| <= n
      ensures |buf0| >= chunk ==> buf == buf0
      ensures o.Pass? && !done ==> |buf| >= chunk && (i > i0 || buf == buf0)
      ensures o.Pass? && done ==> i == |s.blocks| && !s.broken && |buf| < chunk
      ensures o.Stopped? ==> (o.why == StreamBroken && s.broken) || (o.why == StreamTooLong && |Flatten(s.blocks)| > n)
    {
      o, i, buf, done := Pass, i0, buf0, false;
      while |buf| < chunk
        invariant i0 <= i <= |s.blocks| && buf0 <= buf
        invariant Flatten(s.blocks[..i]) == Flatten(s.blocks[..i0]) + buf[|buf0|..]
        invariant sent + |buf| == |Flatten(s.blocks[..i])| <= n
        invariant i > i0 || buf == buf0
        invariant |buf0| >= chunk ==> buf == buf0
        decreases |s.blocks| - i
      {
        if i == |s.blocks| {
          if s.broken { return Stopped(StreamBroken), i, buf, done; }
          done := true;
          break;
        }
        var b := s.blocks[i];
        FlattenPiece(s.blocks, i, sent + |buf|);
        FlattenSnoc(s.blocks, i);
        if sent + |buf| + |b| > n { return Stopped(StreamTooLong), i, buf, done; }
        i, buf := i + 1, buf + b;
      }
    }

    /** The chunks a stream is re-cut into, each written and verified before the
        next is sent; `ps` says what was wanted and what landed. Whatever stops
        the run, all chunks but the one in flight have been verified. */
    method PushAll(base: nat, n: nat, s: Stream) returns (o: Outcome, ghost ps: seq<Piece>)
      requires Valid() && base + n <= disk.Length
      modifies this`step, this`log, disk
      ensures Sent(sha, chunk, s, n, base, old(disk[..]), disk[..], ps, o.Pass?)
      ensures Logged(old(log), log, mib, n)
      ensures o.Stopped? ==> o.why in {StreamTooLong, StreamTooShort, StreamBroken, DeviceFailed}
      ensures Reliable() && !s.broken && |Flatten(s.blocks)| == n ==> o.Pass?
    {
      hide Reliable, Going, Sent, Logged, Full, Flatten, Overwrite, LandedOf, WantedOf, Layout.Valid;
      ghost var d0, log0 := disk[..], log;
      ps := [];
      var sent: nat, buf: Bytes, i: nat, done := 0, [], 0, false;
      GoingStart(sha, chunk, s, n, base, d0);
      LoggedNone(log, mib, n);
      while !done
        invariant Going(sha, chunk, s, i, n, base, d0, disk[..], ps, sent, buf)
        invariant !done ==> sent % mib == 0 && Full(chunk, ps)
        invariant done ==> buf == [] && i == |s.blocks| && !s.broken
        invariant n < chunk && ps != [] ==> done
        invariant Logged(log0, log, mib, n)
        decreases |s.blocks| - i, |buf|, if done then 0 else 1
      {
        GoingCounts(sha, chunk, s, i, n, base, d0, disk[..], ps, sent, buf);
        ghost var i0, buf0 := i, buf;
        o, i, buf, done := Fill(s, i, buf, sent, n);
        GoingFilled(sha, chunk, s, i0, i, n, base, d0, disk[..], ps, sent, buf0, buf);
        if o.Stopped? {
          GoingStops(sha, chunk, s, i, n, base, d0, disk[..], ps, sent, buf);
          return o, ps;
        }
        if |buf| == 0 { break; }
        var cut := if |buf| < chunk then |buf| else chunk;
        ghost var d := disk[..];
        ghost var landed, logged := [], log;
        o, landed := WriteChunk(base, sent, buf[..cut]);
        LoggedMore(log0, logged, mib, n, sent, cut);
        ghost var p := Piece(buf[..cut], landed);
        ps := ps + [p];
        if o.Stopped? {
          ChunkStops(sha, chunk, s, i, n, base, d0, d, disk[..], ps[..|ps| - 1], p, sent, buf);
          return o, ps;
        }
        ChunkSent(sha, chunk, s, i, n, base, d0, d, disk[..], ps[..|ps| - 1], p, sent, buf);
        if !done { AlignedMore(sent, chunk, mib); }
        sent, buf := sent + cut, buf[cut..];
      }
      // the iterator ends only while less than a chunk is buffered, so nothing is left over
      assert buf == [];
      o := if sent != n then Stopped(StreamTooShort) else Pass;
      GoingEnds(sha, chunk, s, i, n, base, d0, disk[..], ps, sent);
    }

    /** One program over adb: a range outside the allowlist changes nothing, nor
        does a zeroed head of a mounted partition; any other is sent as far as
        `Sent` says, and on a link where nothing goes wrong exactly the payloads
        that fit are written. */
    method Program(r: Region, s: Stream) returns (o: Outcome, ghost ps: seq<Piece>)
      requires Valid()
      modifies this`step, this`log, disk
      ensures !Allowlisted(lay, r, wipe) ==> o == Stopped(PlanRefused) && disk[..] == old(disk[..]) && log == old(log)
      ensures ZeroOnly(lay, r, wipe) && link.mounted(old(step) + 1) ==> o.Stopped? && disk[..] == old(disk[..])
      ensures ZeroOnly(lay, r, wipe) && r.Size() < chunk && !AllZero(Flatten(s.blocks)) ==>
        o.Stopped? && disk[..] == old(disk[..])
      ensures Allowlisted(lay, r, wipe) ==> r.Within(disk.Length)
      ensures Allowlisted(lay, r, wipe) ==>
        && Sent(sha, chunk, Sendable(lay, r, wipe, s), r.Size(), r.Lo(), old(disk[..]), disk[..], ps, o.Pass?)
        && Logged(old(log), log, mib, r.Size())
      ensures Reliable() ==> (o.Pass? <==> Allowlisted(lay, r, wipe) && Deliverable(lay, r, wipe, s))
      ensures o.Pass? ==> step > 0 && link.succeeds(step - 1)
    {
      hide Allowlisted, Sent, Logged, ZeroOnly, Layout.Valid, Flatten, AllZero, ZerosOnly, Deliverable;
      ps := [];
      var name, zeroOnly;
      o, name, zeroOnly := CheckProgram(r);
      if o.Stopped? { return; }
      ghost var eff := Sendable(lay, r, wipe, s);
      SentNothing(sha, chunk, eff, r.Size(), r.Lo(), disk[..]);
      LoggedNone(log, mib, r.Size());
      DeliverableIs(lay, r, wipe, s);
      var stream := s;
      if zeroOnly {
        o := AssertUnmounted();
        if o.Stopped? { return; }
        stream := ZerosOnly(s);
      }
      o, ps := PushAll(r.Lo(), r.Size(), stream);
      if zeroOnly && r.Size() < chunk && !AllZero(Flatten(s.blocks)) {
        NonZeroWritesNothing(sha, chunk, s, r.Size(), r.Lo(), old(disk[..]), disk[..], ps, o.Pass?);
      }
      if o.Stopped? { return; }
      SentAnyway(sha, chunk, eff, r.Size(), r.Lo(), old(disk[..]), disk[..], ps);
      o := RemoteCommand();
    }

    method AssertUnmounted() returns (o: Outcome)
      modifies this`step
      ensures o.Stopped? ==> o.why == DeviceFailed
      ensures link.mounted(old(step) + 1) ==> o.Stopped?
      ensures Reliable() ==> o.Pass?
    {
      o := RemoteCommand();
      if o.Stopped? { return; }
      o := if link.mounted(step) then Stopped(DeviceFailed) else Pass;
    }

    /** The stream a program sends: for a zeroed head, only as long as it is all zeroes. */
    static function Sendable(lay: Layout, r: Region, wipe: bool, s: Stream): Stream {
      if ZeroOnly(lay, r, wipe) then ZerosOnly(s) else s
    }

    static ghost predicate Deliverable(lay: Layout, r: Region, wipe: bool, s: Stream) {
      && !s.broken && |Flatten(s.blocks)| == r.Size()
      && (ZeroOnly(lay, r, wipe) ==> AllZero(Flatten(s.blocks)))
    }

    static lemma DeliverableIs(lay: Layout, r: Region, wipe: bool, s: Stream)
      ensures var e := Sendable(lay, r, wipe, s);
        Deliverable(lay, r, wipe, s) <==> !e.broken && |Flatten(e.blocks)| == r.Size()
    {
      ZerosOnlyWhole(s);
    }
  }

  /** Writing back what a range holds changes nothing. */
  lemma OverwriteSame(d: Bytes, at: nat, n: nat)
    requires at + n <= |d|
    ensures Overwrite(d, at, d[at..at + n]) == d
  {
  }

  lemma OverwriteReads(d: Bytes, at: nat, p: Bytes)
    requires at + |p| <= |d|
    ensures Overwrite(d, at, p)[at..at + |p|] == p
  {
  }

  lemma SeekAt(off: nat, mib: nat)
    requires mib > 0 && off % mib == 0
    ensures off / mib * mib == off
  {
  }

  /** The chunked program refines the simple one: on the same disk with the same
      payload, cut into whatever blocks, both finishing leaves the same disk; and
      where nothing fails, both finish for every payload the range takes. */
  method ProgramBoth(simple: Device, adb: AdbDevice, r: Region, s: Stream, t: Stream)
    returns (o1: Outcome, o2: Outcome, ghost ps: seq<Piece>)
    requires simple.Valid() && simple.Faithful() && adb.Valid() && r.Within(simple.disk.Length)
    requires simple.disk != adb.disk && simple.disk[..] == adb.disk[..]
    requires Flatten(s.blocks) == Flatten(t.blocks)
    modifies simple, simple.disk, adb`step, adb`log, adb.disk
    ensures o1.Pass? && o2.Pass? && ChunksDoNotCollide(adb.sha, ps) ==> simple.disk[..] == adb.disk[..]
    ensures
      && old(simple.lifetime).Unlimited? && adb.Reliable()
      && AdbDevice.Allowlisted(adb.lay, r, adb.wipe) && AdbDevice.Deliverable(adb.lay, r, adb.wipe, t) && !s.broken
      ==> o1.Pass? && o2.Pass?
  {
    hide AdbDevice.Allowlisted, Sent, Logged, AdbDevice.ZeroOnly, Layout.Valid;
    ghost var d0 := simple.disk[..];
    ghost var left;
    o1, left := simple.Program(r, s);
    assert adb.disk[..] == d0;
    o2, ps := adb.Program(r, t);
    if o2.Pass? && ChunksDoNotCollide(adb.sha, ps) {
      ghost var eff := AdbDevice.Sendable(adb.lay, r, adb.wipe, t);
      SentIsProgrammed(adb.sha, adb.chunk, eff, r.Size(), r.Lo(), d0, adb.disk[..], ps);
      SentAnyway(adb.sha, adb.chunk, eff, r.Size(), r.Lo(), d0, adb.disk[..], ps);
      ZerosOnlyWhole(t);
    }
  }

  /** The loop's state: what the stream gave is what was sent plus the buffer. */
  ghost predicate Going(sha: Hash, chunk: nat, s: Stream, i: nat, n: nat, lo: nat, d0: Bytes, d: Bytes,
                        ps: seq<Piece>, sent: nat, buf: Bytes) {
    && i <= |s.blocks| && Flatten(s.blocks[..i]) == Flatten(WantedOf(ps)) + buf
    && sent == |Flatten(WantedOf(ps))| == |Flatten(LandedOf(ps))| && sent + |buf| <= n
    && Piled(d0, lo, n, ps, d) && Matched(sha, ps) && CutAt(chunk, ps)
  }

  /** What sending a stream amounts to, finished or stopped: the pieces are a
      prefix of the payload cut at whole chunks, what landed lies end to end in
      the range, and every piece but the one in flight is verified. A range
      shorter than a chunk is written only once the whole stream was seen. */
  ghost predicate Sent(sha: Hash, chunk: nat, s: Stream, n: nat, lo: nat, d0: Bytes, d: Bytes, ps: seq<Piece>,
                       done: bool) {
    && Piled(d0, lo, n, ps, d) && CutAt(chunk, ps) && Flatten(WantedOf(ps)) <= Flatten(s.blocks)
    && Matched(sha, if done || ps == [] then ps else ps[..|ps| - 1])
    && (done ==> !s.broken && Flatten(WantedOf(ps)) == Flatten(s.blocks) && |Flatten(s.blocks)| == n)
    && (n < chunk && ps != [] ==> !s.broken && Flatten(WantedOf(ps)) == Flatten(s.blocks))
  }

  lemma SentNothing(sha: Hash, chunk: nat, s: Stream, n: nat, lo: nat, d: Bytes)
    requires lo + n <= |d|
    ensures Sent(sha, chunk, s, n, lo, d, d, [], false)
  {
    assert WantedOf([]) == [] && LandedOf([]) == [];
  }

  lemma SentAnyway(sha: Hash, chunk: nat, s: Stream, n: nat, lo: nat, d0: Bytes, d: Bytes, ps: seq<Piece>)
    requires Sent(sha, chunk, s, n, lo, d0, d, ps, true)
    ensures Sent(sha, chunk, s, n, lo, d0, d, ps, false) && !s.broken && |Flatten(s.blocks)| == n
  {
  }

  // ---- what a program over adb guarantees ----

  /** No byte outside the range changes, however the program ends. */
  lemma SentFrame(sha: Hash, chunk: nat, s: Stream, r: Region, d0: Bytes, d: Bytes, ps: seq<Piece>, done: bool)
    requires r.Within(|d0|) && Sent(sha, chunk, s, r.Size(), r.Lo(), d0, d, ps, done)
    ensures SameOutside(d0, d, [r])
  {
    forall i | 0 <= i < |d| && forall k :: 0 <= k < 1 ==> ![r][k].Covers(i) ensures d[i] == d0[i] {
      assert ![r][0].Covers(i);
    }
  }

  /** So finished or stopped it is a program of the simple device too, which may
      leave anything in the range of a failed one: what holds after any trouble
      there holds over adb. */
  lemma SentFills(sha: Hash, chunk: nat, s: Stream, r: Region, d0: Bytes, d: Bytes, ps: seq<Piece>, done: bool)
      returns (left: Bytes)
    requires r.Within(|d0|) && Sent(sha, chunk, s, r.Size(), r.Lo(), d0, d, ps, done)
    ensures |left| == r.Size() && d == Overwrite(d0, r.Lo(), left)
    ensures done && ChunksDoNotCollide(sha, ps) ==> left == Flatten(s.blocks)
  {
    SentFrame(sha, chunk, s, r, d0, d, ps, done);
    left := Slice(d, r);
    if done && ChunksDoNotCollide(sha, ps) { SentIsProgrammed(sha, chunk, s, r.Size(), r.Lo(), d0, d, ps); }
    hide Sent;
    OnlyFilled(d0, d, r);
  }

  lemma OnlyFilled(d0: Bytes, d: Bytes, r: Region)
    requires r.Within(|d0|) && SameOutside(d0, d, [r])
    ensures d == Overwrite(d0, r.Lo(), Slice(d, r))
  {
    var s := Slice(d, r);
    forall i | 0 <= i < |d| ensures d[i] == Overwrite(d0, r.Lo(), s)[i] {
      if r.Lo() <= i < r.Hi() { assert s[i - r.Lo()] == d[i]; }
    }
  }

  /** A finished program has done what one plain write of the whole payload does,
      however its blocks were cut, unless some chunk collides with what landed. */
  lemma SentIsProgrammed(sha: Hash, chunk: nat, s: Stream, n: nat, lo: nat, d0: Bytes, d: Bytes, ps: seq<Piece>)
    requires Sent(sha, chunk, s, n, lo, d0, d, ps, true)
    requires ChunksDoNotCollide(sha, ps)
    ensures |Flatten(s.blocks)| == n && d == Overwrite(d0, lo, Flatten(s.blocks))
  {
    MatchedIsEqual(sha, ps);
  }

  /** A stopped program leaves a verified prefix of whole chunks, and beyond it
      has touched at most the one chunk in flight. */
  lemma SentPrefix(sha: Hash, chunk: nat, s: Stream, n: nat, lo: nat, d0: Bytes, d: Bytes, ps: seq<Piece>)
    requires Sent(sha, chunk, s, n, lo, d0, d, ps, false) && ps != []
    requires ChunksDoNotCollide(sha, ps[..|ps| - 1])
    ensures var at := |Flatten(WantedOf(ps[..|ps| - 1]))|; var last := ps[|ps| - 1].landed;
      && at + |last| <= n && at <= |Flatten(s.blocks)|
      && d == Overwrite(Overwrite(d0, lo, Flatten(s.blocks)[..at]), lo + at, last)
  {
    var front, p := ps[..|ps| - 1], ps[|ps| - 1];
    assert front + [p] == ps;
    PiecesSnoc(front, p);
    MatchedIsEqual(sha, front);
  }

  /** A zeroed head whose payload has a non-zero byte anywhere: nothing is
      written, because nothing is flushed before the whole stream was seen. */
  lemma NonZeroWritesNothing(sha: Hash, chunk: nat, s: Stream, n: nat, lo: nat, d0: Bytes, d: Bytes, ps: seq<Piece>,
                             done: bool)
    requires Sent(sha, chunk, ZerosOnly(s), n, lo, d0, d, ps, done)
    requires n < chunk && !AllZero(Flatten(s.blocks))
    ensures !done && ps == [] && d == d0
  {
    ZerosOnlyWhole(s);
    assert ps == [];
    assert LandedOf([]) == [];
  }

  /** Both zeroed heads of the phone are shorter than one chunk, so that holds of them. */
  lemma A6lHeadsAreShort()
    ensures MetadataHead(A6L).Size() < PUSH_CHUNK && UserdataZeroHead(A6L).Size() < PUSH_CHUNK
    ensures forall r :: AdbDevice.ZeroOnly(A6L, r, true) ==> r.Size() < PUSH_CHUNK
  {
  }

  /** Over any range, a zeroed head only ever wants zeroes on the disk. */
  lemma OnlyZeroesAreSent(sha: Hash, chunk: nat, s: Stream, n: nat, lo: nat, d0: Bytes, d: Bytes, ps: seq<Piece>,
                          done: bool)
    requires Sent(sha, chunk, ZerosOnly(s), n, lo, d0, d, ps, done)
    ensures AllZero(Flatten(WantedOf(ps)))
  {
    ZerosOnlyWhole(s);
  }

  lemma GoingStart(sha: Hash, chunk: nat, s: Stream, n: nat, lo: nat, d: Bytes)
    requires lo + n <= |d|
    ensures Going(sha, chunk, s, 0, n, lo, d, d, [], 0, []) && Full(chunk, [])
  {
    assert WantedOf([]) == [] && LandedOf([]) == [];
  }

  lemma GoingCounts(sha: Hash, chunk: nat, s: Stream, i: nat, n: nat, lo: nat, d0: Bytes, d: Bytes,
                    ps: seq<Piece>, sent: nat, buf: Bytes)
    requires Going(sha, chunk, s, i, n, lo, d0, d, ps, sent, buf)
    ensures i <= |s.blocks| && sent + |buf| == |Flatten(s.blocks[..i])| <= n
  {
  }

  lemma GoingFilled(sha: Hash, chunk: nat, s: Stream, i0: nat, i: nat, n: nat, lo: nat, d0: Bytes, d: Bytes,
                    ps: seq<Piece>, sent: nat, buf0: Bytes, buf: Bytes)
    requires Going(sha, chunk, s, i0, n, lo, d0, d, ps, sent, buf0)
    requires i <= |s.blocks| && buf0 <= buf && sent + |buf| <= n
    requires Flatten(s.blocks[..i]) == Flatten(s.blocks[..i0]) + buf[|buf0|..]
    ensures Going(sha, chunk, s, i, n, lo, d0, d, ps, sent, buf)
  {
    assert buf0 + buf[|buf0|..] == buf;
    assert Flatten(s.blocks[..i]) == Flatten(WantedOf(ps)) + buf;
  }

  lemma GoingStops(sha: Hash, chunk: nat, s: Stream, i: nat, n: nat, lo: nat, d0: Bytes, d: Bytes,
                   ps: seq<Piece>, sent: nat, buf: Bytes)
    requires Going(sha, chunk, s, i, n, lo, d0, d, ps, sent, buf) && (n < chunk ==> ps == [])
    ensures Sent(sha, chunk, s, n, lo, d0, d, ps, false)
  {
    FlattenPrefix(s.blocks, i);
  }

  lemma GoingEnds(sha: Hash, chunk: nat, s: Stream, i: nat, n: nat, lo: nat, d0: Bytes, d: Bytes,
                  ps: seq<Piece>, sent: nat)
    requires Going(sha, chunk, s, i, n, lo, d0, d, ps, sent, []) && i == |s.blocks| && !s.broken
    ensures Sent(sha, chunk, s, n, lo, d0, d, ps, sent == n) && sent == |Flatten(s.blocks)|
  {
    assert s.blocks[..i] == s.blocks;
  }

  lemma ChunkStops(sha: Hash, chunk: nat, s: Stream, i: nat, n: nat, lo: nat, d0: Bytes, d: Bytes, d': Bytes,
                   ps: seq<Piece>, p: Piece, sent: nat, buf: Bytes)
    requires Going(sha, chunk, s, i, n, lo, d0, d, ps, sent, buf) && Full(chunk, ps)
    requires 0 < |p.wanted| <= chunk && p.wanted <= buf && |p.landed| == |p.wanted|
    requires d' == Overwrite(d, lo + sent, p.landed)
    requires n < chunk ==> i == |s.blocks| && !s.broken && p.wanted == buf
    ensures Sent(sha, chunk, s, n, lo, d0, d', ps + [p], false)
  {
    FlattenPrefix(s.blocks, i);
    PiecesSnoc(ps, p);
    PiledMore(d0, lo, n, ps, d, p, d');
    CutMore(chunk, ps, p);
    assert (ps + [p])[..|ps|] == ps;
    assert Flatten(WantedOf(ps + [p])) <= Flatten(s.blocks[..i]);
    if n < chunk { assert s.blocks[..i] == s.blocks; }
  }

  lemma ChunkSent(sha: Hash, chunk: nat, s: Stream, i: nat, n: nat, lo: nat, d0: Bytes, d: Bytes, d': Bytes,
                  ps: seq<Piece>, p: Piece, sent: nat, buf: Bytes)
    requires Going(sha, chunk, s, i, n, lo, d0, d, ps, sent, buf) && Full(chunk, ps)
    requires 0 < |p.wanted| <= chunk && p.wanted <= buf
    requires |p.landed| == |p.wanted| && sha(p.landed) == sha(p.wanted)
    requires d' == Overwrite(d, lo + sent, p.landed)
    ensures Going(sha, chunk, s, i, n, lo, d0, d', ps + [p], sent + |p.wanted|, buf[|p.wanted|..])
    ensures |p.wanted| == chunk ==> Full(chunk, ps + [p])
  {
    PiecesSnoc(ps, p);
    PiledMore(d0, lo, n, ps, d, p, d');
    CutMore(chunk, ps, p);
    MatchedMore(sha, ps, p);
    assert p.wanted + buf[|p.wanted|..] == buf;
    assert Flatten(s.blocks[..i]) == Flatten(WantedOf(ps + [p])) + buf[|p.wanted|..];
  }

  lemma LoggedNone(log: seq<(nat, nat)>, mib: nat, n: nat)
    requires mib > 0
    ensures Logged(log, log, mib, n)
  {
  }

  lemma LoggedMore(log0: seq<(nat, nat)>, log: seq<(nat, nat)>, mib: nat, n: nat, off: nat, count: nat)
    requires mib > 0 && Logged(log0, log, mib, n) && off % mib == 0 && off + count <= n
    ensures Logged(log0, log + [(off, count)], mib, n)
  {
  }

  /** The disk is `d0` with what landed laid end to end from `lo` on. */
  ghost predicate Piled(d0: Bytes, lo: nat, n: nat, ps: seq<Piece>, d: Bytes) {
    && |Flatten(LandedOf(ps))| <= n && lo + n <= |d0|
    && d == Overwrite(d0, lo, Flatten(LandedOf(ps)))
  }

  ghost predicate Full(chunk: nat, ps: seq<Piece>) {
    forall k :: 0 <= k < |ps| ==> |ps[k].wanted| == chunk
  }

  /** Every chunk written since `log0` starts at a whole MiB and stays in the range. */
  ghost predicate Logged(log0: seq<(nat, nat)>, log: seq<(nat, nat)>, mib: nat, n: nat)
    requires mib > 0
  {
    && log0 <= log
    && forall k :: |log0| <= k < |log| ==> log[k].0 % mib == 0 && log[k].0 + log[k].1 <= n
  }

  lemma PiledMore(d0: Bytes, lo: nat, n: nat, ps: seq<Piece>, d: Bytes, p: Piece, d': Bytes)
    requires Piled(d0, lo, n, ps, d)
    requires |Flatten(LandedOf(ps))| + |p.landed| <= n
    requires d' == Overwrite(d, lo + |Flatten(LandedOf(ps))|, p.landed)
    ensures Piled(d0, lo, n, ps + [p], d')
  {
    PiecesSnoc(ps, p);
    var f := Flatten(LandedOf(ps));
    Extended(d0, lo, f + p.landed, |f|, p.landed, d') by {
      assert (f + p.landed)[..|f|] == f;
    }
    assert (f + p.landed)[..|f| + |p.landed|] == f + p.landed;
  }

  lemma CutMore(chunk: nat, ps: seq<Piece>, p: Piece)
    requires Full(chunk, ps) && 0 < |p.wanted| <= chunk
    ensures CutAt(chunk, ps + [p])
    ensures |p.wanted| == chunk ==> Full(chunk, ps + [p])
  {
  }

  lemma MatchedMore(sha: Hash, ps: seq<Piece>, p: Piece)
    requires Matched(sha, ps) && |p.landed| == |p.wanted| && sha(p.landed) == sha(p.wanted)
    ensures Matched(sha, ps + [p])
  {
  }

  lemma AlignedMore(sent: nat, chunk: nat, mib: nat)
    requires 0 < mib && sent % mib == 0 && chunk % mib == 0
    ensures (sent + chunk) % mib == 0
  {
    var a, b := sent / mib, chunk / mib;
    assert sent + chunk == (a + b) * mib;
    ModOfMultiple(a + b, mib);
  }

  lemma ModOfMultiple(k: int, m: nat)
    requires m > 0
    ensures k * m % m == 0
  {
    var x := k * m;
    var q, r := x / m, x % m;
    assert x == m * q + r;
    assert (k - q) * m == r;
    MultipleGrows(k - q, m);
  }

  lemma MultipleGrows(j: int, m: nat)
    requires m > 0
    ensures j >= 1 ==> j * m >= m
    ensures j <= -1 ==> j * m + m <= 0
  {
  }
}
