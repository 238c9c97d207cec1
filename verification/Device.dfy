// The device every run talks to (RomFlashEngineV1.FileDevice): a disk that is
// read and programmed in place, with injected failures.
//
// `lifetime`, `torn` and `scar` generalise fail_program_at: the device may stop
// answering at any operation, having taken any prefix of its payload, and the
// range of a failed program may then hold anything. `warp` is what a faulty
// device does to the whole disk at each program, depending on all it was asked
// before; a faithful device does nothing.

module Devices {
  import opened Disk
  import opened Outcomes
  import opened Streams

  datatype PowerState = Off | Reset

  /** One entry of the device log. A read also records the bytes it answered. */
  datatype Event =
    | Read(region: Region, data: Bytes)
    | Program(region: Region)
    | Power(state: PowerState)

  /** How many more operations succeed. */
  datatype Budget = Unlimited | Left(n: nat) {
    predicate Spent() { Left? && n == 0 }

    function Tick(): Budget { if Left? && n > 0 then Left(n - 1) else this }
  }

  class Device {
    const disk: array<byte>
    const sha: Hash
    const warp: (seq<Event>, Bytes) -> Bytes
    const torn: nat
    const scar: (seq<Event>, Bytes) -> Bytes
    /** The adb transport hashes on the phone; FileDevice has no such operation. */
    const hashesOnDevice: bool
    var lifetime: Budget
    var log: seq<Event>

    constructor (disk: array<byte>, sha: Hash, warp: (seq<Event>, Bytes) -> Bytes, torn: nat,
                 scar: (seq<Event>, Bytes) -> Bytes, hashesOnDevice: bool, lifetime: Budget)
      ensures this.disk == disk && this.sha == sha && this.warp == warp && this.torn == torn && this.scar == scar
      ensures this.hashesOnDevice == hashesOnDevice && this.lifetime == lifetime && log == []
    {
      this.disk, this.sha, this.warp, this.torn, this.scar := disk, sha, warp, torn, scar;
      this.hashesOnDevice, this.lifetime, this.log := hashesOnDevice, lifetime, [];
    }

    /** Whatever it does, a device keeps its size. */
    ghost predicate Valid() { SizeKept(warp) && SizeKept(scar) }

    ghost predicate Faithful() { forall log, d :: warp(log, d) == d }

    /** Reads never change the disk and are answered truthfully. */
    method Read(r: Region) returns (o: Outcome, data: Bytes)
      modifies this
      ensures log == old(log) + [Event.Read(r, data)]
      ensures o.Pass? ==> r.Within(disk.Length) && data == Slice(disk[..], r)
      ensures o.Stopped? ==> o.why == DeviceFailed
      ensures old(lifetime).Unlimited? ==> lifetime.Unlimited? && (o.Pass? <==> r.Within(disk.Length))
    {
      data := [];
      var dying := lifetime.Spent();
      lifetime := lifetime.Tick();
      if !r.Within(disk.Length) {
        log := log + [Event.Read(r, data)];
        return Stopped(DeviceFailed), data;
      }
      data := disk[r.Lo()..r.Hi()];
      if dying {
        data := data[..if torn < |data| then torn else |data|];
        log := log + [Event.Read(r, data)];
        return Stopped(DeviceFailed), data;
      }
      log := log + [Event.Read(r, data)];
      o := Pass;
    }

    /** Writes the blocks in order from `at` on, never past `room` bytes.
        Returns how many bytes reached the disk. */
    method Transfer(at: nat, room: nat, s: Stream, dying: bool) returns (o: Outcome, written: nat)
      requires at + room <= disk.Length
      modifies disk
      ensures written <= room && written <= |Flatten(s.blocks)|
      ensures Landed(old(disk[..]), at, Flatten(s.blocks), written, disk[..])
      ensures o.Pass? ==> written == room == |Flatten(s.blocks)| && !s.broken && !dying
      ensures !dying && !s.broken && |Flatten(s.blocks)| == room ==> o.Pass?
      ensures o.Stopped? ==> o.why in {StreamTooLong, StreamTooShort, StreamBroken, DeviceFailed}
    {
      hide Landed;
      var left: nat, quota: nat := room, torn;
      ghost var d0, payload := disk[..], Flatten(s.blocks);
      written := 0;
      NothingLanded(d0, at, payload);
      for i := 0 to |s.blocks|
        invariant left + written == room && written == |Flatten(s.blocks[..i])|
        invariant Landed(d0, at, payload, written, disk[..])
      {
        var b := s.blocks[i];
        FlattenPiece(s.blocks, i, written);
        if |b| > left { return Stopped(StreamTooLong), written; }
        if dying && quota < |b| {
          SliceHead(payload, written, written + |b|, quota);
          WriteNext(d0, at, payload, written, b[..quota]);
          return Stopped(DeviceFailed), written + quota;
        }
        WriteNext(d0, at, payload, written, b);
        written, left := written + |b|, left - |b|;
        quota := if quota < |b| then 0 else quota - |b|;
      }
      assert s.blocks[..|s.blocks|] == s.blocks;
      if dying { return Stopped(DeviceFailed), written; }
      if s.broken { return Stopped(StreamBroken), written; }
      if left > 0 { return Stopped(StreamTooShort), written; }
      o := Pass;
    }

    method WriteNext(ghost d0: Bytes, at: nat, ghost payload: Bytes, written: nat, b: Bytes)
      requires at + written + |b| <= disk.Length
      requires Landed(d0, at, payload, written, disk[..])
      requires written + |b| <= |payload| && payload[written..written + |b|] == b
      modifies disk
      ensures Landed(d0, at, payload, written + |b|, disk[..])
    {
      WriteBlock(at + written, b);
      Extended(d0, at, payload, written, b, disk[..]);
    }

    method WriteBlock(at: nat, b: Bytes)
      requires at + |b| <= disk.Length
      modifies disk
      ensures disk[..] == Overwrite(old(disk[..]), at, b)
    {
      forall k | 0 <= k < |b| { disk[at + k] := b[k]; }
    }

    /** One program: the payload fills `r`; a failed one leaves anything there. A
        faulty device then disturbs the disk. */
    method Program(r: Region, s: Stream) returns (o: Outcome, ghost left: Bytes)
      requires Valid() && r.Within(disk.Length)
      modifies this, disk
      ensures log == old(log) + [Event.Program(r)]
      ensures |left| == r.Size() && disk[..] == warp(log, Overwrite(old(disk[..]), r.Lo(), left))
      ensures o.Pass? ==> left == Flatten(s.blocks) && !s.broken
      ensures o.Stopped? ==> o.why in {StreamTooLong, StreamTooShort, StreamBroken, DeviceFailed}
      ensures old(lifetime).Unlimited? ==> lifetime.Unlimited?
      ensures old(lifetime).Unlimited? && !s.broken && |Flatten(s.blocks)| == r.Size() ==> o.Pass?
    {
      var dying := lifetime.Spent();
      ghost var d0 := disk[..];
      log := log + [Event.Program(r)];
      lifetime := lifetime.Tick();
      var n;
      o, n := Transfer(r.Lo(), r.Size(), s, dying);
      Refilled(d0, r, Flatten(s.blocks)[..n]);
      left := Slice(disk[..], r);
      if o.Stopped? {
        var scarred := scar(log, disk[r.Lo()..r.Hi()]);
        WriteBlock(r.Lo(), scarred);
        Rewritten(d0, r, left, scarred);
        left := scarred;
      }
      var disturbed := warp(log, disk[..]);
      forall k | 0 <= k < disk.Length { disk[k] := disturbed[k]; }
      assert disk[..] == disturbed;
    }

    method PowerTo(state: PowerState) returns (o: Outcome)
      modifies this
      ensures log == old(log) + [Power(state)]
      ensures o.Stopped? ==> o.why == DeviceFailed
      ensures old(lifetime).Unlimited? ==> lifetime.Unlimited? && o.Pass?
    {
      var dying := lifetime.Spent();
      log := log + [Power(state)];
      lifetime := lifetime.Tick();
      o := if dying then Stopped(DeviceFailed) else Pass;
    }
  }

  /** Neither a fault nor a failure changes how many bytes there are. */
  ghost predicate SizeKept(f: (seq<Event>, Bytes) -> Bytes) { forall log, d :: |f(log, d)| == |d| }

  /** Bytes at the start of a range change nothing but the range. */
  lemma Refilled(d: Bytes, r: Region, p: Bytes)
    requires r.Within(|d|) && |p| <= r.Size()
    ensures var e := Overwrite(d, r.Lo(), p); e == Overwrite(d, r.Lo(), Slice(e, r))
    ensures |p| == r.Size() ==> Slice(Overwrite(d, r.Lo(), p), r) == p
  {
    var e := Overwrite(d, r.Lo(), p);
    assert forall i :: r.Lo() <= i < r.Hi() ==> Slice(e, r)[i - r.Lo()] == e[i];
  }

  /** Of two fillings of a range the second stays. */
  lemma Rewritten(d: Bytes, r: Region, p: Bytes, q: Bytes)
    requires r.Within(|d|) && |p| == |q| == r.Size()
    ensures Overwrite(Overwrite(d, r.Lo(), p), r.Lo(), q) == Overwrite(d, r.Lo(), q)
  {
  }

  /** The first `written` bytes of the payload are on the disk, and nothing else changed. */
  ghost predicate Landed(d0: Bytes, at: nat, payload: Bytes, written: nat, d: Bytes) {
    && written <= |payload| && at + written <= |d0|
    && d == Overwrite(d0, at, payload[..written])
  }

  lemma NothingLanded(d: Bytes, at: nat, payload: Bytes)
    requires at <= |d|
    ensures Landed(d, at, payload, 0, d)
  {
  }

  /** A block written behind the bytes already there extends the written prefix. */
  lemma Extended(d0: Bytes, at: nat, payload: Bytes, written: nat, b: Bytes, d: Bytes)
    requires at + written + |b| <= |d0| && written + |b| <= |payload|
    requires payload[written..written + |b|] == b
    requires d == Overwrite(Overwrite(d0, at, payload[..written]), at + written, b)
    ensures d == Overwrite(d0, at, payload[..written + |b|])
  {
    forall i | 0 <= i < |d| ensures d[i] == Overwrite(d0, at, payload[..written + |b|])[i] {
      if at + written <= i < at + written + |b| {
        assert payload[written..written + |b|][i - at - written] == payload[i - at];
      }
    }
  }
}
