// Programming the recovery partition over Firehose (DiagnosticRecoveryProtocolV75U):
// one request, the payload in packets each closed by an empty one, one final
// answer. Nothing is ever sent twice, and the report is what remains when the
// outcome on the wire is ambiguous.

module Firehose {
  import opened Disk
  import opened Outcomes
  import opened Streams

  const RECOVERY_BYTES: nat := 67108864

  datatype Mode = InstallDiagnostic | RestoreStock | OtherMode(name: string)

  function Target(mode: Mode): (t: Digest) {
    match mode
    case InstallDiagnostic => "8ecb8e9e4c5289cfe63c23eb32b749178935a6588673cea3a1b1ebee3c94b304"
    case RestoreStock => "9688e3dfb349186fb60efc057a618aeaf696b030ad52974932ea83a077b31621"
    case OtherMode(_) => ""
  }

  /** One transfer ends with a byte count, or with an exception after some bytes. */
  datatype UsbResult = Returned(count: int) | Raised(accepted: nat)

  datatype Writer = Original | Strict

  datatype Transfer = Transfer(data: Bytes, result: UsbResult, via: Writer) {
    predicate Exact() { result == Returned(|data|) }

    function Accepted(): (b: Bytes)
      ensures b <= data && (Exact() ==> b == data)
    {
      var n := match result case Returned(c) => c case Raised(a) => a;
      if n < 0 then [] else if n < |data| then data[..n] else data
    }
  }

  /** An answer of the programmer, or an exception while waiting for it. */
  datatype Answer = NoAnswer | Answer(resp: bool, value: string, rawmode: string)

  /** The report fields later steps read. */
  datatype Report = Report(transferred: nat, attempted: bool, rawPending: bool, acked: bool, readbackVerified: bool,
    error: bool)

  /** The request is about to go out, or its outcome is unknown. */
  const OPEN_REPORT := Report(0, true, true, false, false, false)

  const FRESH_REPORT := Report(0, false, false, false, false, false)

  // ---- what is offered and what is taken ----

  /** The payload in packets of `chunk` bytes, each followed by an empty one. */
  function Packets(p: Bytes, chunk: nat): (ps: seq<Bytes>)
    requires chunk > 0
    decreases |p|
  {
    if p == [] then [] else [Front(p, chunk), []] + Packets(p[|Front(p, chunk)|..], chunk)
  }

  function Front(p: Bytes, chunk: nat): (f: Bytes)
    requires chunk > 0
    ensures f <= p && |f| <= chunk && (p != [] ==> f != []) && (f != p ==> |f| == chunk)
  {
    if |p| <= chunk then p else p[..chunk]
  }

  /** The packets are the payload, in order, with nothing between or repeated. */
  lemma {:induction false} PacketsJoin(p: Bytes, chunk: nat)
    requires chunk > 0
    ensures Joined(Packets(p, chunk)) == p
    ensures forall k :: 0 <= k < |Packets(p, chunk)| ==>
      |Packets(p, chunk)[k]| <= chunk && (k % 2 == 1 ==> Packets(p, chunk)[k] == [])
    ensures |Packets(p, chunk)| % 2 == 0 && FullButLast(Packets(p, chunk), chunk)
    decreases |p|
  {
    hide Front, Joined;
    if p == [] {
      JoinedNone();
    } else {
      var f := Front(p, chunk);
      PacketsJoin(p[|f|..], chunk);
      PacketsFirst(p, chunk);
      assert f == p ==> Packets(p[|f|..], chunk) == [];
      hide Packets;
      PacketPair(f, Packets(p[|f|..], chunk), chunk);
      assert f + p[|f|..] == p;
    }
  }

  /** Every second packet carries bytes: as many as fit, but for the last one. */
  ghost predicate FullButLast(ps: seq<Bytes>, chunk: nat) {
    forall k :: 0 <= k < |ps| && k % 2 == 0 ==> if k < |ps| - 2 then |ps[k]| == chunk else ps[k] != []
  }

  lemma JoinedNone()
    ensures Joined([]) == []
  {
  }

  lemma PacketsFirst(p: Bytes, chunk: nat)
    requires chunk > 0 && p != []
    ensures var f := Front(p, chunk); Packets(p, chunk) == [f, []] + Packets(p[|f|..], chunk)
  {
    hide Front;
  }

  /** A packet and the empty one behind it, in front of others. */
  lemma PacketPair(f: Bytes, rest: seq<Bytes>, chunk: nat)
    requires f != [] && |f| <= chunk && |rest| % 2 == 0 && FullButLast(rest, chunk) && (rest != [] ==> |f| == chunk)
    requires forall k :: 0 <= k < |rest| ==> |rest[k]| <= chunk && (k % 2 == 1 ==> rest[k] == [])
    ensures var all := [f, []] + rest;
      && Joined(all) == f + Joined(rest) && |all| % 2 == 0 && FullButLast(all, chunk)
      && forall k :: 0 <= k < |all| ==> |all[k]| <= chunk && (k % 2 == 1 ==> all[k] == [])
  {
    var all := [f, []] + rest;
    assert all[1..] == [[]] + rest && all[1..][1..] == rest;
    forall k | 0 <= k < |all| ensures |all[k]| <= chunk && (k % 2 == 1 ==> all[k] == []) {
      if k >= 2 { assert all[k] == rest[k - 2]; }
    }
  }

  function Joined(bs: seq<Bytes>): Bytes {
    if bs == [] then [] else bs[0] + Joined(bs[1..])
  }

  function DataOf(ts: seq<Transfer>): (ds: seq<Bytes>)
    ensures |ds| == |ts| && forall k :: 0 <= k < |ds| ==> ds[k] == ts[k].data
  {
    seq(|ts|, k requires 0 <= k < |ts| => ts[k].data)
  }

  /** All the bytes the phone took from these transfers. */
  function AcceptedOf(ts: seq<Transfer>): Bytes {
    if ts == [] then [] else AcceptedOf(ts[..|ts| - 1]) + ts[|ts| - 1].Accepted()
  }

  ghost predicate AllExact(ts: seq<Transfer>) { forall k :: 0 <= k < |ts| ==> ts[k].Exact() }

  ghost predicate AllStrict(ts: seq<Transfer>) { forall k :: 0 <= k < |ts| ==> ts[k].via == Strict }

  /** These transfers offered the given data in order, each at most once, and
      stopped at the first that was not taken exactly. */
  ghost predicate Offered(data: seq<Bytes>, ts: seq<Transfer>) {
    && DataOf(ts) <= data && AllStrict(ts)
    && forall k :: 0 <= k < |ts| - 1 ==> ts[k].Exact()
  }

  /** The part of an inexact last transfer the phone took all the same. */
  function ShortTail(ts: seq<Transfer>): Bytes {
    if ts == [] || ts[|ts| - 1].Exact() then [] else ts[|ts| - 1].Accepted()
  }

  /** The bytes the phone took are what the report counts plus a short tail. */
  ghost predicate Accounted(p: Bytes, ts: seq<Transfer>, transferred: nat) {
    && transferred <= |p| && AcceptedOf(ts) == p[..transferred] + ShortTail(ts)
    && ShortTail(ts) <= p[transferred..]
  }

  /** Everything was sent and taken. */
  ghost predicate Delivered(p: Bytes, chunk: nat, ts: seq<Transfer>, transferred: nat)
    requires chunk > 0
  {
    DataOf(ts) == Packets(p, chunk) && AllExact(ts) && AllStrict(ts) && transferred == |p|
  }

  lemma OfferMore(data: seq<Bytes>, ts: seq<Transfer>, t: Transfer)
    requires Offered(data, ts) && AllExact(ts) && t.via == Strict
    requires |ts| < |data| && data[|ts|] == t.data
    ensures Offered(data, ts + [t]) && DataOf(ts + [t]) == DataOf(ts) + [t.data]
    ensures t.Exact() ==> AllExact(ts + [t])
    ensures AcceptedOf(ts + [t]) == AcceptedOf(ts) + t.Accepted()
    ensures ShortTail(ts + [t]) == if t.Exact() then [] else t.Accepted()
  {
    hide Transfer.Exact, Transfer.Accepted, AcceptedOf, ShortTail;
    DataMore(ts, t);
    PrefixMore(DataOf(ts), data, t.data);
    TakenMore(ts, t);
    AllMore(ts, t);
  }

  lemma AllMore(ts: seq<Transfer>, t: Transfer)
    requires AllExact(ts) && AllStrict(ts) && t.via == Strict
    ensures AllStrict(ts + [t]) && (t.Exact() ==> AllExact(ts + [t]))
    ensures forall k :: 0 <= k < |ts + [t]| - 1 ==> (ts + [t])[k].Exact()
  {
    hide Transfer.Exact;
  }

  lemma PrefixMore(front: seq<Bytes>, data: seq<Bytes>, next: Bytes)
    requires front <= data && |front| < |data| && data[|front|] == next
    ensures front + [next] <= data
  {
  }

  lemma TakenMore(ts: seq<Transfer>, t: Transfer)
    ensures AcceptedOf(ts + [t]) == AcceptedOf(ts) + t.Accepted()
    ensures ShortTail(ts + [t]) == if t.Exact() then [] else t.Accepted()
  {
    assert (ts + [t])[..|ts|] == ts;
  }

  lemma DataMore(ts: seq<Transfer>, t: Transfer)
    ensures DataOf(ts + [t]) == DataOf(ts) + [t.data]
  {
  }

  // ---- the loop's state ----

  /** `ts` covers the first `off` bytes, every transfer exact; what is still to
      be offered are the packets of the rest. */
  ghost predicate Halfway(p: Bytes, chunk: nat, ts: seq<Transfer>, off: nat)
    requires chunk > 0
  {
    && off <= |p| && AllExact(ts) && AllStrict(ts)
    && DataOf(ts) + Packets(p[off..], chunk) == Packets(p, chunk)
    && AcceptedOf(ts) == p[..off]
  }

  lemma HalfwayOffered(p: Bytes, chunk: nat, ts: seq<Transfer>, off: nat)
    requires chunk > 0 && Halfway(p, chunk, ts, off)
    ensures Offered(Packets(p, chunk), ts) && Accounted(p, ts, off)
    ensures off == |p| ==> Delivered(p, chunk, ts, off)
  {
  }

  /** One packet: offered, and either taken exactly or stopping the transfer. */
  lemma PacketSent(p: Bytes, chunk: nat, ts: seq<Transfer>, off: nat, t: Transfer)
    requires chunk > 0 && Halfway(p, chunk, ts, off) && off < |p|
    requires t.data == Front(p[off..], chunk) && t.via == Strict
    ensures Offered(Packets(p, chunk), ts + [t])
    ensures !t.Exact() ==> Accounted(p, ts + [t], off)
    ensures t.Exact() ==> AllExact(ts + [t]) && Accounted(p, ts + [t], off + |t.data|)
  {
    NextPacket(p, chunk, ts, off);
    hide Packets, Offered, DataOf, AcceptedOf, ShortTail, Transfer.Exact, AllExact, AllStrict;
    HalfwayOffered(p, chunk, ts, off);
    hide Front;
    OfferMore(Packets(p, chunk), ts, t);
    hide Halfway;
    FrontTaken(p, off, t);
  }

  lemma FrontTaken(p: Bytes, off: nat, t: Transfer)
    requires off <= |p| && t.data <= p[off..]
    ensures off + |t.data| <= |p| && p[..off] + t.data == p[..off + |t.data|]
    ensures t.Accepted() <= p[off..]
  {
    hide Transfer.Exact;
    assert p[off..][..|t.data|] == p[off..off + |t.data|];
  }

  lemma NextPacket(p: Bytes, chunk: nat, ts: seq<Transfer>, off: nat)
    requires chunk > 0 && Halfway(p, chunk, ts, off) && off < |p|
    ensures |ts| < |Packets(p, chunk)| && Packets(p, chunk)[|ts|] == Front(p[off..], chunk)
  {
    hide AcceptedOf, AllExact, AllStrict, Packets, Front;
    PacketsStep(p, chunk, off);
    var f := Front(p[off..], chunk);
    assert (DataOf(ts) + ([f, []] + Packets(p[off + |f|..], chunk)))[|ts|] == f;
  }

  /** The empty packet behind it. */
  lemma BoundarySent(p: Bytes, chunk: nat, ts: seq<Transfer>, off: nat, t: Transfer, z: Transfer)
    requires chunk > 0 && Halfway(p, chunk, ts, off) && off < |p|
    requires t.data == Front(p[off..], chunk) && t.via == Strict && t.Exact()
    requires z.data == [] && z.via == Strict
    ensures Offered(Packets(p, chunk), ts + [t] + [z])
    ensures Accounted(p, ts + [t] + [z], off + |t.data|)
    ensures z.Exact() ==> Halfway(p, chunk, ts + [t] + [z], off + |t.data|)
  {
    hide Packets, Front, Offered, Accounted, AllExact, AllStrict, Transfer.Exact, AcceptedOf;
    PacketSent(p, chunk, ts, off, t);
    var next, rest := off + |t.data|, Packets(p[off..], chunk);
    PacketsStep(p, chunk, off);
    assert DataOf(ts) + rest == DataOf(ts + [t]) + [[]] + Packets(p[next..], chunk) by { DataMore(ts, t); }
    assert ts + [t] + [z] == (ts + [t]) + [z];
    BoundaryOffered(p, chunk, ts + [t], next, z, Packets(p[next..], chunk), DataOf(ts) + rest);
  }

  lemma PacketsStep(p: Bytes, chunk: nat, off: nat)
    requires chunk > 0 && off < |p|
    ensures var f := Front(p[off..], chunk); Packets(p[off..], chunk) == [f, []] + Packets(p[off + |f|..], chunk)
  {
    var f := Front(p[off..], chunk);
    assert p[off..][|f|..] == p[off + |f|..];
  }

  lemma BoundaryOffered(p: Bytes, chunk: nat, ts: seq<Transfer>, next: nat, z: Transfer, rest: seq<Bytes>,
                        all: seq<Bytes>)
    requires chunk > 0 && Packets(p, chunk) == all && Offered(all, ts) && AllExact(ts) && Accounted(p, ts, next)
    requires ts != [] && z.data == [] && z.via == Strict
    requires next <= |p| && rest == Packets(p[next..], chunk) && all == DataOf(ts) + [[]] + rest
    ensures Offered(all, ts + [z]) && Accounted(p, ts + [z], next)
    ensures z.Exact() ==> Halfway(p, chunk, ts + [z], next)
  {
    hide Packets, Joined;
    OfferMore(all, ts, z);
    assert ShortTail(ts) == [];
  }

  // ---- the report ----

  /** Raw mode is pending from the request on until the final acknowledgment;
      nothing here ever claims an independent readback. */
  ghost predicate Truthful(r: Report) {
    (r.rawPending <==> r.attempted && !r.acked) && !r.readbackVerified
  }

  /** Every saved report is truthful, and counts no more than the last one. */
  ghost predicate SavedTruthfully(saved0: seq<Report>, saved: seq<Report>, last: Report) {
    && saved0 <= saved
    && forall k :: |saved0| <= k < |saved| ==>
      Truthful(saved[k]) && saved[k].transferred <= last.transferred && (saved[k].acked ==> last.acked)
  }

  lemma NothingSaved(saved: seq<Report>, r: Report)
    ensures SavedTruthfully(saved, saved, r)
  {
  }

  /** The report moved on; saved or not, what was saved before is still true. */
  lemma SavedMore(saved0: seq<Report>, saved: seq<Report>, r: Report, next: Report)
    requires SavedTruthfully(saved0, saved, r) && Truthful(next)
    requires r.transferred <= next.transferred && (r.acked ==> next.acked)
    ensures SavedTruthfully(saved0, saved, next) && SavedTruthfully(saved0, saved + [next], next)
  {
  }

  /** The name in small letters, those of "emmc" at any rate. */
  function Lower(name: string): (low: string)
    ensures |low| == |name|
  {
    seq(|name|, i requires 0 <= i < |name| =>
      if 'A' <= name[i] <= 'Z' then name[i] - 'A' + 'a' else name[i])
  }

  lemma LowerIs(name: string)
    ensures Lower(name) == "emmc" <==> |name| == 4 && forall i :: 0 <= i < 4 ==> name[i] in {"emmc"[i], "EMMC"[i]}
  {
    var low := Lower(name);
    if |low| == 4 {
      assert low == "emmc" <==> low[0] == 'e' && low[1] == 'm' && low[2] == 'm' && low[3] == 'c';
    }
  }

  /** Truthful saves up to one point and from there on. */
  lemma SavedOn(saved0: seq<Report>, mid: seq<Report>, saved: seq<Report>, was: Report, r: Report)
    requires SavedTruthfully(saved0, mid, was) && SavedTruthfully(mid, saved, r)
    requires was.transferred <= r.transferred && (was.acked ==> r.acked)
    ensures SavedTruthfully(saved0, saved, r)
  {
    assert forall k :: 0 <= k < |mid| ==> saved[k] == mid[k];
  }

  lemma StillTruthful(r: Report, transferred: nat)
    requires Truthful(r)
    ensures Truthful(r.(transferred := transferred))
  {
  }

  /** A report saved since `saved0` says that the outcome is open. */
  ghost predicate OpenOnRecord(saved0: seq<Report>, saved: seq<Report>) {
    exists k :: |saved0| <= k < |saved| && Open(saved[k])
  }

  ghost predicate Open(r: Report) { r.attempted && r.rawPending }

  /** What a run leaves: what was asked, what was sent, and what the report says. */
  ghost predicate Trace(p: Bytes, chunk: nat, request: seq<Bytes>, asked: seq<Transfer>, sent: seq<Transfer>, r: Report)
    requires chunk > 0
  {
    && Offered(request, asked) && Offered(Packets(p, chunk), sent)
    && (sent != [] ==> DataOf(asked) == request && AllExact(asked))
    && (!r.attempted ==> asked == [])
    && Accounted(p, sent, r.transferred)
    && (r.acked ==> Delivered(p, chunk, sent, r.transferred))
    && Truthful(r)
  }

  /** The transfers from number `t` on take these packets exactly. */
  ghost predicate Taken(usb: (nat, Bytes) -> UsbResult, t: nat, data: seq<Bytes>) {
    forall k :: 0 <= k < |data| ==> usb(t + k, data[k]) == Returned(|data[k]|)
  }

  /** One more transfer, exact or not, of the offered packets. */
  lemma TakenOn(usb: (nat, Bytes) -> UsbResult, w: nat, ps: seq<Bytes>, ts: seq<Transfer>, t: Transfer)
    requires Offered(ps, ts + [t]) && Taken(usb, w, DataOf(ts)) && t.result == usb(w + |ts|, t.data)
    ensures if t.Exact() then Taken(usb, w, DataOf(ts + [t])) else !Taken(usb, w, ps)
  {
    var data := DataOf(ts + [t]);
    assert data[|ts|] == t.data && ps[|ts|] == t.data;
    if t.Exact() {
      forall k | 0 <= k < |data| ensures usb(w + k, data[k]) == Returned(|data[k]|) {
        assert k < |ts| ==> data[k] == DataOf(ts)[k];
      }
    }
  }

  lemma SavesOn(saves: nat -> bool, n: nat, done: nat, all: nat)
    requires Saves(saves, n, done) && done < all
    ensures if saves(n + done) then Saves(saves, n, done + 1) else !Saves(saves, n, all)
  {
  }

  /** The next `count` attempts at saving, from number `n` on, succeed. */
  ghost predicate Saves(saves: nat -> bool, n: nat, count: nat) {
    forall k :: n <= k < n + count ==> saves(k)
  }

  /** What the loop over the packets keeps: `ts` covers the first `off` bytes,
      exactly as the wire took them, and the report was saved after each packet. */
  ghost predicate Sending(p: Bytes, chunk: nat, usb: (nat, Bytes) -> UsbResult, saves: nat -> bool, w: nat, n: nat,
                          ts: seq<Transfer>, off: nat, tried: nat)
    requires chunk > 0
  {
    && Halfway(p, chunk, ts, off) && |ts| % 2 == 0 && tried == n + |ts| / 2
    && Taken(usb, w, DataOf(ts)) && Saves(saves, n, |ts| / 2)
  }

  lemma SendingStarts(p: Bytes, chunk: nat, usb: (nat, Bytes) -> UsbResult, saves: nat -> bool, w: nat, n: nat)
    requires chunk > 0
    ensures Sending(p, chunk, usb, saves, w, n, [], 0, n)
  {
    HalfwayStart(p, chunk);
  }

  lemma SendPacket(p: Bytes, chunk: nat, usb: (nat, Bytes) -> UsbResult, saves: nat -> bool, w: nat, n: nat,
                   ts: seq<Transfer>, off: nat, tried: nat, t: Transfer)
    requires chunk > 0 && Sending(p, chunk, usb, saves, w, n, ts, off, tried) && off < |p|
    requires t.data == Front(p[off..], chunk) && t.via == Strict && t.result == usb(w + |ts|, t.data)
    ensures Offered(Packets(p, chunk), ts + [t])
    ensures !t.Exact() ==> Accounted(p, ts + [t], off) && !Taken(usb, w, Packets(p, chunk))
    ensures t.Exact() ==> Accounted(p, ts + [t], off + |t.data|)
  {
    hide Packets, Offered, Accounted, Halfway, Front, Transfer.Exact, Taken, DataOf;
    PacketSent(p, chunk, ts, off, t);
    TakenOn(usb, w, Packets(p, chunk), ts, t);
  }

  lemma SendBoundary(p: Bytes, chunk: nat, usb: (nat, Bytes) -> UsbResult, saves: nat -> bool, w: nat, n: nat,
                     ts: seq<Transfer>, off: nat, tried: nat, t: Transfer, z: Transfer)
    requires chunk > 0 && Sending(p, chunk, usb, saves, w, n, ts, off, tried) && off < |p|
    requires t.data == Front(p[off..], chunk) && t.via == Strict && t.Exact() && t.result == usb(w + |ts|, t.data)
    requires z.data == [] && z.via == Strict && z.result == usb(w + |ts| + 1, [])
    ensures Offered(Packets(p, chunk), ts + [t] + [z]) && Accounted(p, ts + [t] + [z], off + |t.data|)
    ensures !z.Exact() ==> !Taken(usb, w, Packets(p, chunk))
    ensures z.Exact() ==>
      if saves(tried) then Sending(p, chunk, usb, saves, w, n, ts + [t] + [z], off + |t.data|, tried + 1)
      else !Saves(saves, n, |Packets(p, chunk)| / 2)
  {
    hide Packets, Accounted, Halfway, Front, Transfer.Exact, Taken, Saves;
    PacketSent(p, chunk, ts, off, t);
    TakenOn(usb, w, Packets(p, chunk), ts, t);
    BoundarySent(p, chunk, ts, off, t, z);
    TakenOn(usb, w, Packets(p, chunk), ts + [t], z);
    PacketsJoin(p, chunk);
    SavesOn(saves, n, |ts| / 2, |Packets(p, chunk)| / 2);
  }

  lemma SendingEnds(p: Bytes, chunk: nat, usb: (nat, Bytes) -> UsbResult, saves: nat -> bool, w: nat, n: nat,
                    ts: seq<Transfer>, tried: nat)
    requires chunk > 0 && Sending(p, chunk, usb, saves, w, n, ts, |p|, tried)
    ensures Offered(Packets(p, chunk), ts) && Accounted(p, ts, |p|) && Delivered(p, chunk, ts, |p|)
    ensures Taken(usb, w, Packets(p, chunk)) && Saves(saves, n, |Packets(p, chunk)| / 2)
    ensures |ts| == |Packets(p, chunk)| && tried == n + |ts| / 2
  {
    HalfwayOffered(p, chunk, ts, |p|);
  }

  lemma AskedAll(request: seq<Bytes>, asked: seq<Transfer>)
    requires DataOf(asked) == request
    ensures |asked| == |request|
  {
  }

  /** The saves of a run: of the pending request, of the answer, after each
      packet, of the last answer and of its acknowledgment. */
  lemma SavesInTurn(saves: nat -> bool, n: nat, packets: nat)
    ensures Saves(saves, n, 4 + packets) <==>
      saves(n) && saves(n + 1) && Saves(saves, n + 2, packets) && saves(n + 2 + packets) && saves(n + 3 + packets)
  {
  }

  class Link {
    const sha: Hash
    /** The result of each transfer, by its number. */
    const usb: (nat, Bytes) -> UsbResult
    /** What the library transfers to send the one request. */
    const request: seq<Bytes>
    const first: Answer
    const last: Answer
    /** Whether saving the report succeeds, by the number of the attempt. */
    const saves: nat -> bool
    const sectorSize: int
    const memoryName: string
    const chunk: int
    var writer: Writer
    var report: Report
    var saved: seq<Report>
    var attempts: nat
    var wire: seq<Transfer>

    constructor (sha: Hash, usb: (nat, Bytes) -> UsbResult, request: seq<Bytes>, first: Answer, last: Answer,
                 saves: nat -> bool, sectorSize: int, memoryName: string, chunk: int)
      ensures this.sha == sha && this.usb == usb && this.request == request && this.first == first && this.last == last
      ensures this.saves == saves && this.sectorSize == sectorSize && this.memoryName == memoryName
        && this.chunk == chunk
      ensures writer == Original && report == FRESH_REPORT && saved == [] && wire == []
    {
      this.sha, this.usb, this.request, this.first, this.last := sha, usb, request, first, last;
      this.saves, this.sectorSize, this.memoryName, this.chunk := saves, sectorSize, memoryName, chunk;
      this.writer, this.report, this.saved, this.attempts, this.wire := Original, FRESH_REPORT, [], 0, [];
    }

    predicate PayloadOk(p: Bytes, mode: Mode) {
      !mode.OtherMode? && |p| == RECOVERY_BYTES && sha(p) == Target(mode)
    }

    predicate GeometryOk() {
      sectorSize == 512 && Lower(memoryName) == "emmc" && 512 <= chunk <= 1048576 && chunk % 512 == 0
    }

    /** The one image of the mode, all 64 MiB of it, and the geometry of the phone. */
    ghost predicate Permitted(p: Bytes, mode: Mode) {
      && |p| == 64 * 1024 * 1024
      && sha(p) == (match mode
                    case InstallDiagnostic => "8ecb8e9e4c5289cfe63c23eb32b749178935a6588673cea3a1b1ebee3c94b304"
                    case RestoreStock => "9688e3dfb349186fb60efc057a618aeaf696b030ad52974932ea83a077b31621"
                    case OtherMode(_) => "")
      && !mode.OtherMode? && sectorSize == 512 && 512 <= chunk <= 1048576 && chunk % 512 == 0
      && |memoryName| == 4 && forall i :: 0 <= i < 4 ==> memoryName[i] in {"emmc"[i], "EMMC"[i]}
    }

    /** The programmer answers as it has to, and from transfer `t` on takes the
        request and the payload exactly; from attempt `n` on the report is saved. */
    ghost predicate Goes(p: Bytes, t: nat, n: nat)
      requires chunk > 0
    {
      && first.Answer? && first.resp && first.value == "ACK" && first.rawmode == "true"
      && last.Answer? && last.value == "ACK" && last.rawmode == "false"
      && Taken(usb, t, request) && Taken(usb, t + |request|, Packets(p, chunk))
      && Saves(saves, n, 4 + |Packets(p, chunk)| / 2)
    }

    lemma PermittedIs(p: Bytes, mode: Mode)
      ensures Permitted(p, mode) <==> PayloadOk(p, mode) && GeometryOk()
    {
      hide Lower;
      LowerIs(memoryName);
    }

    method Save() returns (o: Outcome)
      modifies this`saved, this`attempts
      ensures saved == if o.Pass? then old(saved) + [report] else old(saved)
      ensures attempts == old(attempts) + 1 && (o.Pass? <==> saves(old(attempts)))
    {
      o := if saves(attempts) then Pass else Stopped(CaptureFailed);
      if o.Pass? { saved := saved + [report]; }
      attempts := attempts + 1;
    }

    /** The installed writer. The strict one makes one transfer and fails unless
        it is taken exactly; the library's own takes any outcome for good. */
    method Write(data: Bytes) returns (o: Outcome, ghost t: Transfer)
      modifies this`wire
      ensures t.data == data && t.result == usb(|old(wire)|, data) && t.via == writer && wire == old(wire) + [t]
      ensures writer.Strict? ==> (o.Pass? <==> t.Exact())
    {
      var made := Transfer(data, usb(|wire|, data), writer);
      wire, t := wire + [made], made;
      o := if writer.Strict? && !made.Exact() then Stopped(DeviceFailed) else Pass;
    }

    method Ask() returns (o: Outcome, ghost asked: seq<Transfer>)
      requires writer.Strict?
      modifies this`wire
      ensures wire == old(wire) + asked && Offered(request, asked)
      ensures o.Pass? ==> DataOf(asked) == request && AllExact(asked)
      ensures o.Pass? <==> Taken(usb, |old(wire)|, request)
    {
      hide Transfer.Accepted, AcceptedOf, ShortTail;
      asked := [];
      for i := 0 to |request|
        invariant wire == old(wire) + asked && |asked| == i
        invariant Offered(request, asked) && AllExact(asked)
        invariant Taken(usb, |old(wire)|, request[..i])
      {
        ghost var t;
        o, t := Write(request[i]);
        OfferMore(request, asked, t);
        asked := asked + [t];
        if o.Stopped? { return; }
      }
      o := Pass;
    }

    /** Sends the packets, counting each only once it was taken exactly. */
    method SendPayload(p: Bytes) returns (o: Outcome, ghost sent: seq<Transfer>)
      requires writer.Strict? && GeometryOk() && Truthful(report) && report.transferred == 0 && !report.acked
      modifies this`wire, this`report, this`saved, this`attempts
      ensures wire == old(wire) + sent && Offered(Packets(p, chunk), sent)
      ensures report == old(report).(transferred := report.transferred) && Accounted(p, sent, report.transferred)
      ensures o.Pass? ==> Delivered(p, chunk, sent, report.transferred)
      ensures SavedTruthfully(old(saved), saved, report)
      ensures o.Pass? <==>
        Taken(usb, |old(wire)|, Packets(p, chunk)) && Saves(saves, old(attempts), |Packets(p, chunk)| / 2)
      ensures o.Pass? ==> |sent| == |Packets(p, chunk)| && attempts == old(attempts) + |sent| / 2
    {
      hide Packets, Offered, Accounted, Delivered, Front, Transfer.Exact, SavedTruthfully, Truthful, Taken, Saves,
           Sending;
      sent := [];
      var off: nat := 0;
      ghost var w, n := |wire|, attempts;
      SendingStarts(p, chunk, usb, saves, w, n);
      NothingSaved(saved, report);
      while off < |p|
        invariant off <= |p| && report == old(report).(transferred := off) && wire == old(wire) + sent
        invariant Sending(p, chunk, usb, saves, w, n, sent, off, attempts)
        invariant SavedTruthfully(old(saved), saved, report)
      {
        ghost var before := sent;
        ghost var t, z;
        var data := Front(p[off..], chunk);
        o, t := Write(data);
        SendPacket(p, chunk, usb, saves, w, n, before, off, attempts, t);
        sent := sent + [t];
        if o.Stopped? { return; }
        report := report.(transferred := off + |data|);
        StillTruthful(old(report), off + |data|);
        SavedMore(old(saved), saved, old(report).(transferred := off), report);
        o, z := Write([]);
        SendBoundary(p, chunk, usb, saves, w, n, before, off, attempts, t, z);
        sent := sent + [z];
        if o.Stopped? { return; }
        off := off + |data|;
        o := Save();
        if o.Stopped? { return; }
      }
      SendingEnds(p, chunk, usb, saves, w, n, sent, attempts);
      o := Pass;
    }

    /** Notes that the outcome is open, then asks for raw mode. */
    method Request() returns (o: Outcome, ghost asked: seq<Transfer>)
      requires writer.Strict? && report == FRESH_REPORT
      modifies this`wire, this`report, this`saved, this`attempts
      ensures wire == old(wire) + asked && Offered(request, asked) && report == OPEN_REPORT
      ensures SavedTruthfully(old(saved), saved, report)
      ensures asked != [] || o.Pass? ==> |old(saved)| < |saved| && saved[|old(saved)|] == report
      ensures o.Pass? ==> DataOf(asked) == request && AllExact(asked) && attempts == old(attempts) + 2
      ensures o.Pass? <==> && saves(old(attempts)) && saves(old(attempts) + 1) && Taken(usb, |old(wire)|, request)
                           && first.Answer? && first.resp && first.value == "ACK" && first.rawmode == "true"
    {
      hide Offered, DataOf, AllExact, Taken, SavedTruthfully;
      asked := [];
      NothingSent([], 1, request);
      NothingSaved(saved, OPEN_REPORT);
      report := report.(attempted := true, rawPending := true);
      SavedMore(old(saved), saved, report, report);
      o := Save();
      if o.Stopped? { return; }
      SavedMore(old(saved), saved, report, report);
      o, asked := Ask();
      if o.Stopped? { return; }
      if first.NoAnswer? { return Stopped(DeviceFailed), asked; }
      o := Save();
      if o.Stopped? { return; }
      if !first.resp || first.value != "ACK" || first.rawmode != "true" { return Stopped(DeviceFailed), asked; }
      o := Pass;
    }

    /** Waits for the last answer; only a right one closes the report. */
    method Conclude() returns (o: Outcome)
      requires Truthful(report) && report.attempted && !report.acked && !report.error
      modifies this`report, this`saved, this`attempts
      ensures report == if last.Answer? && saves(old(attempts)) && last.value == "ACK" && last.rawmode == "false"
        then old(report).(rawPending := false, acked := true) else old(report)
      ensures old(saved) <= saved && SavedTruthfully(old(saved), saved, report)
      ensures o.Pass? ==> saved != [] && saved[|saved| - 1] == report
      ensures o.Pass? <==> report.acked && saves(old(attempts) + 1)
    {
      if last.NoAnswer? { return Stopped(DeviceFailed); }
      o := Save();
      if o.Stopped? { return; }
      if last.value != "ACK" || last.rawmode != "false" { return Stopped(DeviceFailed); }
      report := report.(rawPending := false, acked := true);
      o := Save();
    }

    /** The guarded part: request, payload, final answer. */
    method Attempt(p: Bytes) returns (o: Outcome, ghost asked: seq<Transfer>, ghost sent: seq<Transfer>)
      requires writer.Strict? && GeometryOk() && report == FRESH_REPORT
      modifies this`wire, this`report, this`saved, this`attempts
      ensures wire == old(wire) + asked + sent && Trace(p, chunk, request, asked, sent, report)
      ensures (o.Pass? ==> report.acked) && !report.error
      ensures SavedTruthfully(old(saved), saved, report)
      ensures asked != [] || sent != [] ==> |old(saved)| < |saved| && Open(saved[|old(saved)|])
      ensures o.Pass? ==> saved != [] && saved[|saved| - 1] == report
      ensures sent != [] ==> Answered(first, "true") && first.resp
      ensures report.acked ==> Answered(last, "false")
      ensures o.Pass? <==> Goes(p, |old(wire)|, old(attempts))
    {
      hide Packets, Offered, Accounted, Delivered, Taken, Saves, AllExact, DataOf;
      ghost var before := saved;
      sent := [];
      NothingSent(p, chunk, request);
      SavesInTurn(saves, attempts, |Packets(p, chunk)| / 2);
      o, asked := Request();
      if o.Stopped? { return; }
      ghost var asking := saved;
      AskedAll(request, asked);
      o, sent := SendPayload(p);
      SavedOn(before, asking, saved, OPEN_REPORT, report);
      if o.Stopped? { return; }
      ghost var sending, counted := saved, report;
      o := Conclude();
      SavedOn(before, sending, saved, counted, report);
    }

    /** One programming run. The library's writer is back on every exit. */
    method ProgramRecovery(p: Bytes, mode: Mode)
      returns (o: Outcome, ghost asked: seq<Transfer>, ghost sent: seq<Transfer>)
      modifies this`writer, this`wire, this`report, this`saved, this`attempts
      ensures writer == old(writer)
      ensures !Permitted(p, mode) ==>
        o.Stopped? && wire == old(wire) && report == old(report) && saved == old(saved)
      ensures Permitted(p, mode) ==>
        && wire == old(wire) + asked + sent && Trace(p, chunk, request, asked, sent, report)
        && SavedTruthfully(old(saved), saved, report)
        && (asked != [] || sent != [] ==> OpenOnRecord(old(saved), saved))
        && (o.Pass? ==> saved != [] && saved[|saved| - 1] == report)
        && (sent != [] ==> Answered(first, "true") && first.resp)
        && (report.acked ==> Answered(last, "false"))
      ensures o.Pass? ==> report.acked && !report.error
      ensures o.Pass? <==>
        Permitted(p, mode) && saves(old(attempts)) && Goes(p, |old(wire)|, old(attempts) + 1)
    {
      hide Packets, Offered, Accounted, Delivered, Target, AllExact, DataOf, Goes, Permitted;
      asked, sent := [], [];
      PermittedIs(p, mode);
      if !PayloadOk(p, mode) { return Stopped(PayloadDiffers), asked, sent; }
      if !GeometryOk() { return Stopped(PolicyRefused), asked, sent; }
      NothingSent(p, chunk, request);
      report := FRESH_REPORT;
      o := Save();
      if o.Stopped? { return; }
      var original := writer;
      writer := Strict;
      ghost var mark := |saved|;
      o, asked, sent := Attempt(p);
      ghost var kept := saved;
      if o.Stopped? {
        report := report.(error := true);
        var ignored := Save();
      }
      writer := original;
      assert kept <= saved;
      if asked != [] || sent != [] { assert saved[mark] == kept[mark] && Open(saved[mark]); }
    }
  }

  ghost predicate Answered(a: Answer, rawmode: string) { a.Answer? && a.value == "ACK" && a.rawmode == rawmode }

  lemma HalfwayStart(p: Bytes, chunk: nat)
    requires chunk > 0
    ensures Halfway(p, chunk, [], 0)
  {
    assert p[0..] == p;
    assert DataOf([]) == [];
  }

  lemma NothingSent(p: Bytes, chunk: nat, request: seq<Bytes>)
    requires chunk > 0
    ensures Offered(request, []) && Offered(Packets(p, chunk), []) && Accounted(p, [], 0)
  {
    assert DataOf([]) == [];
  }

  /** A run that reports an acknowledged write has had the whole payload taken,
      in order and nothing else, with an empty packet after each packet. */
  lemma AcknowledgedIsWhole(p: Bytes, chunk: nat, request: seq<Bytes>, asked: seq<Transfer>, sent: seq<Transfer>,
                            r: Report)
    requires chunk > 0 && Trace(p, chunk, request, asked, sent, r) && r.acked
    ensures AcceptedOf(sent) == p == Joined(DataOf(sent)) && AllExact(sent)
    ensures |sent| % 2 == 0 && forall k :: 0 <= k < |sent| ==>
      |sent[k].data| <= chunk && (k % 2 == 1 ==> sent[k].data == [])
    ensures !r.rawPending
  {
    PacketsJoin(p, chunk);
    assert ShortTail(sent) == [];
  }
}
