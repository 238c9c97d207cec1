// The write loop and the readback loop every run shares, and what a stopped
// run leaves behind: a disk and a saved report from which the old contents can
// still be told apart (the loops of run_update, run_rollback, run_install and
// run_restore).

module Orders {
  import opened Options
  import opened Disk
  import opened Outcomes
  import opened Layout
  import opened UpdateLayout
  import opened Streams
  import opened Devices
  import opened Sessions

  /** One planned program with its payload (a file, or zeroes) and the digest
      its readback must have. */
  datatype Order = Order(tag: Label, region: Region, payload: Bytes, zeroes: bool, expected: Digest)

  /** The update engine checks each write again right before it is sent. */
  datatype Guard = Unguarded | Guarded(wipe: bool)

  function WriteOf(o: Order): Write { Write(o.tag, o.region) }

  function Patches(orders: seq<Order>): (ps: seq<Patch>)
    ensures |ps| == |orders| && forall k :: 0 <= k < |ps| ==> ps[k] == Patch(orders[k].region, orders[k].payload)
  {
    seq(|orders|, k requires 0 <= k < |orders| => Patch(orders[k].region, orders[k].payload))
  }

  function OrderRegions(orders: seq<Order>): (rs: seq<Region>)
    ensures |rs| == |orders| && forall k :: 0 <= k < |rs| ==> rs[k] == orders[k].region
  {
    seq(|orders|, k requires 0 <= k < |orders| => orders[k].region)
  }

  function Programs(orders: seq<Order>): (es: seq<Event>)
    ensures |es| == |orders| && forall k :: 0 <= k < |es| ==> es[k] == Event.Program(orders[k].region)
  {
    seq(|orders|, k requires 0 <= k < |orders| => Event.Program(orders[k].region))
  }

  ghost predicate OrderFits(o: Order, bytes: int) {
    && o.region.Within(bytes) && |o.payload| == o.region.Size()
    && (o.zeroes ==> o.payload == Zeros(o.region.Size()))
  }

  ghost predicate OrdersFit(orders: seq<Order>, bytes: int) {
    forall k :: 0 <= k < |orders| ==> OrderFits(orders[k], bytes)
  }

  // ---- what must stay true so that a rollback can decide ----

  /** The journal entry of partition `n` describes a program of its head. */
  ghost predicate HeadEntry(lay: Layout, n: PartName, e: WriteEntry) {
    e.attempted && e.region.start == lay.Start(n) && 0 < e.region.sectors <= lay.Sectors(n)
  }

  /** Partition `n` still has its old bytes, or the journal says a program of it
      was begun and either not verified, or verified and still there. */
  ghost predicate Accounted(lay: Layout, sha: Hash, d0: Bytes, d: Bytes, j: Journal, n: PartName)
    requires lay.Valid() && |d0| == |d| == lay.diskBytes
  {
    assert lay.parts(n).Within(lay.diskBytes);
    || Slice(d, lay.parts(n)) == Slice(d0, lay.parts(n))
    || (&& Part(n) in j.writes
        && HeadEntry(lay, n, j.writes[Part(n)])
        && (!j.writes[Part(n)].verified || sha(Slice(d, j.writes[Part(n)].region)) == j.writes[Part(n)].expected))
  }

  ghost predicate Undoable(lay: Layout, sha: Hash, d0: Bytes, d: Bytes, j: Journal)
    requires lay.Valid() && |d0| == |d| == lay.diskBytes
  {
    forall n :: Updatable(n) ==> Accounted(lay, sha, d0, d, j, n)
  }

  /** Memory and disk agree on how the run was called; both account for every byte. */
  ghost predicate Safe(lay: Layout, sha: Hash, d0: Bytes, s: Snap)
    requires lay.Valid() && |d0| == |s.disk| == lay.diskBytes
  {
    && Undoable(lay, sha, d0, s.disk, s.report.journal)
    && s.capture.report.Some?
    && Undoable(lay, sha, d0, s.disk, s.capture.report.value.journal)
    && s.capture.report.value.journal.mode == s.report.journal.mode
    && s.capture.report.value.journal.wipeData == s.report.journal.wipeData
  }

  /** Programming the head of one partition whose attempt is on record keeps
      the account of all four. */
  lemma ProgramKeepsUndoable(lay: Layout, sha: Hash, d0: Bytes, d1: Bytes, d2: Bytes, j: Journal, w: Write,
                             expected: Digest)
    requires lay.Valid() && |d0| == |d1| == lay.diskBytes
    requires IsImageWrite(lay, w) && SameOutside(d1, d2, [w.region])
    requires Undoable(lay, sha, d0, d1, j)
    ensures Undoable(lay, sha, d0, d2, Attempted(j, w.tag, w.region, expected))
  {
    var j2 := Attempted(j, w.tag, w.region, expected);
    forall n | Updatable(n) ensures Accounted(lay, sha, d0, d2, j2, n) {
      if n != w.tag.name {
        assert Accounted(lay, sha, d0, d1, j, n);
        OtherPartUntouched(lay, d1, d2, w, n);
        if Part(n) in j.writes && HeadEntry(lay, n, j.writes[Part(n)]) {
          SliceInside(d1, d2, lay.parts(n), j.writes[Part(n)].region);
        }
      }
    }
  }

  lemma OtherPartUntouched(lay: Layout, d1: Bytes, d2: Bytes, w: Write, n: PartName)
    requires lay.Valid() && |d1| == lay.diskBytes
    requires IsImageWrite(lay, w) && n != w.tag.name && SameOutside(d1, d2, [w.region])
    ensures lay.parts(n).Within(lay.diskBytes) && Slice(d2, lay.parts(n)) == Slice(d1, lay.parts(n))
  {
    InsideDisjoint(lay, w.region, lay.parts(n), w.tag.name, n);
    assert lay.parts(n).Within(lay.diskBytes);
    SliceUntouched(d1, d2, [w.region], lay.parts(n));
  }

  /** Noting a verified readback is justified by the bytes just read. */
  lemma VerifyKeepsUndoable(lay: Layout, sha: Hash, d0: Bytes, d: Bytes, j: Journal, tag: Label, ok: bool)
    requires lay.Valid() && |d0| == |d| == lay.diskBytes
    requires Undoable(lay, sha, d0, d, j) && tag in j.writes
    requires ok ==> j.writes[tag].region.Within(|d|) && sha(Slice(d, j.writes[tag].region)) == j.writes[tag].expected
    ensures Undoable(lay, sha, d0, d, Verified(j, tag, ok))
  {
    var j2 := Verified(j, tag, ok);
    forall n | Updatable(n) ensures Accounted(lay, sha, d0, d, j2, n) {
      assert Accounted(lay, sha, d0, d, j, n);
    }
  }

  /** Nothing about how the run was called or what it claims has changed, in
      memory or in the saved report. */
  ghost predicate SameRun(a: Snap, b: Snap) {
    && b.capture.manifest == a.capture.manifest && KeepsFiles(a.capture.files, b.capture.files)
    && b.report.journal.mode == a.report.journal.mode && b.report.journal.wipeData == a.report.journal.wipeData
    && SameClaims(a.report, b.report)
    && (b.capture.report == a.capture.report
      || (b.capture.report.Some? && SameClaims(b.capture.report.value, a.report)))
  }

  lemma SameRunTrans(a: Snap, b: Snap, c: Snap)
    requires SameRun(a, b) && SameRun(b, c)
    ensures SameRun(a, c)
  {
  }

  // ---- the write loop ----

  method StreamOf(order: Order) returns (s: Stream)
    requires order.zeroes ==> order.payload == Zeros(|order.payload|)
    ensures !s.broken && Flatten(s.blocks) == order.payload
  {
    if order.zeroes {
      s := ZeroStream(|order.payload|);
    } else {
      s := FileStream(order.payload, |order.payload|);
      assert order.payload[..|order.payload|] == order.payload;
    }
  }

  ghost predicate GuardAccepts(lay: Layout, guard: Guard, order: Order) {
    guard.Guarded? ==> WriteAllowed(lay, WriteOf(order), guard.wipe)
  }

  /** What one program attempt may do to the session. `sent` says whether it
      reached the device at all; only a faithful device makes promises about
      the rest of the disk. */
  ghost predicate OneStep(lay: Layout, sha: Hash, faithful: bool, d0: Bytes, order: Order, guard: Guard,
                          a: Snap, b: Snap, sent: bool, o: Outcome)
    requires lay.Valid() && |a.disk| == |b.disk| == |d0| == lay.diskBytes && OrderFits(order, |d0|)
  {
    && SameRun(a, b) && b.capture.files == a.capture.files
    && b.log == a.log + (if sent then [Event.Program(order.region)] else [])
    && (sent ==> GuardAccepts(lay, guard, order))
    && (!sent ==> b.disk == a.disk)
    && (o.Pass? ==> sent && b.report.journal == Attempted(a.report.journal, order.tag, order.region, order.expected))
    && (faithful ==> SameOutside(a.disk, b.disk, [order.region]))
    && (faithful && o.Pass? ==> b.disk == Overwrite(a.disk, order.region.Lo(), order.payload))
    && (faithful && IsImageWrite(lay, WriteOf(order)) && Safe(lay, sha, d0, a) ==> Safe(lay, sha, d0, b))
    && (o.Stopped? ==> o.why !in {ReadbackDiffers, ProtectedChanged})
  }

  /** The guard, run again on the one range about to be sent. */
  method CheckGuard(lay: Layout, order: Order, guard: Guard) returns (o: Outcome)
    requires lay.Valid()
    ensures o.Pass? <==> GuardAccepts(lay, guard, order)
    ensures o.Stopped? ==> o.why == PlanRefused
  {
    hide Layout.Valid, IsImageWrite;
    o := Pass;
    if guard.Guarded? {
      var ws := [Write(order.tag, order.region)];
      o := CheckUpdatePlan(lay, ws, guard.wipe);
      assert PlanAllowed(lay, ws, guard.wipe) <==> WriteAllowed(lay, ws[0], guard.wipe);
    }
  }

  /** One guarded program. */
  method ProgramOne(s: Session, lay: Layout, order: Order, guard: Guard, ghost d0: Bytes)
      returns (o: Outcome, ghost sent: bool)
    requires s.dev.Valid() && lay.Valid() && lay.diskBytes == s.dev.disk.Length == |d0|
    requires OrderFits(order, s.dev.disk.Length)
    modifies s, s.dev, s.dev.disk
    ensures OneStep(lay, s.dev.sha, s.dev.Faithful(), d0, order, guard, old(s.Now()), s.Now(), sent, o)
    ensures o.Pass? ==>
      s.dev.disk[..] == s.dev.warp(s.dev.log, Overwrite(old(s.dev.disk[..]), order.region.Lo(), order.payload))
    ensures old(s.Tireless()) ==> s.Tireless() && (GuardAccepts(lay, guard, order) ==> o.Pass?)
  {
    hide Layout.Valid, GuardAccepts, Undoable, IsImageWrite, SameOutside;
    sent := false;
    ghost var a := s.Now();
    SameOutsideRefl(a.disk, [order.region]);
    o := CheckGuard(lay, order, guard);
    if o.Stopped? { return; }
    var stream := StreamOf(order);
    ghost var left;
    o, left := s.Program(order.tag, order.region, stream, order.expected);
    sent := s.dev.log != a.log;
    assert s.dev.Faithful() ==> SameOutside(a.disk, s.dev.disk[..], [order.region]) by {
      if s.dev.Faithful() && sent { OverwriteSameOutside(a.disk, order.region, left); }
    }
    if s.dev.Faithful() && IsImageWrite(lay, WriteOf(order)) && Safe(lay, s.dev.sha, d0, a) {
      ProgramKeepsUndoable(lay, s.dev.sha, d0, a.disk, s.dev.disk[..], a.report.journal, WriteOf(order),
        order.expected);
    }
  }

  lemma OverwriteSameOutside(d: Bytes, r: Region, p: Bytes)
    requires r.Within(|d|) && |p| <= r.Size()
    ensures SameOutside(d, Overwrite(d, r.Lo(), p), [r])
  {
    forall i | 0 <= i < |d| && forall k :: 0 <= k < 1 ==> ![r][k].Covers(i)
      ensures Overwrite(d, r.Lo(), p)[i] == d[i]
    {
      assert ![r][0].Covers(i);
    }
  }

  /** The disk after the first `i` programs were done by a device that was asked
      `log0` before, whatever else it does to the disk each time. */
  ghost function AfterPrograms(warp: (seq<Event>, Bytes) -> Bytes, log0: seq<Event>, d0: Bytes, orders: seq<Order>,
                               i: nat): (d: Bytes)
    requires SizeKept(warp) && OrdersFit(orders, |d0|) && i <= |orders|
    ensures |d| == |d0|
  {
    if i == 0 then d0
    else
      var d, order := AfterPrograms(warp, log0, d0, orders, i - 1), orders[i - 1];
      warp(log0 + Programs(orders[..i]), Overwrite(d, order.region.Lo(), order.payload))
  }

  lemma NoneAfter(warp: (seq<Event>, Bytes) -> Bytes, log0: seq<Event>, d0: Bytes, orders: seq<Order>)
    requires SizeKept(warp) && OrdersFit(orders, |d0|)
    ensures AfterPrograms(warp, log0, d0, orders, 0) == d0
  {
  }

  lemma OneMoreAfter(warp: (seq<Event>, Bytes) -> Bytes, log0: seq<Event>, d0: Bytes, orders: seq<Order>, i: nat)
    requires SizeKept(warp) && OrdersFit(orders, |d0|) && i < |orders|
    ensures OrderFits(orders[i], |d0|)
    ensures AfterPrograms(warp, log0, d0, orders, i + 1)
         == warp(log0 + Programs(orders[..i + 1]),
                 Overwrite(AfterPrograms(warp, log0, d0, orders, i), orders[i].region.Lo(), orders[i].payload))
  {
  }

  /** What `i` attempts leave: `begun` of them reached the device, in order. */
  ghost predicate Steps(lay: Layout, sha: Hash, faithful: bool, d0: Bytes, orders: seq<Order>, guard: Guard,
                        a: Snap, b: Snap, begun: nat, done: bool)
    requires lay.Valid() && |a.disk| == |b.disk| == |d0| == lay.diskBytes && OrdersFit(orders, |d0|)
  {
    && SameRun(a, b) && b.capture.files == a.capture.files
    && begun <= |orders| && b.log == a.log + Programs(orders[..begun])
    && (forall k :: 0 <= k < begun ==> GuardAccepts(lay, guard, orders[k]))
    && (begun == 0 ==> b.disk == a.disk)
    && (done ==> b.report.journal == AttemptAll(a.report.journal, orders[..begun]))
    && (faithful ==> SameOutside(a.disk, b.disk, OrderRegions(orders)))
    && (faithful && done && PairwiseDisjoint(OrderRegions(orders)) ==> Holds(a.disk, b.disk, Patches(orders[..begun])))
    && (faithful && AllImages(lay, orders) && Safe(lay, sha, d0, a) ==> Safe(lay, sha, d0, b))
  }

  lemma NoSteps(lay: Layout, sha: Hash, faithful: bool, d0: Bytes, orders: seq<Order>, guard: Guard, a: Snap)
    requires lay.Valid() && |a.disk| == |d0| == lay.diskBytes && OrdersFit(orders, |d0|)
    ensures Steps(lay, sha, faithful, d0, orders, guard, a, a, 0, true)
  {
    SameOutsideRefl(a.disk, OrderRegions(orders));
    assert Patches(orders[..0]) == [];
  }

  lemma OneMoreStep(lay: Layout, sha: Hash, faithful: bool, d0: Bytes, orders: seq<Order>, guard: Guard,
                    a: Snap, b: Snap, c: Snap, i: nat, sent: bool, o: Outcome)
    requires lay.Valid() && |a.disk| == |b.disk| == |c.disk| == |d0| == lay.diskBytes && OrdersFit(orders, |d0|)
    requires i < |orders| && Steps(lay, sha, faithful, d0, orders, guard, a, b, i, true)
    requires OneStep(lay, sha, faithful, d0, orders[i], guard, b, c, sent, o)
    ensures Steps(lay, sha, faithful, d0, orders, guard, a, c, if sent then i + 1 else i, o.Pass?)
  {
    hide SameOutside, Holds, Safe, SameRun, GuardAccepts, IsImageWrite;
    SameRunTrans(a, b, c);
    assert Programs(orders[..i + 1]) == Programs(orders[..i]) + [Event.Program(orders[i].region)];
    if faithful { OneOfMany(a.disk, b.disk, c.disk, orders, i); }
    AttemptAllSnoc(a.report.journal, orders, i);
    if o.Pass? && faithful && PairwiseDisjoint(OrderRegions(orders)) { NextHolds(a.disk, b.disk, orders, i); }
  }

  /** Programs every order, stopping at the first that fails. `begun` programs
      reached the device. */
  method ProgramAll(s: Session, lay: Layout, orders: seq<Order>, guard: Guard, ghost d0: Bytes)
      returns (o: Outcome, ghost begun: nat)
    requires s.dev.Valid() && lay.Valid() && lay.diskBytes == s.dev.disk.Length == |d0|
    requires OrdersFit(orders, s.dev.disk.Length)
    modifies s, s.dev, s.dev.disk
    ensures Steps(lay, s.dev.sha, s.dev.Faithful(), d0, orders, guard, old(s.Now()), s.Now(), begun, o.Pass?)
    ensures o.Pass? ==> begun == |orders|
    ensures o.Pass? ==>
      s.dev.disk[..] == AfterPrograms(s.dev.warp, old(s.dev.log), old(s.dev.disk[..]), orders, |orders|)
    ensures o.Stopped? ==> o.why !in {ReadbackDiffers, ProtectedChanged}
    ensures old(s.Tireless()) ==>
              s.Tireless() && ((forall k :: 0 <= k < |orders| ==> GuardAccepts(lay, guard, orders[k])) ==> o.Pass?)
  {
    hide Steps, GuardAccepts, SameRun, AfterPrograms, Layout.Valid, Safe, SameOutside, IsImageWrite, Programs;
    ghost var a := s.Now();
    NoneAfter(s.dev.warp, a.log, a.disk, orders);
    NoSteps(lay, s.dev.sha, s.dev.Faithful(), d0, orders, guard, a);
    begun := 0;
    for i := 0 to |orders|
      invariant begun == i
      invariant Steps(lay, s.dev.sha, s.dev.Faithful(), d0, orders, guard, a, s.Now(), i, true)
      invariant s.dev.disk[..] == AfterPrograms(s.dev.warp, a.log, a.disk, orders, i)
      invariant old(s.Tireless()) ==> s.Tireless()
    {
      ghost var b := s.Now();
      ghost var sent;
      o, sent := ProgramOne(s, lay, orders[i], guard, d0);
      OneMoreStep(lay, s.dev.sha, s.dev.Faithful(), d0, orders, guard, a, b, s.Now(), i, sent, o);
      if o.Pass? { OneMoreAfter(s.dev.warp, a.log, a.disk, orders, i); }
      StepsLog(lay, s.dev.sha, s.dev.Faithful(), d0, orders, guard, a, s.Now(), if sent then i + 1 else i, o.Pass?);
      if sent { begun := begun + 1; }
      if o.Stopped? { return; }
    }
    o := Pass;
  }

  lemma StepsLog(lay: Layout, sha: Hash, faithful: bool, d0: Bytes, orders: seq<Order>, guard: Guard, a: Snap, b: Snap,
                 begun: nat, done: bool)
    requires lay.Valid() && |a.disk| == |b.disk| == |d0| == lay.diskBytes && OrdersFit(orders, |d0|)
    requires Steps(lay, sha, faithful, d0, orders, guard, a, b, begun, done)
    ensures begun <= |orders| && b.log == a.log + Programs(orders[..begun])
  {
  }

  ghost predicate AllImages(lay: Layout, orders: seq<Order>) {
    forall k :: 0 <= k < |orders| ==> IsImageWrite(lay, WriteOf(orders[k]))
  }

  function AttemptAll(j: Journal, orders: seq<Order>): Journal {
    if orders == [] then j
    else
      var last := orders[|orders| - 1];
      Attempted(AttemptAll(j, orders[..|orders| - 1]), last.tag, last.region, last.expected)
  }

  lemma AttemptAllSnoc(j: Journal, orders: seq<Order>, i: nat)
    requires i < |orders|
    ensures AttemptAll(j, orders[..i + 1])
         == Attempted(AttemptAll(j, orders[..i]), orders[i].tag, orders[i].region, orders[i].expected)
  {
    assert orders[..i + 1][..i] == orders[..i];
  }

  ghost predicate TagsDiffer(orders: seq<Order>) {
    forall i, j :: 0 <= i < j < |orders| ==> orders[i].tag != orders[j].tag
  }

  /** Afterwards the journal has exactly one new, unverified entry per order. */
  lemma {:induction false} AttemptAllEntries(j: Journal, orders: seq<Order>)
    requires TagsDiffer(orders)
    ensures var w := AttemptAll(j, orders).writes;
            && (forall k :: 0 <= k < |orders| ==>
                  && orders[k].tag in w
                  && w[orders[k].tag] == WriteEntry(orders[k].region, orders[k].expected, true, false))
            && (forall t :: (forall k :: 0 <= k < |orders| ==> orders[k].tag != t) ==>
                  (t in w <==> t in j.writes) && (t in w ==> w[t] == j.writes[t]))
  {
    if orders != [] {
      var front := orders[..|orders| - 1];
      AttemptAllEntries(j, front);
      var w, f := AttemptAll(j, orders).writes, AttemptAll(j, front).writes;
      forall k | 0 <= k < |orders| ensures orders[k].tag in w
        && w[orders[k].tag] == WriteEntry(orders[k].region, orders[k].expected, true, false)
      {
        assert k < |front| ==> front[k] == orders[k];
      }
      forall t | forall k :: 0 <= k < |orders| ==> orders[k].tag != t
        ensures (t in w <==> t in j.writes) && (t in w ==> w[t] == j.writes[t])
      {
        assert forall k :: 0 <= k < |front| ==> front[k] == orders[k] && front[k].tag != t;
      }
    }
  }

  lemma SameOutsideRefl(d: Bytes, rs: seq<Region>)
    ensures SameOutside(d, d, rs)
  {
  }

  lemma OneOfMany(d0: Bytes, d1: Bytes, d2: Bytes, orders: seq<Order>, i: nat)
    requires i < |orders| && SameOutside(d0, d1, OrderRegions(orders)) && SameOutside(d1, d2, [orders[i].region])
    ensures SameOutside(d0, d2, OrderRegions(orders))
  {
    var rs := OrderRegions(orders);
    assert InsideOne([orders[i].region][0], rs) by { assert orders[i].region.Inside(rs[i]); }
    SameOutsideWiden(d1, d2, [orders[i].region], rs);
    SameOutsideTrans(d0, d1, d2, rs);
  }

  lemma NextHolds(d0: Bytes, d: Bytes, orders: seq<Order>, i: nat)
    requires i < |orders| && OrdersFit(orders, |d0|) && PairwiseDisjoint(OrderRegions(orders))
    requires Holds(d0, d, Patches(orders[..i]))
    ensures Holds(d0, Overwrite(d, orders[i].region.Lo(), orders[i].payload), Patches(orders[..i + 1]))
  {
    var front, p := Patches(orders[..i]), Patch(orders[i].region, orders[i].payload);
    assert Patches(orders[..i + 1]) == front + [p];
    forall k | 0 <= k < |front| ensures !p.region.Overlaps(front[k].region) {
      assert !OrderRegions(orders)[k].Overlaps(OrderRegions(orders)[i]);
    }
    HoldsExtend(d0, d, front, p, Regions(front + [p]));
  }

  // ---- the readback loop ----

  function Readbacks(d: Bytes, orders: seq<Order>): (es: seq<Event>)
    requires OrdersWithin(orders, |d|)
    ensures |es| == |orders| && forall k :: 0 <= k < |es| ==>
      es[k] == Event.Read(orders[k].region, Slice(d, orders[k].region))
  {
    seq(|orders|, k requires 0 <= k < |orders| => Event.Read(orders[k].region, Slice(d, orders[k].region)))
  }

  ghost predicate OrdersWithin(orders: seq<Order>, bytes: int) {
    forall k :: 0 <= k < |orders| ==> orders[k].region.Within(bytes)
  }

  /** Every order's range reads back with its digest. */
  ghost predicate AllReadBack(sha: Hash, d: Bytes, orders: seq<Order>) {
    OrdersWithin(orders, |d|) && forall k :: 0 <= k < |orders| ==> sha(Slice(d, orders[k].region)) == orders[k].expected
  }

  ghost predicate OnRecord(j: Journal, orders: seq<Order>) {
    forall k :: 0 <= k < |orders| ==>
      && orders[k].tag in j.writes
      && j.writes[orders[k].tag].region == orders[k].region
      && j.writes[orders[k].tag].expected == orders[k].expected
  }

  /** What reading back the first `i` orders leaves; `done` when all of them matched. */
  ghost predicate Checks(lay: Layout, sha: Hash, d0: Bytes, orders: seq<Order>, a: Snap, b: Snap, i: nat, done: bool)
    requires lay.Valid() && |a.disk| == |d0| == lay.diskBytes && OrdersWithin(orders, |d0|)
  {
    && b.disk == a.disk && SameRun(a, b) && OnlyReads(a.log, b.log) && i <= |orders|
    && OnRecord(b.report.journal, orders) && b.report.journal.writes.Keys == a.report.journal.writes.Keys
    && (Safe(lay, sha, d0, a) ==> Safe(lay, sha, d0, b))
    && (done ==> b.capture.files == a.capture.files && b.log == a.log + Readbacks(a.disk, orders[..i])
                 && forall k :: 0 <= k < i ==> sha(Slice(a.disk, orders[k].region)) == orders[k].expected)
  }

  lemma OneMoreCheck(lay: Layout, sha: Hash, d0: Bytes, orders: seq<Order>, a: Snap, b: Snap, c: Snap, i: nat,
                     o: Outcome)
    requires lay.Valid() && |a.disk| == |d0| == lay.diskBytes && OrdersWithin(orders, |d0|)
    requires i < |orders| && TagsDiffer(orders) && Checks(lay, sha, d0, orders, a, b, i, true) && c.disk == b.disk
    requires OnlyReads(b.log, c.log) && KeepsFiles(b.capture.files, c.capture.files)
    requires c.capture.manifest == b.capture.manifest && SavedStep(b, c) && SameClaims(b.report, c.report)
    requires || c.report.journal == b.report.journal
             || c.report.journal
               == Verified(b.report.journal, orders[i].tag, sha(Slice(b.disk, orders[i].region)) == orders[i].expected)
    requires o.Pass? ==> && sha(Slice(b.disk, orders[i].region)) == orders[i].expected
                         && c.capture.files == b.capture.files
                         && c.log == b.log + [Event.Read(orders[i].region, Slice(b.disk, orders[i].region))]
    ensures Checks(lay, sha, d0, orders, a, c, if o.Pass? then i + 1 else i, o.Pass?)
  {
    VerifiedSameRun(b, c);
    if Safe(lay, sha, d0, b) { VerifiedStillSafe(lay, sha, d0, b, c, orders[i]); }
    hide Safe, Readbacks, SavedStep;
    SameRunTrans(a, b, c);
    ReadbacksSnoc(a.disk, orders, i);
  }

  lemma ReadbacksSnoc(d: Bytes, orders: seq<Order>, i: nat)
    requires OrdersWithin(orders, |d|) && i < |orders|
    ensures Readbacks(d, orders[..i + 1]) == Readbacks(d, orders[..i])
      + [Event.Read(orders[i].region, Slice(d, orders[i].region))]
  {
  }

  method VerifyAll(s: Session, lay: Layout, orders: seq<Order>, ghost d0: Bytes) returns (o: Outcome)
    requires lay.Valid() && lay.diskBytes == s.dev.disk.Length == |d0|
    requires OrdersWithin(orders, s.dev.disk.Length) && OnRecord(s.report.journal, orders) && TagsDiffer(orders)
    modifies s, s.dev
    ensures Checks(lay, s.dev.sha, d0, orders, old(s.Now()), s.Now(), if o.Pass? then |orders| else 0, o.Pass?)
    ensures o.Stopped? ==> o.why != ProtectedChanged
    ensures o == Stopped(ReadbackDiffers) ==> !AllReadBack(s.dev.sha, s.dev.disk[..], orders)
    ensures old(s.Tireless()) ==> s.Tireless()
    ensures (&& old(s.Tireless()) && AllReadBack(s.dev.sha, s.dev.disk[..], orders)
             && (forall f :: f in old(s.capture.files) ==> f.suffix != Readback)) ==> o.Pass?
  {
    hide SameRun, Safe, SavedStep, OnlyReads;
    ghost var a := s.Now();
    NoChecks(lay, s.dev.sha, d0, orders, a);
    for i := 0 to |orders|
      invariant Checks(lay, s.dev.sha, d0, orders, a, s.Now(), i, true)
      invariant old(s.Tireless()) ==> s.Tireless()
    {
      ghost var b := s.Now();
      o := s.VerifyWritten(orders[i].tag, orders[i].region, orders[i].expected);
      OneMoreCheck(lay, s.dev.sha, d0, orders, a, b, s.Now(), i, o);
      if o.Stopped? { return; }
    }
    o := Pass;
  }

  lemma NoChecks(lay: Layout, sha: Hash, d0: Bytes, orders: seq<Order>, a: Snap)
    requires lay.Valid() && |a.disk| == |d0| == lay.diskBytes && OrdersWithin(orders, |d0|)
    requires OnRecord(a.report.journal, orders)
    ensures Checks(lay, sha, d0, orders, a, a, 0, true)
  {
  }

  lemma VerifiedSameRun(a: Snap, b: Snap)
    requires KeepsFiles(a.capture.files, b.capture.files) && b.capture.manifest == a.capture.manifest
    requires SavedStep(a, b) && SameClaims(a.report, b.report)
    requires b.report.journal.mode == a.report.journal.mode && b.report.journal.wipeData == a.report.journal.wipeData
    ensures SameRun(a, b)
  {
  }

  lemma VerifiedStillSafe(lay: Layout, sha: Hash, d0: Bytes, a: Snap, b: Snap, order: Order)
    requires lay.Valid() && |d0| == |a.disk| == lay.diskBytes && b.disk == a.disk
    requires Safe(lay, sha, d0, a) && SavedStep(a, b) && order.region.Within(|a.disk|)
    requires order.tag in a.report.journal.writes && a.report.journal.writes[order.tag].region == order.region
             && a.report.journal.writes[order.tag].expected == order.expected
    requires || b.report.journal == a.report.journal
             || b.report.journal
               == Verified(a.report.journal, order.tag, sha(Slice(a.disk, order.region)) == order.expected)
    ensures Safe(lay, sha, d0, b)
  {
    VerifyKeepsUndoable(lay, sha, d0, a.disk, a.report.journal, order.tag,
      sha(Slice(a.disk, order.region)) == order.expected);
  }
}
