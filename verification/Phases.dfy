// Two pieces every run is made of: write-and-read-back a list of orders, and
// the closing check of the protected regions before power is touched.

module Phases {
  import opened Options
  import opened Disk
  import opened Outcomes
  import opened Layout
  import opened UpdateLayout
  import opened Devices
  import opened Sessions
  import opened Orders
  import opened Survey

  ghost predicate DigestsRight(sha: Hash, orders: seq<Order>) {
    forall k :: 0 <= k < |orders| ==> sha(orders[k].payload) == orders[k].expected
  }

  /** The new log entries are reads and programs of these ranges. */
  ghost predicate OnlyThese(log0: seq<Event>, log: seq<Event>, orders: seq<Order>) {
    && |log0| <= |log| && log[..|log0|] == log0
    && forall i :: |log0| <= i < |log| ==> log[i].Read? || (log[i].Program? && log[i].region in OrderRegions(orders))
  }

  /** A phase either finished, with every order programmed and then read back
      equal, or stopped having touched nothing but its own ranges. */
  ghost predicate PhaseEnd(lay: Layout, sha: Hash, faithful: bool, d0: Bytes, orders: seq<Order>, a: Snap, b: Snap,
                           o: Outcome)
    requires lay.Valid() && |a.disk| == |b.disk| == |d0| == lay.diskBytes && OrdersFit(orders, |d0|)
  {
    && SameRun(a, b)
    && OnlyThese(a.log, b.log, orders)
    && (o.Pass? ==> && AllReadBack(sha, b.disk, orders) && b.capture.files == a.capture.files
                    && b.log == a.log + Programs(orders) + Readbacks(b.disk, orders))
    && (faithful ==> SameOutside(a.disk, b.disk, OrderRegions(orders)))
    && (faithful && o.Pass? ==> Holds(a.disk, b.disk, Patches(orders)))
    && (faithful && AllImages(lay, orders) && Safe(lay, sha, d0, a) ==> Safe(lay, sha, d0, b))
    && (faithful && DigestsRight(sha, orders) ==> o != Stopped(ReadbackDiffers))
    && o != Stopped(ProtectedChanged)
  }

  lemma HoldsReadBack(sha: Hash, d0: Bytes, d: Bytes, orders: seq<Order>)
    requires Holds(d0, d, Patches(orders)) && DigestsRight(sha, orders)
    ensures AllReadBack(sha, d, orders)
  {
    forall k | 0 <= k < |orders|
      ensures orders[k].region.Within(|d|) && sha(Slice(d, orders[k].region)) == orders[k].expected {
      assert Patches(orders)[k].region == orders[k].region;
    }
  }

  lemma AttemptedOnRecord(j: Journal, orders: seq<Order>)
    requires TagsDiffer(orders)
    ensures OnRecord(AttemptAll(j, orders), orders)
  {
    AttemptAllEntries(j, orders);
  }

  lemma StepsOnlyThese(log0: seq<Event>, log: seq<Event>, orders: seq<Order>, begun: nat)
    requires begun <= |orders| && log == log0 + Programs(orders[..begun])
    ensures OnlyThese(log0, log, orders)
  {
    forall i | |log0| <= i < |log| ensures log[i].Program? && log[i].region in OrderRegions(orders) {
      assert log[i] == Programs(orders[..begun])[i - |log0|];
      assert OrderRegions(orders)[i - |log0|] == log[i].region;
    }
  }

  lemma PhaseWritten(lay: Layout, sha: Hash, faithful: bool, d0: Bytes, orders: seq<Order>, guard: Guard, a: Snap,
                     b: Snap, begun: nat, o: Outcome)
    requires lay.Valid() && |a.disk| == |b.disk| == |d0| == lay.diskBytes && OrdersFit(orders, |d0|)
    requires Steps(lay, sha, faithful, d0, orders, guard, a, b, begun, false) && o.Stopped?
    requires o.why !in {ReadbackDiffers, ProtectedChanged}
    ensures PhaseEnd(lay, sha, faithful, d0, orders, a, b, o)
  {
    StepsOnlyThese(a.log, b.log, orders, begun);
  }

  lemma OnlyTheseThenReads(log0: seq<Event>, log1: seq<Event>, log2: seq<Event>, orders: seq<Order>)
    requires OnlyThese(log0, log1, orders) && OnlyReads(log1, log2)
    ensures OnlyThese(log0, log2, orders)
  {
  }

  lemma ChecksReadBack(lay: Layout, sha: Hash, d0: Bytes, orders: seq<Order>, b: Snap, c: Snap, o: Outcome)
    requires lay.Valid() && |b.disk| == |d0| == lay.diskBytes && OrdersWithin(orders, |d0|)
    requires Checks(lay, sha, d0, orders, b, c, if o.Pass? then |orders| else 0, o.Pass?)
    ensures o.Pass? ==> AllReadBack(sha, c.disk, orders)
  {
  }

  lemma PhaseVerified(lay: Layout, sha: Hash, faithful: bool, d0: Bytes, orders: seq<Order>, guard: Guard, a: Snap,
                      b: Snap, c: Snap, o: Outcome)
    requires lay.Valid() && |a.disk| == |b.disk| == |d0| == lay.diskBytes && OrdersFit(orders, |d0|)
    requires PairwiseDisjoint(OrderRegions(orders))
    requires Steps(lay, sha, faithful, d0, orders, guard, a, b, |orders|, true)
    requires Checks(lay, sha, d0, orders, b, c, if o.Pass? then |orders| else 0, o.Pass?)
    requires o.Stopped? ==> o.why != ProtectedChanged
    requires o == Stopped(ReadbackDiffers) ==> !AllReadBack(sha, c.disk, orders)
    ensures PhaseEnd(lay, sha, faithful, d0, orders, a, c, o)
  {
    hide SameRun, Safe, SameOutside, Holds, AllReadBack, DigestsRight, PairwiseDisjoint, IsImageWrite, GuardAccepts,
         OnRecord, AllImages;
    assert orders[..|orders|] == orders;
    StepsOnlyThese(a.log, b.log, orders, |orders|);
    OnlyTheseThenReads(a.log, b.log, c.log, orders);
    SameRunTrans(a, b, c);
    ChecksReadBack(lay, sha, d0, orders, b, c, o);
    if faithful && DigestsRight(sha, orders) { HoldsReadBack(sha, a.disk, b.disk, orders); }
  }

  /** Program everything, then read everything back. */
  method WriteAndReadBack(s: Session, lay: Layout, orders: seq<Order>, guard: Guard, ghost d0: Bytes)
      returns (o: Outcome)
    requires s.dev.Valid() && lay.Valid() && lay.diskBytes == s.dev.disk.Length == |d0|
    requires OrdersFit(orders, s.dev.disk.Length) && TagsDiffer(orders) && PairwiseDisjoint(OrderRegions(orders))
    modifies s, s.dev, s.dev.disk
    ensures PhaseEnd(lay, s.dev.sha, s.dev.Faithful(), d0, orders, old(s.Now()), s.Now(), o)
    ensures |old(s.dev.log)| <= |s.dev.log| && s.dev.log[..|old(s.dev.log)|] == old(s.dev.log)
    ensures !Powered(s.dev.log, |old(s.dev.log)|)
    ensures o.Pass? ==>
      s.dev.disk[..] == AfterPrograms(s.dev.warp, old(s.dev.log), old(s.dev.disk[..]), orders, |orders|)
    ensures old(s.Tireless()) ==> s.Tireless()
    ensures (&& old(s.Tireless()) && (forall k :: 0 <= k < |orders| ==> GuardAccepts(lay, guard, orders[k]))
             && (forall f :: f in old(s.capture.files) ==> f.suffix != Readback)
             && AllReadBack(s.dev.sha, AfterPrograms(s.dev.warp, old(s.dev.log), old(s.dev.disk[..]), orders, |orders|),
                            orders)) ==> o.Pass?
    ensures (&& old(s.Tireless()) && s.dev.Faithful() && DigestsRight(s.dev.sha, orders)
             && (forall k :: 0 <= k < |orders| ==> GuardAccepts(lay, guard, orders[k]))
             && (forall f :: f in old(s.capture.files) ==> f.suffix != Readback)) ==> o.Pass?
  {
    hide PhaseEnd, Checks, SameRun, Safe, Holds, SameOutside, GuardAccepts, Powered;
    ghost var a := s.Now();
    ghost var begun;
    o, begun := ProgramAll(s, lay, orders, guard, d0);
    ghost var b := s.Now();
    assert orders[..|orders|] == orders;
    if o.Stopped? {
      PhaseWritten(lay, s.dev.sha, s.dev.Faithful(), d0, orders, guard, a, b, begun, o);
      PhaseTouches(lay, s.dev.sha, s.dev.Faithful(), d0, orders, a, b, o);
      return;
    }
    AttemptedOnRecord(a.report.journal, orders);
    if s.dev.Faithful() && DigestsRight(s.dev.sha, orders) { HoldsReadBack(s.dev.sha, a.disk, b.disk, orders); }
    o := VerifyAll(s, lay, orders, d0);
    PhaseVerified(lay, s.dev.sha, s.dev.Faithful(), d0, orders, guard, a, b, s.Now(), o);
    PhaseTouches(lay, s.dev.sha, s.dev.Faithful(), d0, orders, a, s.Now(), o);
  }

  lemma PhaseTouches(lay: Layout, sha: Hash, faithful: bool, d0: Bytes, orders: seq<Order>, a: Snap, b: Snap,
                     o: Outcome)
    requires lay.Valid() && |a.disk| == |b.disk| == |d0| == lay.diskBytes && OrdersFit(orders, |d0|)
    requires PhaseEnd(lay, sha, faithful, d0, orders, a, b, o)
    ensures |a.log| <= |b.log| && b.log[..|a.log|] == a.log && !Powered(b.log, |a.log|)
  {
    OnlyTheseUnpowered(a.log, b.log, orders);
  }

  // ---- the end of a run ----

  /** No report claims unchanged regions unless they are, or power before that. */
  ghost predicate Claimed(same: bool, r: Report, a: Snap) {
    && (r.invariantsUnchanged == Some(true) ==> same)
    && (r.power.Some? ==> r.invariantsUnchanged == Some(true) && r.readbackVerified)
    && r.journal == a.report.journal && r.plan == a.report.plan
  }

  /** What the closing check does: reads and claims. `same` says whether the
      protected regions still read as before the run. */
  ghost predicate Compared(same: bool, a: Snap, b: Snap) {
    && b.disk == a.disk && OnlyReads(a.log, b.log)
    && b.capture.manifest == a.capture.manifest && KeepsFiles(a.capture.files, b.capture.files)
    && b.report.readbackVerified && Claimed(same, b.report, a) && b.report.power.None?
    && (b.capture.report == a.capture.report || (b.capture.report.Some? && Claimed(same, b.capture.report.value, a)))
  }

  /** What closing a run does: the check, and last of all power. */
  ghost predicate Closed(same: bool, a: Snap, b: Snap, o: Outcome) {
    && b.disk == a.disk
    && b.capture.manifest == a.capture.manifest && KeepsFiles(a.capture.files, b.capture.files)
    && (|| OnlyReads(a.log, b.log)
        || (&& same && b.report.invariantsUnchanged == Some(true)
            && |b.log| > |a.log| && OnlyReads(a.log, b.log[..|b.log| - 1]) && b.log[|b.log| - 1].Power?))
    && b.report.readbackVerified && Claimed(same, b.report, a)
    && (b.capture.report == a.capture.report || (b.capture.report.Some? && Claimed(same, b.capture.report.value, a)))
    && (o.Pass? ==> same && b.report.power.Some? && EndsWithPower(b.log, |a.log|))
    && (o == Stopped(ProtectedChanged) ==> !same)
    && o != Stopped(ReadbackDiffers)
  }

  /** The readback claim, then the protected regions once more. */
  method CheckProtected(s: Session, tool: Tool, wipe: bool, before: seq<Reading>, suffix: Suffix) returns (o: Outcome)
    requires Ready(s, tool)
    requires s.report.invariantsUnchanged.None? && s.report.power.None?
    modifies s, s.dev
    ensures var same := Invariants(s.dev.sha, tool.lay, s.dev.disk[..], wipe) == before;
            && Compared(same, old(s.Now()), s.Now()) && (o.Pass? ==> same && s.report.invariantsUnchanged == Some(true))
            && (o == Stopped(ProtectedChanged) ==> !same) && o != Stopped(ReadbackDiffers)
            && (old(s.Tireless()) ==> s.Tireless())
            && (old(s.Tireless()) && same && (forall t :: FileName(Invariant(t), suffix) !in old(s.capture.files)) ==>
              o.Pass?)
  {
    hide Invariants, Layout.Valid, InvariantRegions, Compared, Claimed;
    ghost var a := s.Now();
    s.report := s.report.(readbackVerified := true);
    o := s.Save();
    ghost var b := s.Now();
    ReadbackClaimed(a, b);
    if o.Stopped? { return; }
    var after;
    o, after := HashInvariants(s, tool, suffix, wipe);
    ghost var c := s.Now();
    ComparedReads(a, b, c);
    if o.Stopped? { return; }
    s.report := s.report.(invariantsUnchanged := Some(after == before));
    o := s.Save();
    ComparedClaims(after == before, a, c, s.Now());
    if o.Stopped? { return; }
    if after != before { return Stopped(ProtectedChanged); }
    o := Pass;
  }

  /** The readback claim alone says nothing about the protected regions. */
  lemma ReadbackClaimed(a: Snap, b: Snap)
    requires b.disk == a.disk && b.log == a.log && b.report == a.report.(readbackVerified := true)
    requires a.report.invariantsUnchanged.None? && a.report.power.None?
    requires b.capture == a.capture.(report := b.capture.report)
    requires b.capture.report == a.capture.report || b.capture.report == Some(b.report)
    ensures Compared(false, a, b) && Compared(true, a, b) && b.report.invariantsUnchanged.None?
  {
  }

  lemma ComparedReads(a: Snap, b: Snap, c: Snap)
    requires Compared(false, a, b) && Compared(true, a, b) && ReadOnly(b, c) && b.report.invariantsUnchanged.None?
    ensures Compared(false, a, c) && Compared(true, a, c) && c.report.invariantsUnchanged.None? && c.disk == b.disk
  {
  }

  lemma ComparedClaims(same: bool, a: Snap, c: Snap, d: Snap)
    requires Compared(same, a, c) && d.disk == c.disk && d.log == c.log
    requires d.report == c.report.(invariantsUnchanged := Some(same))
    requires d.capture == c.capture.(report := d.capture.report)
    requires d.capture.report == c.capture.report || d.capture.report == Some(d.report)
    ensures Compared(same, a, d)
  {
  }

  method Close(s: Session, tool: Tool, wipe: bool, before: seq<Reading>, power: PowerState, suffix: Suffix)
      returns (o: Outcome)
    requires Ready(s, tool)
    requires s.report.invariantsUnchanged.None? && s.report.power.None?
    modifies s, s.dev
    ensures var same := Invariants(s.dev.sha, tool.lay, s.dev.disk[..], wipe) == before;
            && Closed(same, old(s.Now()), s.Now(), o)
            && |old(s.dev.log)| <= |s.dev.log| && s.dev.log[..|old(s.dev.log)|] == old(s.dev.log)
            && PowerIs(s.dev.log, |old(s.dev.log)|, power) && (o.Pass? ==> s.report.power == Some(power))
            && (old(s.Tireless()) ==> s.Tireless())
            && (old(s.Tireless()) && same && (forall t :: FileName(Invariant(t), suffix) !in old(s.capture.files)) ==>
              o.Pass?)
  {
    hide Invariants, Layout.Valid;
    o := CheckProtected(s, tool, wipe, before, suffix);
    if o.Stopped? { return; }
    :- s.dev.PowerTo(power);
    s.report := s.report.(power := Some(power));
    :- s.Save();
    o := Pass;
  }

  // ---- power ----

  /** The log has grown, and its last event is power. */
  ghost predicate EndsWithPower(log: seq<Event>, base: nat) { |log| > base && log[|log| - 1].Power? }

  /** Some event from `base` on is power, whether or not it was acknowledged. */
  ghost predicate Powered(log: seq<Event>, base: nat) { exists i :: base <= i < |log| && log[i].Power? }

  /** Power, if touched from event `base` on, was asked for this state. */
  ghost predicate PowerIs(log: seq<Event>, base: nat, state: PowerState) {
    forall i :: base <= i < |log| && log[i].Power? ==> log[i] == Event.Power(state)
  }

  lemma UnpoweredIs(log: seq<Event>, base: nat, state: PowerState)
    requires !Powered(log, base)
    ensures PowerIs(log, base, state)
  {
  }

  lemma ReadsNoPower(log0: seq<Event>, log: seq<Event>)
    requires OnlyReads(log0, log)
    ensures forall p :: PowerIs(log, |log0|, p)
  {
  }

  lemma PoweredOnce(log0: seq<Event>, mid: seq<Event>, state: PowerState)
    requires OnlyReads(log0, mid)
    ensures PowerIs(mid + [Event.Power(state)], |log0|, state)
  {
  }

  lemma ReadsPowerIs(log0: seq<Event>, mid: seq<Event>, log: seq<Event>, state: PowerState)
    requires OnlyReads(log0, mid) && |mid| <= |log| && log[..|mid|] == mid && PowerIs(log, |mid|, state)
    ensures PowerIs(log, |log0|, state)
  {
    assert forall i :: |log0| <= i < |mid| ==> log[i] == mid[i];
  }

  lemma LaterPowerIs(log0: seq<Event>, mid: seq<Event>, log: seq<Event>, state: PowerState)
    requires |log0| <= |mid| <= |log| && log[..|mid|] == mid
    requires PowerIs(mid, |log0|, state) && PowerIs(log, |mid|, state)
    ensures PowerIs(log, |log0|, state)
  {
    assert forall i :: |log0| <= i < |mid| ==> log[i] == mid[i];
  }

  lemma StillUnpowered(log0: seq<Event>, log1: seq<Event>, log: seq<Event>)
    requires |log0| <= |log1| <= |log| && log[..|log1|] == log1
    requires !Powered(log1, |log0|) && !Powered(log, |log1|)
    ensures !Powered(log, |log0|)
  {
    assert forall i :: |log0| <= i < |log1| ==> log[i] == log1[i];
  }

  lemma OnlyTheseUnpowered(log0: seq<Event>, log: seq<Event>, orders: seq<Order>)
    requires OnlyThese(log0, log, orders)
    ensures !Powered(log, |log0|)
  {
  }

  /** Power is the last event, after verified readback and unchanged regions. */
  ghost predicate PowerLast(base: nat, b: Snap) {
    forall i :: base <= i < |b.log| && b.log[i].Power? ==>
      i == |b.log| - 1 && b.report.readbackVerified && b.report.invariantsUnchanged == Some(true)
  }

  lemma UnpoweredLast(base: nat, b: Snap)
    requires !Powered(b.log, base)
    ensures PowerLast(base, b)
  {
  }

  lemma ClosedPowerLast(same: bool, base: nat, e: Snap, g: Snap, o: Outcome)
    requires Closed(same, e, g, o) && base <= |e.log| && !Powered(e.log, base)
    ensures PowerLast(base, g)
  {
    if OnlyReads(e.log, g.log) {
      assert forall i :: base <= i < |e.log| ==> g.log[i] == e.log[i];
    } else {
      var front := g.log[..|g.log| - 1];
      assert forall i :: base <= i < |e.log| ==> front[i] == e.log[i];
    }
  }

  lemma PhaseUnpowered(log0: seq<Event>, b: Snap, e: Snap, orders: seq<Order>)
    requires OnlyReads(log0, b.log) && OnlyThese(b.log, e.log, orders)
    ensures |log0| <= |e.log| && !Powered(e.log, |log0|)
  {
    OnlyTheseUnpowered(b.log, e.log, orders);
    StillUnpowered(log0, b.log, e.log);
  }

  // ---- the end of an install or restore: no protected regions are compared ----

  ghost predicate Ended(a: Snap, b: Snap, state: PowerState, o: Outcome) {
    && b.disk == a.disk && b.capture.manifest == a.capture.manifest && b.capture.files == a.capture.files
    && (b.log == a.log || b.log == a.log + [Power(state)])
    && b.report.readbackVerified && b.report.journal == a.report.journal
    && (b.capture.report == a.capture.report || b.capture.report.Some?)
    && (o.Pass? ==> b.report.power == Some(state) && b.log == a.log + [Power(state)])
    && o != Stopped(ReadbackDiffers) && o != Stopped(ProtectedChanged)
  }

  method End(s: Session, state: PowerState) returns (o: Outcome)
    modifies s, s.dev
    ensures Ended(old(s.Now()), s.Now(), state, o)
    ensures old(s.Tireless()) ==> s.Tireless() && o.Pass?
  {
    s.report := s.report.(readbackVerified := true);
    :- s.Save();
    :- s.dev.PowerTo(state);
    s.report := s.report.(power := Some(state));
    :- s.Save();
    o := Pass;
  }
}
