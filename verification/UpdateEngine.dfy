// The update itself (RomUpdateEngineV1.run_update from the first write on) and
// what holds over all of its runs: which bytes may change, in which order
// things happen, what a finished run guarantees and what a stopped run leaves.

module UpdateEngine {
  import opened Options
  import opened Disk
  import opened Outcomes
  import opened Layout
  import opened UpdateLayout
  import opened Devices
  import opened Sessions
  import opened Survey
  import opened Orders
  import opened Phases
  import opened UpdateSurvey
  import Compat

  // ---- which writes are really done ----

  /** Partitions whose new image is the installed one are left alone. */
  function Unchanged(job: Job, state: map<PartName, Build>): set<PartName> {
    set n | n in state && n in job.images && n in job.prev
            && !job.reflash && state[n] == Prev && SameImage(job.images[n], job.prev[n])
  }

  ghost predicate HasImage(images: map<PartName, Image>, w: Write) { w.tag.Part? && w.tag.name in images }

  function ImageOrders(ws: seq<Write>, images: map<PartName, Image>): (os: seq<Order>)
    requires forall k :: 0 <= k < |ws| ==> HasImage(images, ws[k])
    ensures |os| == |ws|
    ensures forall k :: 0 <= k < |os| ==>
      && HasImage(images, ws[k])
      && os[k] == Order(ws[k].tag, ws[k].region, images[ws[k].tag.name].content, false, images[ws[k].tag.name].digest)
  {
    seq(|ws|, k requires 0 <= k < |ws| =>
      assert HasImage(images, ws[k]);
      Order(ws[k].tag, ws[k].region, images[ws[k].tag.name].content, false, images[ws[k].tag.name].digest))
  }

  function ZeroOrder(sha: Hash, w: Write): Order
    requires w.region.Size() >= 0
  {
    Order(w.tag, w.region, Zeros(w.region.Size()), true, sha(Zeros(w.region.Size())))
  }

  function ZeroOrders(lay: Layout, sha: Hash): seq<Order>
    requires lay.metadataHeadZero >= 0 && lay.userdataHeadZero >= 0
  {
    [ZeroOrder(sha, Write(MetadataZero, MetadataHead(lay))), ZeroOrder(sha, Write(UserdataZero, UserdataZeroHead(lay)))]
  }

  /** An accepted job: every payload is what its kit says and fits. */
  ghost predicate JobOk(lay: Layout, sha: Hash, job: Job) {
    && lay.Valid() && PayloadsOk(sha, job.images)
    && (forall n :: n in IMAGE_ORDER ==> n in job.images && Fits(lay, n, job.images[n].nbytes))
    && PlanAllowed(lay, PlannedWrites(lay, job), job.wipe)
  }

  lemma PlannedHaveImages(lay: Layout, sha: Hash, job: Job, state: map<PartName, Build>)
    requires JobOk(lay, sha, job)
    ensures forall w :: w in Keep(PlannedWrites(lay, job), Unchanged(job, state)) ==>
      HasImage(job.images, w) && w == ImageWrite(lay, w.tag.name, job.images[w.tag.name].nbytes)
  {
    var ws := PlannedWrites(lay, job);
    forall w | w in ws && w.tag.Part?
      ensures HasImage(job.images, w) && w == ImageWrite(lay, w.tag.name, job.images[w.tag.name].nbytes) {
      var k :| 0 <= k < |ws| && ws[k] == w;
      assert k < |IMAGE_ORDER| && IMAGE_ORDER[k] in IMAGE_ORDER;
    }
  }

  /** The image programs of a run that found `state` on the phone. */
  ghost function ImageWork(lay: Layout, sha: Hash, job: Job, state: map<PartName, Build>): seq<Order>
    requires JobOk(lay, sha, job)
  {
    PlannedHaveImages(lay, sha, job, state);
    ImageOrders(Keep(PlannedWrites(lay, job), Unchanged(job, state)), job.images)
  }

  ghost function ZeroWork(lay: Layout, sha: Hash, job: Job): seq<Order>
    requires lay.Valid()
  {
    if job.wipe then ZeroOrders(lay, sha) else []
  }

  /** Every order is allowed where it goes and carries the right bytes. */
  ghost predicate WorkOk(lay: Layout, sha: Hash, orders: seq<Order>, wipe: bool)
    requires lay.Valid()
  {
    && OrdersFit(orders, lay.diskBytes) && TagsDiffer(orders) && PairwiseDisjoint(OrderRegions(orders))
    && DigestsRight(sha, orders)
    && (forall k :: 0 <= k < |orders| ==> WriteAllowed(lay, WriteOf(orders[k]), wipe))
  }

  lemma ImageWritePlan(lay: Layout, sha: Hash, job: Job, state: map<PartName, Build>)
    requires JobOk(lay, sha, job)
    ensures PlanAllowed(lay, Keep(PlannedWrites(lay, job), Unchanged(job, state)), false)
  {
    hide PlannedWrites, Keep, Unchanged, Layout.Valid, PayloadsOk, Fits;
    KeepAllowed(lay, PlannedWrites(lay, job), Unchanged(job, state), job.wipe);
  }

  lemma ImageOrderOk(lay: Layout, sha: Hash, job: Job, w: Write)
    requires JobOk(lay, sha, job) && HasImage(job.images, w) && IsImageWrite(lay, w)
    requires w == ImageWrite(lay, w.tag.name, job.images[w.tag.name].nbytes)
    ensures var image := job.images[w.tag.name];
            && OrderFits(Order(w.tag, w.region, image.content, false, image.digest), lay.diskBytes)
            && sha(image.content) == image.digest
  {
    UpdatableIsImageOrder();
    assert w.tag.name in IMAGE_ORDER && Fits(lay, w.tag.name, job.images[w.tag.name].nbytes);
    assert lay.parts(w.tag.name).Within(lay.diskBytes);
  }

  lemma ImageWorkOk(lay: Layout, sha: Hash, job: Job, state: map<PartName, Build>)
    requires JobOk(lay, sha, job)
    ensures WorkOk(lay, sha, ImageWork(lay, sha, job, state), false) && AllImages(lay, ImageWork(lay, sha, job, state))
  {
    JobParts(lay, sha, job);
    hide JobOk, Layout.Valid, Keep, PlannedWrites, Unchanged, Fits, OrderFits, PlanAllowed, ImageWork, WorkOk,
         AllImages, IsImageWrite;
    var ws := Keep(PlannedWrites(lay, job), Unchanged(job, state));
    var orders := ImageWork(lay, sha, job, state);
    ImageWritePlan(lay, sha, job, state);
    ImageWorkList(lay, sha, job, state);
    forall k | 0 <= k < |orders|
      ensures IsImageWrite(lay, WriteOf(orders[k])) && OrderFits(orders[k], lay.diskBytes)
        && sha(orders[k].payload) == orders[k].expected
    {
      ImageWorkOne(lay, sha, job, state, k);
    }
    PlannedOrders(lay, sha, orders, ws);
  }

  /** Orders for an allowed plan of image writes are work that may be done. */
  lemma PlannedOrders(lay: Layout, sha: Hash, orders: seq<Order>, ws: seq<Write>)
    requires lay.Valid() && PlanAllowed(lay, ws, false) && |orders| == |ws|
    requires forall k :: 0 <= k < |orders| ==> WriteOf(orders[k]) == ws[k] && OrderFits(orders[k], lay.diskBytes)
    requires forall k :: 0 <= k < |orders| ==>
      sha(orders[k].payload) == orders[k].expected && IsImageWrite(lay, WriteOf(orders[k]))
    ensures WorkOk(lay, sha, orders, false) && AllImages(lay, orders)
  {
    hide Layout.Valid, OrderFits, PairwiseDisjoint, IsImageWrite;
    AllowedPlanDisjoint(lay, ws, false);
    assert OrderRegions(orders) == WriteRegions(ws);
    assert TagsDiffer(orders) by {
      forall i, j | 0 <= i < j < |orders| ensures orders[i].tag != orders[j].tag { assert ws[i].tag != ws[j].tag; }
    }
  }

  lemma JobParts(lay: Layout, sha: Hash, job: Job)
    requires JobOk(lay, sha, job)
    ensures lay.Valid() && forall n :: n in IMAGE_ORDER ==> n in job.images
  {
  }

  /** The orders write what the plan keeps. */
  lemma ImageWorkList(lay: Layout, sha: Hash, job: Job, state: map<PartName, Build>)
    requires JobOk(lay, sha, job) && forall n :: n in IMAGE_ORDER ==> n in job.images
    ensures var ws, orders := Keep(PlannedWrites(lay, job), Unchanged(job, state)), ImageWork(lay, sha, job, state);
      |orders| == |ws| && forall k :: 0 <= k < |orders| ==> WriteOf(orders[k]) == ws[k]
  {
    hide JobOk, Keep, PlannedWrites, Unchanged;
  }

  lemma ImageWorkOne(lay: Layout, sha: Hash, job: Job, state: map<PartName, Build>, k: nat)
    requires JobOk(lay, sha, job) && k < |ImageWork(lay, sha, job, state)|
    ensures var order := ImageWork(lay, sha, job, state)[k];
      IsImageWrite(lay, WriteOf(order)) && OrderFits(order, lay.diskBytes) && sha(order.payload) == order.expected
  {
    JobParts(lay, sha, job);
    hide JobOk, Keep, PlannedWrites, Unchanged, Layout.Valid, Fits, OrderFits, IsImageWrite;
    var ws := Keep(PlannedWrites(lay, job), Unchanged(job, state));
    PlannedHaveImages(lay, sha, job, state);
    ImageWritePlan(lay, sha, job, state);
    ImageWorkList(lay, sha, job, state);
    assert ws[k] in ws && WriteAllowed(lay, ws[k], false);
    ImageOrderOk(lay, sha, job, ws[k]);
  }

  lemma ZeroWorkOk(lay: Layout, sha: Hash, job: Job)
    requires lay.Valid()
    ensures WorkOk(lay, sha, ZeroWork(lay, sha, job), true)
  {
    var orders, ws := ZeroWork(lay, sha, job), if job.wipe then ZeroWrites(lay) else [];
    assert PlanAllowed(lay, ws, true);
    AllowedPlanDisjoint(lay, ws, true);
    assert OrderRegions(orders) == WriteRegions(ws);
    forall k | 0 <= k < |orders| ensures OrderFits(orders[k], lay.diskBytes) && WriteOf(orders[k]) == ws[k] {
      AllowedIsInside(lay, ws[k], true);
    }
  }

  lemma ImageApartFromZero(lay: Layout, a: Write, b: Write)
    requires lay.Valid() && IsImageWrite(lay, a) && IsZeroWrite(lay, b)
    ensures !a.region.Overlaps(b.region)
  {
    AllowedIsInside(lay, a, true);
    AllowedIsInside(lay, b, true);
    InsideDisjoint(lay, a.region, b.region, Target(a), Target(b));
  }

  /** Images and zeroed heads never meet. */
  lemma WorkApart(lay: Layout, sha: Hash, imgs: seq<Order>, zs: seq<Order>)
    requires lay.Valid() && AllImages(lay, imgs)
    requires forall k :: 0 <= k < |zs| ==> IsZeroWrite(lay, WriteOf(zs[k]))
    ensures forall i, k :: 0 <= i < |imgs| && 0 <= k < |zs| ==> !imgs[i].region.Overlaps(zs[k].region)
  {
    forall i, k | 0 <= i < |imgs| && 0 <= k < |zs| ensures !imgs[i].region.Overlaps(zs[k].region) {
      ImageApartFromZero(lay, WriteOf(imgs[i]), WriteOf(zs[k]));
    }
  }

  // ---- the order of events ----

  /** Before event `end`, `order` was programmed and later read back with its digest. */
  ghost predicate ReadBackBefore(log: seq<Event>, base: nat, end: nat, sha: Hash, order: Order) {
    exists p, q :: base <= p < q < end <= |log| && log[p] == Event.Program(order.region)
      && log[q].Read? && log[q].region == order.region && sha(log[q].data) == order.expected
  }

  /** From entry `base` on: nothing but the work is programmed; a head is zeroed
      only after every image was programmed and read back equal; power is
      touched at most once, last, and only after everything was. */
  ghost predicate Ordered(log: seq<Event>, base: nat, sha: Hash, imgs: seq<Order>, zs: seq<Order>) {
    && (forall i :: base <= i < |log| && log[i].Program? ==> log[i].region in OrderRegions(imgs) + OrderRegions(zs))
    && (forall i, k, z ::
          base <= i < |log| && 0 <= k < |imgs| && 0 <= z < |zs| && log[i] == Event.Program(zs[z].region) ==>
          ReadBackBefore(log, base, i, sha, imgs[k]))
    && (forall i :: base <= i < |log| && log[i].Power? ==> i == |log| - 1)
    && (forall i, k :: base <= i < |log| && log[i].Power? && 0 <= k < |imgs + zs| ==>
          ReadBackBefore(log, base, i, sha, (imgs + zs)[k]))
  }

  lemma OrderedEarly(log0: seq<Event>, log: seq<Event>, sha: Hash, imgs: seq<Order>, zs: seq<Order>)
    requires OnlyThese(log0, log, imgs)
    requires forall i, k :: 0 <= i < |imgs| && 0 <= k < |zs| ==> imgs[i].region != zs[k].region
    ensures Ordered(log, |log0|, sha, imgs, zs)
  {
  }

  /** A finished write-and-read-back phase reads every order back before its end. */
  lemma PhaseReadBack(log0: seq<Event>, d: Bytes, orders: seq<Order>, sha: Hash, log: seq<Event>, k: nat)
    requires AllReadBack(sha, d, orders) && k < |orders|
    requires var done := log0 + Programs(orders) + Readbacks(d, orders); |done| <= |log| && log[..|done|] == done
    ensures ReadBackBefore(log, |log0|, |log0| + 2 * |orders|, sha, orders[k])
  {
    var done := log0 + Programs(orders) + Readbacks(d, orders);
    var p, q := |log0| + k, |log0| + |orders| + k;
    assert log[p] == done[p] == Programs(orders)[k];
    assert log[q] == done[q] == Readbacks(d, orders)[k];
  }

  lemma ReadBackLater(log: seq<Event>, more: seq<Event>, base0: nat, base: nat, end0: nat, end: nat, sha: Hash,
                      order: Order)
    requires ReadBackBefore(log, base, end0, sha, order) && base0 <= base && end0 <= end <= |more|
    requires |log| <= |more| && more[..|log|] == log
    ensures ReadBackBefore(more, base0, end, sha, order)
  {
    var p, q :| base <= p < q < end0 <= |log| && log[p] == Event.Program(order.region)
      && log[q].Read? && log[q].region == order.region && sha(log[q].data) == order.expected;
    assert more[p] == log[p] && more[q] == log[q];
  }

  lemma OrderedMiddle(log0: seq<Event>, d: Bytes, imgs: seq<Order>, zs: seq<Order>, sha: Hash, mid: seq<Event>,
                      log: seq<Event>)
    requires AllReadBack(sha, d, imgs) && mid == log0 + Programs(imgs) + Readbacks(d, imgs)
    requires OnlyThese(mid, log, zs)
    requires forall i, k :: 0 <= i < |imgs| && 0 <= k < |zs| ==> imgs[i].region != zs[k].region
    ensures Ordered(log, |log0|, sha, imgs, zs)
  {
    PhaseOnlyThese(log0, d, imgs, mid);
    assert forall i :: |log0| <= i < |mid| ==> log[i] == mid[i];
    assert forall i :: |log0| <= i < |mid| && log[i].Program? ==> log[i].region in OrderRegions(imgs);
    forall i, k, z | |log0| <= i < |log| && 0 <= k < |imgs| && 0 <= z < |zs| && log[i] == Event.Program(zs[z].region)
      ensures ReadBackBefore(log, |log0|, i, sha, imgs[k])
    {
      assert i >= |mid|;
      PhaseReadBack(log0, d, imgs, sha, log, k);
      ReadBackLater(log, log, |log0|, |log0|, |mid|, i, sha, imgs[k]);
    }
  }

  lemma PhaseOnlyThese(log0: seq<Event>, d: Bytes, orders: seq<Order>, log: seq<Event>)
    requires OrdersWithin(orders, |d|) && log == log0 + Programs(orders) + Readbacks(d, orders)
    ensures OnlyThese(log0, log, orders)
  {
    assert orders[..|orders|] == orders;
    StepsOnlyThese(log0, log0 + Programs(orders), orders, |orders|);
    assert OnlyReads(log0 + Programs(orders), log);
    OnlyTheseThenReads(log0, log0 + Programs(orders), log, orders);
  }

  /** The closing events of a finished run keep the order; power comes last. */
  lemma OrderedEnd(log0: seq<Event>, d1: Bytes, d2: Bytes, imgs: seq<Order>, zs: seq<Order>, sha: Hash,
                   mid: seq<Event>, end: seq<Event>, log: seq<Event>)
    requires AllReadBack(sha, d1, imgs) && mid == log0 + Programs(imgs) + Readbacks(d1, imgs)
    requires AllReadBack(sha, d2, zs) && end == mid + Programs(zs) + Readbacks(d2, zs)
    requires forall i, k :: 0 <= i < |imgs| && 0 <= k < |zs| ==> imgs[i].region != zs[k].region
    requires OnlyReads(end, log) || (|log| > |end| && OnlyReads(end, log[..|log| - 1]) && log[|log| - 1].Power?)
    ensures Ordered(log, |log0|, sha, imgs, zs)
  {
    PhaseOnlyThese(mid, d2, zs, end);
    if OnlyReads(end, log) {
      OnlyTheseThenReads(mid, end, log, zs);
      OrderedMiddle(log0, d1, imgs, zs, sha, mid, log);
    } else {
      var front := log[..|log| - 1];
      OnlyTheseThenReads(mid, end, front, zs);
      OrderedMiddle(log0, d1, imgs, zs, sha, mid, front);
      PhaseOnlyThese(log0, d1, imgs, mid);
      assert forall i :: |log0| <= i < |mid| ==> log[i] == mid[i];
      assert forall i :: |mid| <= i < |front| ==> log[i] == front[i];
      assert log[..|end|] == front[..|end|] == end;
      AllReadBackBefore(log0, d1, d2, imgs, zs, sha, mid, end, log, |log| - 1);
      OrderedPower(log0, imgs, zs, sha, log);
    }
  }

  /** At the end of both phases every order has been programmed and read back. */
  lemma AllReadBackBefore(log0: seq<Event>, d1: Bytes, d2: Bytes, imgs: seq<Order>, zs: seq<Order>, sha: Hash,
                          mid: seq<Event>, end: seq<Event>, log: seq<Event>, last: nat)
    requires AllReadBack(sha, d1, imgs) && mid == log0 + Programs(imgs) + Readbacks(d1, imgs)
    requires AllReadBack(sha, d2, zs) && end == mid + Programs(zs) + Readbacks(d2, zs)
    requires |end| <= last <= |log| && log[..|end|] == end
    ensures forall k :: 0 <= k < |imgs + zs| ==> ReadBackBefore(log, |log0|, last, sha, (imgs + zs)[k])
  {
    hide ReadBackBefore, AllReadBack;
    assert log[..|mid|] == log[..|end|][..|mid|] == mid;
    forall k | 0 <= k < |imgs + zs| ensures ReadBackBefore(log, |log0|, last, sha, (imgs + zs)[k]) {
      if k < |imgs| {
        PhaseReadBack(log0, d1, imgs, sha, log, k);
        ReadBackLater(log, log, |log0|, |log0|, |mid|, last, sha, imgs[k]);
      } else {
        PhaseReadBack(mid, d2, zs, sha, log, k - |imgs|);
        ReadBackLater(log, log, |log0|, |mid|, |end|, last, sha, zs[k - |imgs|]);
      }
    }
  }

  lemma OrderedPower(log0: seq<Event>, imgs: seq<Order>, zs: seq<Order>, sha: Hash, log: seq<Event>)
    requires |log0| < |log| && log[|log| - 1].Power?
    requires Ordered(log[..|log| - 1], |log0|, sha, imgs, zs)
    requires forall i :: |log0| <= i < |log| - 1 ==> !log[i].Power?
    requires forall k :: 0 <= k < |imgs + zs| ==> ReadBackBefore(log, |log0|, |log| - 1, sha, (imgs + zs)[k])
    ensures Ordered(log, |log0|, sha, imgs, zs)
  {
    hide ReadBackBefore;
    var front := log[..|log| - 1];
    forall i, k, z | |log0| <= i < |log| && 0 <= k < |imgs| && 0 <= z < |zs| && log[i] == Event.Program(zs[z].region)
      ensures ReadBackBefore(log, |log0|, i, sha, imgs[k])
    {
      assert front[i] == Event.Program(zs[z].region);
      assert ReadBackBefore(front, |log0|, i, sha, imgs[k]);
      ReadBackLater(front, log, |log0|, |log0|, i, i, sha, imgs[k]);
    }
  }
}
