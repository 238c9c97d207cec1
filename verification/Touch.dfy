// Decoding a captured multi-touch event stream (Capture-TouchEvents.decode):
// type-B slots that keep their axes, and a marker for events the kernel dropped.

module Touch {
  import opened Options

  datatype Code = Slot | TrackingId | PositionX | PositionY | OtherAxis | Dropped | Report | OtherSync

  /** One decoded line. `value` is read from hexadecimal digits. */
  datatype Event = Event(stamp: string, code: Code, value: nat)

  datatype Screen = Screen(maxX: nat, maxY: nat, maxSlot: nat)

  datatype Point = Point(id: int, x: Option<nat>, y: Option<nat>)

  datatype Contact = Contact(slot: nat, id: int, x: nat, y: nat)

  datatype Frame = Frame(time: string, points: seq<Contact>)

  datatype Fault = SlotRange | XRange | YRange

  const NO_CONTACT: nat := 0xffffffff

  datatype State = State(slots: map<nat, Point>, slot: Option<nat>, dropped: bool,
                         frames: seq<Frame>, errors: seq<Fault>, drops: nat)

  const START := State(map[], Some(0), false, [], [], 0)

  /** Nothing is known: no slot is selected until the stream names one. */
  const FORGOTTEN := State(map[], None, false, [], [], 0)

  predicate Visible(p: Point) { p.id >= 0 && p.x.Some? && p.y.Some? }

  /** The visible contacts of the slots below `n`, by slot. */
  function Contacts(slots: map<nat, Point>, n: nat): (cs: seq<Contact>) {
    if n == 0 then []
    else
      var front := Contacts(slots, n - 1);
      if n - 1 in slots && Visible(slots[n - 1]) then
        front + [Contact(n - 1, slots[n - 1].id, slots[n - 1].x.value, slots[n - 1].y.value)]
      else front
  }

  function PointAt(slots: map<nat, Point>, s: nat): Point {
    if s in slots then slots[s] else Point(-1, None, None)
  }

  /** What one event does. */
  function Step(scr: Screen, st: State, e: Event): State {
    match e.code
    case Dropped => st.(dropped := true, slots := map[], drops := st.drops + 1)
    case Report =>
      if st.dropped then st.(dropped := false, slot := None)
      else st.(frames := st.frames + [Frame(e.stamp, Contacts(st.slots, scr.maxSlot + 1))])
    case OtherSync => st
    case Slot =>
      if st.dropped then st
      else if e.value <= scr.maxSlot then st.(slot := Some(e.value))
      else st.(slot := None, errors := st.errors + [SlotRange])
    case _ =>
      if st.dropped || st.slot.None? then st
      else
        var s := st.slot.value;
        var p := PointAt(st.slots, s);
        match e.code
        case TrackingId => st.(slots := st.slots[s := p.(id := if e.value == NO_CONTACT then -1 else e.value)])
        case PositionX =>
          if e.value > scr.maxX then st.(slots := st.slots[s := p], errors := st.errors + [XRange])
          else st.(slots := st.slots[s := p.(x := Some(e.value))])
        case PositionY =>
          if e.value > scr.maxY then st.(slots := st.slots[s := p], errors := st.errors + [YRange])
          else st.(slots := st.slots[s := p.(y := Some(e.value))])
        case _ => st.(slots := st.slots[s := p])
  }

  function Run(scr: Screen, st: State, es: seq<Event>): State {
    if es == [] then st else Step(scr, Run(scr, st, es[..|es| - 1]), es[|es| - 1])
  }

  lemma {:induction false} RunAppend(scr: Screen, st: State, es: seq<Event>, fs: seq<Event>)
    ensures Run(scr, st, es + fs) == Run(scr, Run(scr, st, es), fs)
  {
    if fs == [] {
      assert es + fs == es;
    } else {
      RunAppend(scr, st, es, fs[..|fs| - 1]);
      assert (es + fs)[..|es + fs| - 1] == es + fs[..|fs| - 1];
    }
  }

  /** The decoder: the same run, with its state in variables updated event by event. */
  method Decode(scr: Screen, es: seq<Event>)
    returns (frames: seq<Frame>, errors: seq<Fault>, drops: nat, touched: bool)
    ensures var end := Run(scr, START, es); frames == end.frames && errors == end.errors && drops == end.drops
    ensures touched <==> exists k :: 0 <= k < |frames| && frames[k].points != []
    ensures drops == |Markers(es)| && |frames| == |Shown(es)| && exists at :: Complaints(scr, es, errors, at)
  {
    var slots: map<nat, Point>, slot: Option<nat>, dropped := map[], Some(0), false;
    frames, errors, drops := [], [], 0;
    for i := 0 to |es|
      invariant Run(scr, START, es[..i]) == State(slots, slot, dropped, frames, errors, drops)
    {
      var e := es[i];
      assert es[..i + 1][..i] == es[..i];
      if e.code == Dropped {
        dropped, slots, drops := true, map[], drops + 1;
      } else if e.code == Report {
        if dropped {
          dropped, slot := false, None;
          continue;
        }
        frames := frames + [Frame(e.stamp, Contacts(slots, scr.maxSlot + 1))];
      } else if e.code == OtherSync || dropped {
        continue;
      } else if e.code == Slot {
        slot := if e.value <= scr.maxSlot then Some(e.value) else None;
        if slot.None? { errors := errors + [SlotRange]; }
      } else if slot.Some? {
        var s := slot.value;
        var p := PointAt(slots, s);
        if e.code == TrackingId {
          p := p.(id := if e.value == NO_CONTACT then -1 else e.value);
        } else if e.code == PositionX {
          if e.value > scr.maxX { errors := errors + [XRange]; } else { p := p.(x := Some(e.value)); }
        } else if e.code == PositionY {
          if e.value > scr.maxY { errors := errors + [YRange]; } else { p := p.(y := Some(e.value)); }
        }
        slots := slots[s := p];
      }
    }
    assert es[..|es|] == es;
    ghost var at := CountsAndComplaints(scr, es);
    touched := exists k :: 0 <= k < |frames| && frames[k].points != [];
  }

  // ---- every frame is well formed ----

  ghost predicate InRange(scr: Screen, c: Contact) {
    c.slot <= scr.maxSlot && c.id >= 0 && c.x <= scr.maxX && c.y <= scr.maxY
  }

  ghost predicate FrameOk(scr: Screen, f: Frame) {
    && (forall k :: 0 <= k < |f.points| ==> InRange(scr, f.points[k]))
    && (forall j, k :: 0 <= j < k < |f.points| ==> f.points[j].slot < f.points[k].slot)
  }

  ghost predicate PointOk(scr: Screen, p: Point) {
    (p.x.Some? ==> p.x.value <= scr.maxX) && (p.y.Some? ==> p.y.value <= scr.maxY)
  }

  ghost predicate SlotsOk(scr: Screen, slots: map<nat, Point>) {
    forall s :: s in slots ==> s <= scr.maxSlot && PointOk(scr, slots[s])
  }

  lemma SlotsOkSet(scr: Screen, slots: map<nat, Point>, s: nat, p: Point)
    requires SlotsOk(scr, slots) && s <= scr.maxSlot && PointOk(scr, p)
    ensures SlotsOk(scr, slots[s := p])
  {
  }

  lemma {:induction false} ContactsAre(scr: Screen, slots: map<nat, Point>, n: nat)
    requires SlotsOk(scr, slots)
    ensures forall k :: 0 <= k < |Contacts(slots, n)| ==>
      InRange(scr, Contacts(slots, n)[k]) && Contacts(slots, n)[k].slot < n
    ensures forall j, k :: 0 <= j < k < |Contacts(slots, n)| ==> Contacts(slots, n)[j].slot < Contacts(slots, n)[k].slot
    ensures forall c :: c in Contacts(slots, n) <==>
      c.slot < n && c.slot in slots && Visible(slots[c.slot]) && slots[c.slot] == Point(c.id, Some(c.x), Some(c.y))
  {
    if n > 0 { ContactsAre(scr, slots, n - 1); }
  }

  ghost predicate StateOk(scr: Screen, st: State) {
    && SlotsOk(scr, st.slots) && (st.slot.Some? ==> st.slot.value <= scr.maxSlot)
    && forall k :: 0 <= k < |st.frames| ==> FrameOk(scr, st.frames[k])
  }

  lemma StepOk(scr: Screen, st: State, e: Event)
    requires StateOk(scr, st)
    ensures StateOk(scr, Step(scr, st, e))
  {
    match e.code
    case Report => ContactsAre(scr, st.slots, scr.maxSlot + 1);
    case Dropped =>
    case OtherSync =>
    case Slot =>
    case _ =>
      if !st.dropped && st.slot.Some? {
        hide SlotsOk, Contacts, FrameOk;
        PointAtOk(scr, st.slots, st.slot.value);
        var s := st.slot.value;
        SlotsOkSet(scr, st.slots, s, PointAt(Step(scr, st, e).slots, s));
      }
  }

  lemma PointAtOk(scr: Screen, slots: map<nat, Point>, s: nat)
    requires SlotsOk(scr, slots)
    ensures PointOk(scr, PointAt(slots, s))
  {
  }

  /** For every event stream whatsoever. */
  lemma {:induction false} EveryFrameOk(scr: Screen, es: seq<Event>)
    ensures StateOk(scr, Run(scr, START, es))
  {
    if es != [] {
      EveryFrameOk(scr, es[..|es| - 1]);
      StepOk(scr, Run(scr, START, es[..|es| - 1]), es[|es| - 1]);
    }
  }

  // ---- lost history is forgotten ----

  /** The same run, continued behind frames and errors already there. */
  function Behind(st: State, frames: seq<Frame>, errors: seq<Fault>, drops: nat): State {
    st.(frames := frames + st.frames, errors := errors + st.errors, drops := drops + st.drops)
  }

  lemma StepBehind(scr: Screen, st: State, e: Event, frames: seq<Frame>, errors: seq<Fault>, drops: nat)
    ensures Step(scr, Behind(st, frames, errors, drops), e) == Behind(Step(scr, st, e), frames, errors, drops)
  {
    assert forall f: Frame :: (frames + st.frames) + [f] == frames + (st.frames + [f]);
    assert forall f: Fault :: (errors + st.errors) + [f] == errors + (st.errors + [f]);
  }

  lemma {:induction false} RunBehind(scr: Screen, st: State, es: seq<Event>, frames: seq<Frame>, errors: seq<Fault>,
                                     drops: nat)
    ensures Run(scr, Behind(st, frames, errors, drops), es) == Behind(Run(scr, st, es), frames, errors, drops)
  {
    if es != [] {
      RunBehind(scr, st, es[..|es| - 1], frames, errors, drops);
      StepBehind(scr, Run(scr, st, es[..|es| - 1]), es[|es| - 1], frames, errors, drops);
    }
  }

  ghost predicate NoReport(es: seq<Event>) { forall k :: 0 <= k < |es| ==> es[k].code != Report }

  /** Between the marker and its closing report nothing is decoded. */
  lemma {:induction false} LostEvents(scr: Screen, st: State, lost: seq<Event>)
    requires st.dropped && st.slots == map[] && NoReport(lost)
    ensures var end := Run(scr, st, lost);
      && end.dropped && end.slots == map[] && end.frames == st.frames && end.errors == st.errors && end.slot == st.slot
  {
    if lost != [] { LostEvents(scr, st, lost[..|lost| - 1]); }
  }

  /** After a dropped-event marker and its closing report, everything decoded
      from then on is what the remaining events give by themselves. */
  lemma DropForgets(scr: Screen, before: seq<Event>, drop: Event, lost: seq<Event>, closing: Event, after: seq<Event>)
    requires drop.code == Dropped && closing.code == Report && NoReport(lost)
    ensures var first, all, rest :=
        Run(scr, START, before), Run(scr, START, before + ([drop] + lost + [closing]) + after),
          Run(scr, FORGOTTEN, after);
      && all.frames == first.frames + rest.frames && all.errors == first.errors + rest.errors
      && all.slots == rest.slots && all.slot == rest.slot && all.dropped == rest.dropped
  {
    var first := Run(scr, START, before);
    var marked := Step(scr, first, drop);
    var gap := [drop] + lost + [closing];
    LostEvents(scr, marked, lost);
    RunOne(scr, first, drop);
    RunAppend(scr, first, [drop], lost);
    RunOne(scr, Run(scr, marked, lost), closing);
    RunAppend(scr, first, [drop] + lost, [closing]);
    RunAppend(scr, START, before, gap);
    RunAppend(scr, START, before + gap, after);
    var closed := Run(scr, first, gap);
    assert closed == Behind(FORGOTTEN, first.frames, first.errors, closed.drops) by {
      assert first.frames + [] == first.frames && first.errors + [] == first.errors;
    }
    RunBehind(scr, FORGOTTEN, after, first.frames, first.errors, closed.drops);
  }

  lemma RunOne(scr: Screen, st: State, e: Event)
    ensures Run(scr, st, [e]) == Step(scr, st, e)
  {
    assert [e][..0] == [];
  }

  /** The frames a continuation adds. */
  function FramesSince(scr: Screen, before: seq<Event>, more: seq<Event>): (fs: seq<Frame>) {
    var n, all := |Run(scr, START, before).frames|, Run(scr, START, before + more).frames;
    if n <= |all| then all[n..] else []
  }

  /** So two histories that differ only before the marker decode alike after it. */
  lemma DropForgetsHistory(scr: Screen, p: seq<Event>, q: seq<Event>, drop: Event, lost: seq<Event>, closing: Event,
                           after: seq<Event>)
    requires drop.code == Dropped && closing.code == Report && NoReport(lost)
    ensures var gap := [drop] + lost + [closing];
      FramesSince(scr, p, gap + after) == FramesSince(scr, q, gap + after)
  {
    var gap := [drop] + lost + [closing];
    assert p + gap + after == p + (gap + after) && q + gap + after == q + (gap + after);
    DropForgets(scr, p, drop, lost, closing, after);
    DropForgets(scr, q, drop, lost, closing, after);
  }

  // ---- what a frame shows ----

  /** A dropped-event marker has not been closed yet. */
  function Lost(es: seq<Event>): bool {
    if es == [] then false
    else
      var last := es[|es| - 1].code;
      if last == Dropped then true else if last == Report then false else Lost(es[..|es| - 1])
  }

  /** The slot later events speak about. */
  function Selected(scr: Screen, es: seq<Event>): (s: Option<nat>) {
    if es == [] then Some(0)
    else
      var front, e := es[..|es| - 1], es[|es| - 1];
      if e.code == Report && Lost(front) then None
      else if e.code == Slot && !Lost(front) then (if e.value <= scr.maxSlot then Some(e.value) else None)
      else Selected(scr, front)
  }

  predicate Accepts(scr: Screen, code: Code, value: nat) {
    (code == PositionX ==> value <= scr.maxX) && (code == PositionY ==> value <= scr.maxY)
  }

  /** The last accepted value of one kind for one slot since events were dropped. */
  function Latest(scr: Screen, es: seq<Event>, s: nat, code: Code): (v: Option<nat>) {
    if es == [] then None
    else
      var front, e := es[..|es| - 1], es[|es| - 1];
      if e.code == Dropped then None
      else if e.code == code && !Lost(front) && Selected(scr, front) == Some(s)
        && Accepts(scr, code, e.value) then Some(e.value)
      else Latest(scr, front, s, code)
  }

  function IdOf(v: Option<nat>): int { if v.None? || v.value == NO_CONTACT then -1 else v.value }

  /** The slot machine keeps, for every slot, the latest value of each kind. */
  lemma {:induction false} MachineKeepsLatest(scr: Screen, es: seq<Event>, s: nat)
    ensures var st := Run(scr, START, es);
      && st.dropped == Lost(es) && st.slot == Selected(scr, es)
      && (st.dropped ==> st.slots == map[])
      && PointAt(st.slots, s) ==
        Point(IdOf(Latest(scr, es, s, TrackingId)), Latest(scr, es, s, PositionX), Latest(scr, es, s, PositionY))
  {
    if es != [] {
      var front, e := es[..|es| - 1], es[|es| - 1];
      MachineKeepsLatest(scr, front, s);
      assert e.code.Slot? || e.code.TrackingId? || e.code.PositionX? || e.code.PositionY? || e.code.Dropped?
        || e.code.Report?
        || e.code.OtherAxis? || e.code.OtherSync?;
    }
  }

  /** A report that is not lost adds one frame, and a contact is in it exactly
      when its slot's latest tracking id, x and y are there and the id is one. */
  lemma FrameShows(scr: Screen, es: seq<Event>, e: Event, c: Contact)
    requires e.code == Report && !Lost(es)
    ensures var was, now := Run(scr, START, es).frames, Run(scr, START, es + [e]).frames;
      && |now| == |was| + 1 && now[..|was|] == was && now[|was|].time == e.stamp
      && (c in now[|was|].points <==>
          && c.slot <= scr.maxSlot && c.id >= 0
          && c.id == IdOf(Latest(scr, es, c.slot, TrackingId))
          && Latest(scr, es, c.slot, PositionX) == Some(c.x) && Latest(scr, es, c.slot, PositionY) == Some(c.y))
  {
    EveryFrameOk(scr, es);
    MachineKeepsLatest(scr, es, c.slot);
    ContactsAre(scr, Run(scr, START, es).slots, scr.maxSlot + 1);
    RunAppend(scr, START, es, [e]);
    RunOne(scr, Run(scr, START, es), e);
  }

  // ---- what is counted and what is reported ----

  /** The markers of dropped events, by position. */
  ghost function Markers(es: seq<Event>): set<nat> { set k: nat | k < |es| && es[k].code == Dropped }

  /** The reports that give a frame, by position. */
  ghost function Shown(es: seq<Event>): set<nat> { set k: nat | k < |es| && es[k].code == Report && !Lost(es[..k]) }

  /** What is wrong with an event that follows these: a slot that is not there,
      or a coordinate off the screen while some slot is selected. */
  ghost predicate Wrong(scr: Screen, front: seq<Event>, e: Event, f: Fault) {
    && !Lost(front)
    && match f
       case SlotRange => e.code == Slot && e.value > scr.maxSlot
       case XRange => e.code == PositionX && e.value > scr.maxX && Selected(scr, front).Some?
       case YRange => e.code == PositionY && e.value > scr.maxY && Selected(scr, front).Some?
  }

  /** `at` are the positions of the wrong events, in order, and `errors` what is wrong with them. */
  ghost predicate Complaints(scr: Screen, es: seq<Event>, errors: seq<Fault>, at: seq<nat>) {
    && |at| == |errors|
    && (forall i :: 0 <= i < |at| ==> at[i] < |es| && Wrong(scr, es[..at[i]], es[at[i]], errors[i]))
    && (forall i, j :: 0 <= i < j < |at| ==> at[i] < at[j])
    && forall k, f :: 0 <= k < |es| && Wrong(scr, es[..k], es[k], f) ==> k in at
  }

  /** The decoder counts every marker, gives one frame for every report that
      closes no marker, and complains of every wrong event once, in order. */
  lemma {:induction false} CountsAndComplaints(scr: Screen, es: seq<Event>) returns (at: seq<nat>)
    ensures var end := Run(scr, START, es);
      && end.drops == |Markers(es)| && |end.frames| == |Shown(es)| && Complaints(scr, es, end.errors, at)
  {
    if es == [] { return []; }
    var n := |es| - 1;
    var front, e := es[..n], es[n];
    at := CountsAndComplaints(scr, front);
    hide Step, Complaints, Wrong, Lost, Selected, Markers, Shown;
    MachineKeepsLatest(scr, front, 0);
    MarkedOneMore(es);
    ShownOneMore(es);
    StepComplains(scr, front, Run(scr, START, front), e);
    at := ComplainOneMore(scr, es, Run(scr, START, front).errors, Run(scr, START, es).errors, at);
  }

  lemma StepComplains(scr: Screen, front: seq<Event>, st: State, e: Event)
    requires st.dropped == Lost(front) && st.slot == Selected(scr, front)
    ensures var after := Step(scr, st, e);
      && after.drops == st.drops + (if e.code == Dropped then 1 else 0)
      && |after.frames| == |st.frames| + (if e.code == Report && !Lost(front) then 1 else 0)
      && OneMoreFault(scr, front, e, st.errors, after.errors)
  {
    hide Lost, Selected, Contacts, PointAt;
    var after := Step(scr, st, e);
    match e.code
    case Slot => assert after.errors != st.errors ==> Wrong(scr, front, e, SlotRange);
    case PositionX => assert after.errors != st.errors ==> Wrong(scr, front, e, XRange);
    case PositionY => assert after.errors != st.errors ==> Wrong(scr, front, e, YRange);
    case _ =>
  }

  /** The event added its fault, or is not wrong. */
  ghost predicate OneMoreFault(scr: Screen, front: seq<Event>, e: Event, was: seq<Fault>, now: seq<Fault>) {
    || (now == was && forall f :: !Wrong(scr, front, e, f))
    || exists f :: Wrong(scr, front, e, f) && now == was + [f]
  }

  lemma MarkedOneMore(es: seq<Event>)
    requires es != []
    ensures var n := |es| - 1; |Markers(es)| == |Markers(es[..n])| + (if es[n].code == Dropped then 1 else 0)
  {
    var n := |es| - 1;
    assert Markers(es) == Markers(es[..n]) + (if es[n].code == Dropped then {n} else {});
  }

  lemma ShownOneMore(es: seq<Event>)
    requires es != []
    ensures var n := |es| - 1;
      |Shown(es)| == |Shown(es[..n])| + (if es[n].code == Report && !Lost(es[..n]) then 1 else 0)
  {
    hide Lost;
    var n := |es| - 1;
    forall k: nat | k < n ensures es[..n][..k] == es[..k] {}
    assert Shown(es) == Shown(es[..n]) + (if es[n].code == Report && !Lost(es[..n]) then {n} else {});
  }

  lemma ComplainOneMore(scr: Screen, es: seq<Event>, was: seq<Fault>, now: seq<Fault>, at: seq<nat>)
      returns (more: seq<nat>)
    requires es != [] && Complaints(scr, es[..|es| - 1], was, at)
    requires OneMoreFault(scr, es[..|es| - 1], es[|es| - 1], was, now)
    ensures Complaints(scr, es, now, more)
  {
    hide Wrong;
    var n := |es| - 1;
    forall k: nat | k < n ensures es[..n][..k] == es[..k] && es[..n][k] == es[k] {}
    if now == was { return at; }
    more := at + [n];
    forall i | 0 <= i < |more| ensures more[i] < |es| && Wrong(scr, es[..more[i]], es[more[i]], now[i]) {
      if i < |at| { assert Wrong(scr, es[..n][..at[i]], es[..n][at[i]], was[i]); }
    }
    forall k, f | 0 <= k < |es| && Wrong(scr, es[..k], es[k], f) ensures k in more {
      if k < n { assert Wrong(scr, es[..n][..k], es[..n][k], f); } else { assert more[|at|] == n; }
    }
  }
}
