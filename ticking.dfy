/** The per-frame update: scheduled activations fire, then active atoms' electrons advance. */
module Ticking {
  import opened Shells
  import opened Store

  /** The angle step of one frame: the update assumes 60 frames a second, whatever the clock says. */
  const FRAME_STEP: real := 1.0 / 60.0

  /** `e.angle += e.speed * step` for every electron. */
  function Advance(es: seq<Electron>, step: real): (r: seq<Electron>)
    ensures |r| == |es|
    ensures forall i :: 0 <= i < |es| ==> r[i].radius == es[i].radius && r[i].speed == es[i].speed
  {
    seq(|es|, i requires 0 <= i < |es| => es[i].(angle := es[i].angle + es[i].speed * step))
  }

  /** The inner loop of the frame update over one atom's electrons. */
  method AdvanceElectrons(es: seq<Electron>, step: real) returns (r: seq<Electron>)
    ensures r == Advance(es, step)
  {
    r := es;
    var k := 0;
    while k < |r|
      invariant 0 <= k <= |r| == |es|
      invariant forall j :: 0 <= j < k ==> r[j] == es[j].(angle := es[j].angle + es[j].speed * step)
      invariant forall j :: k <= j < |r| ==> r[j] == es[j]
    {
      r := r[k := r[k].(angle := r[k].angle + r[k].speed * step)];
      k := k + 1;
    }
    assert forall j :: 0 <= j < |r| ==> r[j] == Advance(es, step)[j];
  }

  /** The schedule of `a` has come due at time `t`. */
  predicate Due(a: Atom, t: real)
  {
    a.scheduledStart.StartsAt? && t >= a.scheduledStart.time
  }

  /** One atom's frame update at clock time `t`. */
  function TickAtom(a: Atom, t: real): (r: Atom)
    ensures r.active == (a.active || Due(a, t))
    ensures r.scheduledStart == if Due(a, t) then NotScheduled else a.scheduledStart
    ensures r.(active := a.active, scheduledStart := a.scheduledStart, electrons := a.electrons) == a
    ensures |r.electrons| == |a.electrons|
    ensures forall i :: 0 <= i < |a.electrons| ==>
      r.electrons[i].radius == a.electrons[i].radius && r.electrons[i].speed == a.electrons[i].speed
    ensures r.electrons == if r.active then Advance(a.electrons, FRAME_STEP) else a.electrons
  {
    var b := if Due(a, t) then a.(active := true, scheduledStart := NotScheduled) else a;
    if b.active then b.(electrons := Advance(b.electrons, FRAME_STEP)) else b
  }

  /** The frame update over the whole store. */
  function TickAll(s: seq<Atom>, t: real): (r: seq<Atom>)
    ensures |r| == |s|
    ensures forall i :: 0 <= i < |s| ==> r[i] == TickAtom(s[i], t)
    ensures Retouched(s, r)
    ensures forall i :: 0 <= i < |s| && Due(s[i], t) ==> r[i].active && r[i].scheduledStart == NotScheduled
    ensures forall i :: 0 <= i < |s| && !Due(s[i], t) ==>
      r[i].active == s[i].active && r[i].scheduledStart == s[i].scheduledStart
    ensures forall i :: 0 <= i < |s| ==> |r[i].electrons| == |s[i].electrons|
  {
    seq(|s|, i requires 0 <= i < |s| => TickAtom(s[i], t))
  }

  /** The frame update loop of the main loop, atom by atom, at clock time `t`. */
  method TickAtoms(s: seq<Atom>, t: real) returns (r: seq<Atom>)
    ensures r == TickAll(s, t)
  {
    r := s;
    var i := 0;
    while i < |r|
      invariant 0 <= i <= |r| == |s|
      invariant forall j :: 0 <= j < i ==> r[j] == TickAtom(s[j], t)
      invariant forall j :: i <= j < |r| ==> r[j] == s[j]
    {
      var a := r[i];
      if a.scheduledStart.StartsAt? && t >= a.scheduledStart.time {
        a := a.(active := true, scheduledStart := NotScheduled);
      }
      if a.active {
        var es := AdvanceElectrons(a.electrons, FRAME_STEP);
        a := a.(electrons := es);
      }
      r := r[i := a];
      i := i + 1;
    }
    assert forall j :: 0 <= j < |r| ==> r[j] == TickAll(s, t)[j];
  }

  /**
   * Pressing "Schedule +2s" at `now`: a frame earlier than `now + 2` leaves a
   * selected, inactive atom inactive and still scheduled; a frame at or after
   * `now + 2` activates it and clears its schedule.
   */
  lemma ScheduleThenTick(s: seq<Atom>, now: real, t: real, i: int)
    requires 0 <= i < |s| && s[i].selected && !s[i].active
    ensures var r := TickAll(Scheduled(s, now), t)[i];
      && (t < now + SCHEDULE_DELAY ==> !r.active && r.scheduledStart == StartsAt(now + SCHEDULE_DELAY))
      && (t >= now + SCHEDULE_DELAY ==> r.active && r.scheduledStart == NotScheduled)
  {
    ScheduledEffect(s, now);
  }
}
