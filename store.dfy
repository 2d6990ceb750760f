/**
 * The entity store: atoms, links and the operations of the command buttons,
 * as functions on the sequences the store holds, with the invariants they keep.
 */
module Store {
  import opened Canvas
  import opened Shells
  import opened Catalog

  /** `std::optional<float> scheduledStart`: an absolute simulation time, or nothing. */
  datatype Pending = NotScheduled | StartsAt(time: real)

  datatype Atom = Atom(
    id: int,
    elementIndex: int,
    pos: Vec,
    nucleusRadius: real,
    active: bool,
    selected: bool,
    electrons: seq<Electron>,
    scheduledStart: Pending)

  /** A drawn interaction between the atoms with ids `aId` and `bId`. */
  datatype Link = Link(aId: int, bId: int)

  const NUCLEUS_RADIUS: real := 16.0
  /** "Schedule +2s": the delay between the button press and the activation. */
  const SCHEDULE_DELAY: real := 2.0

  // ---------------------------------------------------------------------
  // Invariants of the store

  function Ids(s: seq<Atom>): seq<int>
  {
    seq(|s|, i requires 0 <= i < |s| => s[i].id)
  }

  predicate IdsIncreasing(s: seq<Atom>)
  {
    forall i, j :: 0 <= i < j < |s| ==> s[i].id < s[j].id
  }

  /** Every link stores the smaller id first. */
  predicate Canonical(ls: seq<Link>)
  {
    forall k :: 0 <= k < |ls| ==> ls[k].aId < ls[k].bId
  }

  predicate NoDuplicateLinks(ls: seq<Link>)
  {
    forall i, j :: 0 <= i < j < |ls| ==> ls[i] != ls[j]
  }

  /** Both ends of every link are live atoms. */
  predicate LinksLive(ls: seq<Link>, s: seq<Atom>)
  {
    forall k :: 0 <= k < |ls| ==> ls[k].aId in Ids(s) && ls[k].bId in Ids(s)
  }

  /**
   * What the store keeps true between commands, with `nextId` the next id to
   * hand out: ids strictly increase in store order and were all issued before,
   * element indices are in the catalog, links are canonical, distinct and live.
   */
  predicate StoreValid(s: seq<Atom>, ls: seq<Link>, nextId: int)
  {
    && IdsIncreasing(s)
    && (forall i :: 0 <= i < |s| ==> 1 <= s[i].id < nextId)
    && (forall i :: 0 <= i < |s| ==> 0 <= s[i].elementIndex < |ELEMENTS|)
    && Canonical(ls)
    && NoDuplicateLinks(ls)
    && LinksLive(ls, s)
  }

  lemma IdOfMember(s: seq<Atom>, i: int)
    requires 0 <= i < |s|
    ensures s[i].id in Ids(s)
  {
    assert Ids(s)[i] == s[i].id;
  }

  /** An id in `Ids(s)` is the id of some atom of `s`. */
  lemma MemberOfIds(s: seq<Atom>, x: int) returns (i: int)
    requires x in Ids(s)
    ensures 0 <= i < |s| && s[i].id == x
  {
    var k :| 0 <= k < |Ids(s)| && Ids(s)[k] == x;
    i := k;
  }

  /** `t` is `s` with only per-atom state edited: the same atoms, by id and element, in the same order. */
  predicate Retouched(s: seq<Atom>, t: seq<Atom>)
  {
    && |t| == |s|
    && forall i :: 0 <= i < |s| ==> t[i].id == s[i].id && t[i].elementIndex == s[i].elementIndex
  }

  /** An edit that keeps every atom's id and element leaves the store valid. */
  lemma RetouchedKeepsInvariant(s: seq<Atom>, t: seq<Atom>, ls: seq<Link>, nextId: int)
    requires StoreValid(s, ls, nextId)
    requires Retouched(s, t)
    ensures StoreValid(t, ls, nextId)
  {
    assert Ids(t) == Ids(s);
  }

  // ---------------------------------------------------------------------
  // addAtom

  /** The random spawn point `{SIDEBAR_W + 100 + rand() % 600, 100 + rand() % 500}`. */
  function SpawnPosition(rx: nat, ry: nat): (p: Vec)
    ensures SIDEBAR_W + 100.0 <= p.x < SIDEBAR_W + 700.0
    ensures 100.0 <= p.y < 600.0
  {
    Vec(SIDEBAR_W + 100.0 + ((rx % 600) as real), 100.0 + ((ry % 500) as real))
  }

  /** The atom `addAtom` appends, for catalog entry `elementIndex`. */
  function NewAtom(id: int, elementIndex: int, rx: nat, ry: nat, roll: nat -> nat): (a: Atom)
    requires 0 <= elementIndex < |ELEMENTS|
    ensures a.id == id && a.elementIndex == elementIndex
    ensures !a.active && !a.selected && a.scheduledStart == NotScheduled
    ensures |a.electrons| == Capped(ELEMENTS[elementIndex].atomicNumber)
  {
    AllocationSize(ELEMENTS[elementIndex].atomicNumber, roll);
    Atom(id, elementIndex, SpawnPosition(rx, ry), NUCLEUS_RADIUS, false, false,
         Allocation(ELEMENTS[elementIndex].atomicNumber, roll), NotScheduled)
  }

  /** Appending an atom with id `nextId` keeps the store valid once `nextId` is incremented. */
  lemma AddKeepsInvariant(s: seq<Atom>, ls: seq<Link>, nextId: int, a: Atom)
    requires StoreValid(s, ls, nextId)
    requires a.id == nextId >= 1 && 0 <= a.elementIndex < |ELEMENTS|
    ensures StoreValid(s + [a], ls, nextId + 1)
    ensures Ids(s + [a]) == Ids(s) + [nextId]
  {
    var t := s + [a];
    assert Ids(t) == Ids(s) + [nextId];
    forall k | 0 <= k < |ls|
      ensures ls[k].aId in Ids(t) && ls[k].bId in Ids(t)
    {
      assert ls[k].aId in Ids(s) && ls[k].bId in Ids(s);
    }
  }

  // ---------------------------------------------------------------------
  // The ids of the selected atoms, in store order

  function SelectedIds(s: seq<Atom>): seq<int>
  {
    if |s| == 0 then []
    else SelectedIds(s[..|s| - 1]) + (if s[|s| - 1].selected then [s[|s| - 1].id] else [])
  }

  /** The positions of the selected atoms. */
  function SelectedIndices(s: seq<Atom>): set<int>
  {
    set i | 0 <= i < |s| && s[i].selected
  }

  /** One id is collected per selected atom. */
  lemma {:induction false} SelectedIdsCount(s: seq<Atom>)
    ensures |SelectedIds(s)| == |SelectedIndices(s)|
  {
    if |s| > 0 {
      var p := s[..|s| - 1];
      var n := |s| - 1;
      SelectedIdsCount(p);
      assert SelectedIndices(s) == SelectedIndices(p) + (if s[n].selected then {n} else {});
      assert n !in SelectedIndices(p);
    }
  }

  /** An id is collected exactly when some selected atom carries it. */
  lemma {:induction false} SelectedIdsMembership(s: seq<Atom>, x: int)
    ensures x in SelectedIds(s) <==> exists i :: 0 <= i < |s| && s[i].selected && s[i].id == x
  {
    if |s| > 0 {
      var p := s[..|s| - 1];
      SelectedIdsMembership(p, x);
      if x in SelectedIds(p) {
        var i :| 0 <= i < |p| && p[i].selected && p[i].id == x;
        assert s[i] == p[i];
      }
      if exists i :: 0 <= i < |s| && s[i].selected && s[i].id == x {
        var i :| 0 <= i < |s| && s[i].selected && s[i].id == x;
        if i < |p| {
          assert p[i] == s[i];
        }
      }
    }
  }

  /** With unique ids, an atom's id is collected exactly when that atom is selected. */
  lemma SelectedIdsOfAtom(s: seq<Atom>, i: int)
    requires IdsIncreasing(s) && 0 <= i < |s|
    ensures s[i].id in SelectedIds(s) <==> s[i].selected
  {
    SelectedIdsMembership(s, s[i].id);
  }

  /** The collected ids inherit the strict order of the store. */
  lemma {:induction false} SelectedIdsIncreasing(s: seq<Atom>)
    requires IdsIncreasing(s)
    ensures forall i, j :: 0 <= i < j < |SelectedIds(s)| ==> SelectedIds(s)[i] < SelectedIds(s)[j]
    ensures forall x :: x in SelectedIds(s) ==> x in Ids(s)
  {
    if |s| > 0 {
      var p := s[..|s| - 1];
      SelectedIdsIncreasing(p);
      forall x | x in SelectedIds(p)
        ensures x < s[|s| - 1].id
      {
        SelectedIdsMembership(p, x);
        var i :| 0 <= i < |p| && p[i].selected && p[i].id == x;
        assert s[i] == p[i];
      }
      var q := SelectedIds(p);
      var r := SelectedIds(s);
      forall i, j | 0 <= i < j < |r|
        ensures r[i] < r[j]
      {
        if j >= |q| {
          assert r[i] == q[i] && q[i] in q;
        } else {
          assert r[i] == q[i] && r[j] == q[j];
        }
      }
      forall x | x in SelectedIds(s)
        ensures x in Ids(s)
      {
        SelectedIdsMembership(s, x);
        var i :| 0 <= i < |s| && s[i].selected && s[i].id == x;
        IdOfMember(s, i);
      }
    }
  }

  /** The first loop of `removeSelected` and `linkPair`: collect the selected ids. */
  method CollectSelectedIds(s: seq<Atom>) returns (ids: seq<int>)
    ensures ids == SelectedIds(s)
  {
    ids := [];
    var i := 0;
    while i < |s|
      invariant 0 <= i <= |s|
      invariant ids == SelectedIds(s[..i])
    {
      assert s[..i + 1][..i] == s[..i];
      if s[i].selected {
        ids := ids + [s[i].id];
      }
      i := i + 1;
    }
    assert s[..|s|] == s;
  }

  // ---------------------------------------------------------------------
  // removeSelected

  /** `atoms.erase(remove_if(...))`: the atoms whose id is not in `removed`, in store order. */
  function Survivors(s: seq<Atom>, removed: seq<int>): seq<Atom>
  {
    if |s| == 0 then []
    else Survivors(s[..|s| - 1], removed) + (if s[|s| - 1].id in removed then [] else [s[|s| - 1]])
  }

  /** `links.erase(remove_if(...))`: the links touching no id in `removed`, in their order. */
  function LinksAvoiding(ls: seq<Link>, removed: seq<int>): seq<Link>
  {
    if |ls| == 0 then []
    else
      var l := ls[|ls| - 1];
      LinksAvoiding(ls[..|ls| - 1], removed) + (if l.aId in removed || l.bId in removed then [] else [l])
  }

  /** Reference definition: the unselected atoms, in store order. */
  function Unselected(s: seq<Atom>): seq<Atom>
  {
    if |s| == 0 then []
    else Unselected(s[..|s| - 1]) + (if s[|s| - 1].selected then [] else [s[|s| - 1]])
  }

  /** Exactly the unselected atoms remain, so none of the remaining atoms is selected. */
  lemma {:induction false} UnselectedMembership(s: seq<Atom>, a: Atom)
    ensures a in Unselected(s) <==> a in s && !a.selected
  {
    if |s| > 0 {
      var p := s[..|s| - 1];
      UnselectedMembership(p, a);
      assert s == p + [s[|s| - 1]];
    }
  }

  /** The unselected atoms keep the strict id order of the store. */
  lemma {:induction false} UnselectedIncreasing(s: seq<Atom>)
    requires IdsIncreasing(s)
    ensures IdsIncreasing(Unselected(s))
  {
    if |s| > 0 {
      var p := s[..|s| - 1];
      UnselectedIncreasing(p);
      forall a | a in Unselected(p)
        ensures a.id < s[|s| - 1].id
      {
        UnselectedMembership(p, a);
      }
    }
  }

  /** Filtering by id is filtering by the flag, when the two agree on every atom. */
  lemma {:induction false} SurvivorsAgree(s: seq<Atom>, removed: seq<int>)
    requires forall i :: 0 <= i < |s| ==> (s[i].id in removed <==> s[i].selected)
    ensures Survivors(s, removed) == Unselected(s)
  {
    if |s| > 0 {
      SurvivorsAgree(s[..|s| - 1], removed);
    }
  }

  /** `removeSelected` keeps exactly the unselected atoms, in their original order. */
  lemma SurvivorsAreUnselected(s: seq<Atom>)
    requires IdsIncreasing(s)
    ensures Survivors(s, SelectedIds(s)) == Unselected(s)
  {
    forall i | 0 <= i < |s|
      ensures s[i].id in SelectedIds(s) <==> s[i].selected
    {
      SelectedIdsOfAtom(s, i);
    }
    SurvivorsAgree(s, SelectedIds(s));
  }

  /** A link survives exactly when neither of its ends was removed. */
  lemma {:induction false} LinksAvoidingMembership(ls: seq<Link>, removed: seq<int>, l: Link)
    ensures l in LinksAvoiding(ls, removed) <==> l in ls && l.aId !in removed && l.bId !in removed
  {
    if |ls| > 0 {
      var p := ls[..|ls| - 1];
      LinksAvoidingMembership(p, removed, l);
      assert ls == p + [ls[|ls| - 1]];
    }
  }

  /** Filtering links keeps them canonical and distinct. */
  lemma {:induction false} LinksAvoidingKeepsShape(ls: seq<Link>, removed: seq<int>)
    requires Canonical(ls) && NoDuplicateLinks(ls)
    ensures Canonical(LinksAvoiding(ls, removed)) && NoDuplicateLinks(LinksAvoiding(ls, removed))
  {
    if |ls| > 0 {
      var p := ls[..|ls| - 1];
      LinksAvoidingKeepsShape(p, removed);
      var last := ls[|ls| - 1];
      LinksAvoidingMembership(p, removed, last);
      assert last !in p;
    }
  }

  /** Filtering atoms keeps their relative order: it distributes over concatenation. */
  lemma {:induction false} SurvivorsAppend(a: seq<Atom>, b: seq<Atom>, removed: seq<int>)
    ensures Survivors(a + b, removed) == Survivors(a, removed) + Survivors(b, removed)
  {
    if |b| == 0 {
      assert a + b == a;
    } else {
      var p := b[..|b| - 1];
      assert (a + b)[..|a + b| - 1] == a + p;
      SurvivorsAppend(a, p, removed);
    }
  }

  /** Filtering links keeps their relative order: it distributes over concatenation. */
  lemma {:induction false} LinksAvoidingAppend(a: seq<Link>, b: seq<Link>, removed: seq<int>)
    ensures LinksAvoiding(a + b, removed) == LinksAvoiding(a, removed) + LinksAvoiding(b, removed)
  {
    if |b| == 0 {
      assert a + b == a;
    } else {
      var p := b[..|b| - 1];
      assert (a + b)[..|a + b| - 1] == a + p;
      LinksAvoidingAppend(a, p, removed);
    }
  }

  /** Removing no ids keeps every atom. */
  lemma {:induction false} SurvivorsOfNothing(s: seq<Atom>)
    ensures Survivors(s, []) == s
  {
    if |s| > 0 {
      SurvivorsOfNothing(s[..|s| - 1]);
    }
  }

  /** Removing no ids keeps every link. */
  lemma {:induction false} LinksAvoidingNothing(ls: seq<Link>)
    ensures LinksAvoiding(ls, []) == ls
  {
    if |ls| > 0 {
      LinksAvoidingNothing(ls[..|ls| - 1]);
    }
  }

  /** `removeSelected` leaves a valid store. */
  lemma RemoveKeepsInvariant(s: seq<Atom>, ls: seq<Link>, nextId: int, removed: seq<int>)
    requires StoreValid(s, ls, nextId)
    requires removed == SelectedIds(s)
    ensures StoreValid(Survivors(s, removed), LinksAvoiding(ls, removed), nextId)
  {
    var t := Survivors(s, removed);
    var kept := LinksAvoiding(ls, removed);
    SurvivorsAreUnselected(s);
    UnselectedIncreasing(s);
    LinksAvoidingKeepsShape(ls, removed);
    forall i | 0 <= i < |t|
      ensures 1 <= t[i].id < nextId && 0 <= t[i].elementIndex < |ELEMENTS|
    {
      UnselectedMembership(s, t[i]);
    }
    forall k | 0 <= k < |kept|
      ensures kept[k].aId in Ids(t) && kept[k].bId in Ids(t)
    {
      LinksAvoidingMembership(ls, removed, kept[k]);
      SurvivingEnd(s, kept[k].aId);
      SurvivingEnd(s, kept[k].bId);
    }
  }

  /**
   * After `removeSelected` exactly the unselected atoms remain, in their order,
   * so none of them is selected; exactly the links with no removed end remain.
   */
  lemma RemoveSelectedOutcome(s: seq<Atom>, ls: seq<Link>)
    requires IdsIncreasing(s)
    ensures Survivors(s, SelectedIds(s)) == Unselected(s)
    ensures forall a :: a in Survivors(s, SelectedIds(s)) <==> a in s && !a.selected
    ensures forall l :: l in LinksAvoiding(ls, SelectedIds(s)) <==>
      l in ls && l.aId !in SelectedIds(s) && l.bId !in SelectedIds(s)
  {
    SurvivorsAreUnselected(s);
    forall a
      ensures a in Survivors(s, SelectedIds(s)) <==> a in s && !a.selected
    {
      UnselectedMembership(s, a);
    }
    forall l
      ensures l in LinksAvoiding(ls, SelectedIds(s)) <==>
        l in ls && l.aId !in SelectedIds(s) && l.bId !in SelectedIds(s)
    {
      LinksAvoidingMembership(ls, SelectedIds(s), l);
    }
  }

  /** A live id that was not removed belongs to a surviving atom. */
  lemma SurvivingEnd(s: seq<Atom>, x: int)
    requires IdsIncreasing(s)
    requires x in Ids(s) && x !in SelectedIds(s)
    ensures x in Ids(Survivors(s, SelectedIds(s)))
  {
    var i := MemberOfIds(s, x);
    SelectedIdsOfAtom(s, i);
    SurvivorsAreUnselected(s);
    UnselectedMembership(s, s[i]);
    var t := Unselected(s);
    var j :| 0 <= j < |t| && t[j] == s[i];
    IdOfMember(t, j);
  }

  /** The `remove_if` pass over the atoms. */
  method EraseRemovedAtoms(s: seq<Atom>, removed: seq<int>) returns (kept: seq<Atom>)
    ensures kept == Survivors(s, removed)
  {
    kept := [];
    var i := 0;
    while i < |s|
      invariant 0 <= i <= |s|
      invariant kept == Survivors(s[..i], removed)
    {
      assert s[..i + 1][..i] == s[..i];
      if s[i].id !in removed {
        kept := kept + [s[i]];
      }
      i := i + 1;
    }
    assert s[..|s|] == s;
  }

  /** The `remove_if` pass over the links. */
  method EraseRemovedLinks(ls: seq<Link>, removed: seq<int>) returns (kept: seq<Link>)
    ensures kept == LinksAvoiding(ls, removed)
  {
    kept := [];
    var k := 0;
    while k < |ls|
      invariant 0 <= k <= |ls|
      invariant kept == LinksAvoiding(ls[..k], removed)
    {
      assert ls[..k + 1][..k] == ls[..k];
      if !(ls[k].aId in removed || ls[k].bId in removed) {
        kept := kept + [ls[k]];
      }
      k := k + 1;
    }
    assert ls[..|ls|] == ls;
  }

  // ---------------------------------------------------------------------
  // toggleActiveSelected and scheduleSelected

  function FlipActive(a: Atom): Atom
  {
    if a.selected then a.(active := !a.active) else a
  }

  /** `toggleActiveSelected`: every selected atom flips `active`. */
  function ToggledActive(s: seq<Atom>): seq<Atom>
  {
    seq(|s|, i requires 0 <= i < |s| => FlipActive(s[i]))
  }

  /** The loop of `toggleActiveSelected`. */
  method FlipSelectedActive(s: seq<Atom>) returns (r: seq<Atom>)
    ensures r == ToggledActive(s)
  {
    r := s;
    var i := 0;
    while i < |r|
      invariant 0 <= i <= |r| == |s|
      invariant forall j :: 0 <= j < i ==> r[j] == FlipActive(s[j])
      invariant forall j :: i <= j < |r| ==> r[j] == s[j]
    {
      if r[i].selected {
        r := r[i := r[i].(active := !r[i].active)];
      }
      i := i + 1;
    }
    assert forall j :: 0 <= j < |r| ==> r[j] == ToggledActive(s)[j];
  }

  /**
   * Only `active` changes, and only on selected atoms; the schedule is left alone,
   * and toggling twice restores the store.
   */
  lemma ToggledActiveEffect(s: seq<Atom>)
    ensures |ToggledActive(s)| == |s|
    ensures forall i :: 0 <= i < |s| ==>
      ToggledActive(s)[i] == s[i].(active := s[i].active != s[i].selected)
    ensures ToggledActive(ToggledActive(s)) == s
  {
    assert forall i :: 0 <= i < |s| ==> ToggledActive(ToggledActive(s))[i] == s[i];
  }

  function ScheduleOne(a: Atom, now: real): Atom
  {
    if a.selected then a.(scheduledStart := StartsAt(now + SCHEDULE_DELAY)) else a
  }

  /** `scheduleSelected` at time `now`. */
  function Scheduled(s: seq<Atom>, now: real): seq<Atom>
  {
    seq(|s|, i requires 0 <= i < |s| => ScheduleOne(s[i], now))
  }

  /** The loop of `scheduleSelected`, with the clock reading `now`. */
  method ScheduleSelectedAtoms(s: seq<Atom>, now: real) returns (r: seq<Atom>)
    ensures r == Scheduled(s, now)
  {
    r := s;
    var i := 0;
    while i < |r|
      invariant 0 <= i <= |r| == |s|
      invariant forall j :: 0 <= j < i ==> r[j] == ScheduleOne(s[j], now)
      invariant forall j :: i <= j < |r| ==> r[j] == s[j]
    {
      if r[i].selected {
        r := r[i := r[i].(scheduledStart := StartsAt(now + SCHEDULE_DELAY))];
      }
      i := i + 1;
    }
    assert forall j :: 0 <= j < |r| ==> r[j] == Scheduled(s, now)[j];
  }

  /**
   * Selected atoms are due two seconds after `now`, whatever they were due
   * before; unselected atoms are untouched; applying it twice is applying it once.
   */
  lemma ScheduledEffect(s: seq<Atom>, now: real)
    ensures |Scheduled(s, now)| == |s|
    ensures forall i :: 0 <= i < |s| && s[i].selected ==>
      Scheduled(s, now)[i] == s[i].(scheduledStart := StartsAt(now + SCHEDULE_DELAY))
    ensures forall i :: 0 <= i < |s| && !s[i].selected ==> Scheduled(s, now)[i] == s[i]
    ensures Scheduled(Scheduled(s, now), now) == Scheduled(s, now)
  {
    assert forall i :: 0 <= i < |s| ==> Scheduled(Scheduled(s, now), now)[i] == Scheduled(s, now)[i];
  }

  // ---------------------------------------------------------------------
  // linkPair

  /** The two ids put in order, as the `std::swap` in `linkPair` does. */
  function Canon(a: int, b: int): (l: Link)
    ensures l.aId <= l.bId
    ensures {l.aId, l.bId} == {a, b}
  {
    if a > b then Link(b, a) else Link(a, b)
  }

  /** The links after `linkPair`. */
  function AfterLinkPair(s: seq<Atom>, ls: seq<Link>): seq<Link>
  {
    var sel := SelectedIds(s);
    if |sel| != 2 then ls
    else
      var l := Canon(sel[0], sel[1]);
      if l in ls then ls else ls + [l]
  }

  /** `std::any_of` over the links. */
  method HasLink(ls: seq<Link>, a: int, b: int) returns (found: bool)
    ensures found <==> Link(a, b) in ls
  {
    found := false;
    var k := 0;
    while k < |ls|
      invariant 0 <= k <= |ls|
      invariant found <==> Link(a, b) in ls[..k]
    {
      assert ls[..k + 1] == ls[..k] + [ls[k]];
      if ls[k].aId == a && ls[k].bId == b {
        found := true;
      }
      k := k + 1;
    }
    assert ls[..|ls|] == ls;
  }

  /**
   * Unless exactly two atoms are selected nothing changes; otherwise the one
   * canonical link between them is present afterwards, added at the end if it
   * was missing.
   */
  lemma LinkPairEffect(s: seq<Atom>, ls: seq<Link>)
    requires IdsIncreasing(s)
    ensures |SelectedIndices(s)| != 2 ==> AfterLinkPair(s, ls) == ls
    ensures |SelectedIds(s)| != 2 ==> AfterLinkPair(s, ls) == ls
    ensures |SelectedIds(s)| == 2 ==>
      var a, b := SelectedIds(s)[0], SelectedIds(s)[1];
      && a < b
      && (exists i :: 0 <= i < |s| && s[i].selected && s[i].id == a)
      && (exists j :: 0 <= j < |s| && s[j].selected && s[j].id == b)
      && AfterLinkPair(s, ls) == (if Link(a, b) in ls then ls else ls + [Link(a, b)])
  {
    SelectedIdsIncreasing(s);
    SelectedIdsCount(s);
    var sel := SelectedIds(s);
    if |sel| == 2 {
      SelectedIdsMembership(s, sel[0]);
      SelectedIdsMembership(s, sel[1]);
    }
  }

  /** `linkPair` twice is `linkPair` once. */
  lemma LinkPairIdempotent(s: seq<Atom>, ls: seq<Link>)
    ensures AfterLinkPair(s, AfterLinkPair(s, ls)) == AfterLinkPair(s, ls)
  {
  }

  /** `linkPair` leaves a valid store: the new link is canonical, new and between live atoms. */
  lemma LinkPairKeepsInvariant(s: seq<Atom>, ls: seq<Link>, nextId: int)
    requires StoreValid(s, ls, nextId)
    ensures StoreValid(s, AfterLinkPair(s, ls), nextId)
  {
    SelectedIdsIncreasing(s);
    var sel := SelectedIds(s);
    if |sel| == 2 {
      assert sel[0] in sel && sel[1] in sel;
    }
  }
}
