/**
 * The selection and drag controller: hit-testing on the canvas, the two
 * selection rules (replace, or toggle with the modifier held) and drag moves.
 */
module Selection {
  import opened Canvas
  import opened Store

  /** Extra pick distance beyond the nucleus radius. */
  const HIT_MARGIN: real := 8.0

  /** `length(m - a.pos) <= a.nucleusRadius + 8`. */
  predicate Hits(a: Atom, m: Vec)
  {
    WithinRadius(m, a.pos, a.nucleusRadius + HIT_MARGIN)
  }

  /** The index of the last atom in store order that the pointer hits, or -1. */
  function LastHit(s: seq<Atom>, m: Vec): (k: int)
    ensures -1 <= k < |s|
    ensures k >= 0 ==> Hits(s[k], m)
    ensures forall j :: k < j < |s| ==> !Hits(s[j], m)
  {
    if |s| == 0 then -1
    else if Hits(s[|s| - 1], m) then |s| - 1
    else LastHit(s[..|s| - 1], m)
  }

  /** The `hitId` the canvas press computes: the id of the last atom hit, or -1. */
  function HitId(s: seq<Atom>, m: Vec): int
  {
    var k := LastHit(s, m);
    if k == -1 then -1 else s[k].id
  }

  /** The proximity loop of the canvas press: later atoms overwrite earlier hits. */
  method FindHit(s: seq<Atom>, m: Vec) returns (hitId: int)
    ensures hitId == HitId(s, m)
  {
    hitId := -1;
    var i := 0;
    while i < |s|
      invariant 0 <= i <= |s|
      invariant hitId == HitId(s[..i], m)
    {
      assert s[..i + 1][..i] == s[..i];
      if WithinRadius(m, s[i].pos, s[i].nucleusRadius + HIT_MARGIN) {
        hitId := s[i].id;
      }
      i := i + 1;
    }
    assert s[..|s|] == s;
  }

  // ---------------------------------------------------------------------
  // Selection rules

  /** Canvas press without the modifier: `a.selected = (a.id == hitId)` for every atom. */
  function SelectOnlyId(s: seq<Atom>, id: int): seq<Atom>
  {
    seq(|s|, i requires 0 <= i < |s| => s[i].(selected := s[i].id == id))
  }

  /** Canvas press with the modifier: flip `selected` on the atoms with id `id`. */
  function ToggleId(s: seq<Atom>, id: int): seq<Atom>
  {
    seq(|s|, i requires 0 <= i < |s| => if s[i].id == id then s[i].(selected := !s[i].selected) else s[i])
  }

  /** Side-list click without the modifier: clear every flag, then select row `k`. */
  function SelectOnlyAt(s: seq<Atom>, k: int): seq<Atom>
  {
    seq(|s|, i requires 0 <= i < |s| => s[i].(selected := i == k))
  }

  /** Side-list click with the modifier: flip row `k` only. */
  function ToggleAt(s: seq<Atom>, k: int): seq<Atom>
  {
    seq(|s|, i requires 0 <= i < |s| => if i == k then s[i].(selected := !s[i].selected) else s[i])
  }

  /** A press on empty canvas: every atom is deselected. */
  function DeselectAll(s: seq<Atom>): seq<Atom>
  {
    seq(|s|, i requires 0 <= i < |s| => s[i].(selected := false))
  }

  /** The non-modifier loop of the canvas press. */
  method SelectOnly(s: seq<Atom>, id: int) returns (r: seq<Atom>)
    ensures r == SelectOnlyId(s, id)
  {
    r := s;
    var i := 0;
    while i < |r|
      invariant 0 <= i <= |r| == |s|
      invariant forall j :: 0 <= j < i ==> r[j] == s[j].(selected := s[j].id == id)
      invariant forall j :: i <= j < |r| ==> r[j] == s[j]
    {
      r := r[i := r[i].(selected := r[i].id == id)];
      i := i + 1;
    }
    assert forall j :: 0 <= j < |r| ==> r[j] == SelectOnlyId(s, id)[j];
  }

  /** The modifier loop of the canvas press. */
  method ToggleSelectionOf(s: seq<Atom>, id: int) returns (r: seq<Atom>)
    ensures r == ToggleId(s, id)
  {
    r := s;
    var i := 0;
    while i < |r|
      invariant 0 <= i <= |r| == |s|
      invariant forall j :: 0 <= j < i ==> r[j] == (if s[j].id == id then s[j].(selected := !s[j].selected) else s[j])
      invariant forall j :: i <= j < |r| ==> r[j] == s[j]
    {
      if r[i].id == id {
        r := r[i := r[i].(selected := !r[i].selected)];
      }
      i := i + 1;
    }
    assert forall j :: 0 <= j < |r| ==> r[j] == ToggleId(s, id)[j];
  }

  /** `for (auto& z : atoms) z.selected = false;` as a loop. */
  method ClearSelection(s: seq<Atom>) returns (r: seq<Atom>)
    ensures r == DeselectAll(s)
  {
    r := s;
    var i := 0;
    while i < |r|
      invariant 0 <= i <= |r| == |s|
      invariant forall j :: 0 <= j < i ==> r[j] == s[j].(selected := false)
      invariant forall j :: i <= j < |r| ==> r[j] == s[j]
    {
      r := r[i := r[i].(selected := false)];
      i := i + 1;
    }
    assert forall j :: 0 <= j < |r| ==> r[j] == DeselectAll(s)[j];
  }

  /**
   * What a canvas press at `m` leaves selected: the last atom hit toggles with
   * the modifier held, or becomes the only selected atom without it; a press
   * that hits nothing deselects everything.
   */
  function PressedSelection(s: seq<Atom>, m: Vec, modifier: bool): (r: seq<Atom>)
    ensures Retouched(s, r)
    ensures forall i :: 0 <= i < |s| ==> r[i].(selected := s[i].selected) == s[i]
  {
    var k := LastHit(s, m);
    if k == -1 then DeselectAll(s) else if modifier then ToggleAt(s, k) else SelectOnlyAt(s, k)
  }

  /**
   * The canvas press on the store: the selection update, done by the id of the
   * last hit, and the search for the atom the drag session opens on. `-1`
   * stands for no hit, which is sound because issued ids start at 1. Only
   * presses at or right of `SIDEBAR_W` reach it (`App.Sandbox.LeftPressed`).
   */
  method CanvasPress(s: seq<Atom>, m: Vec, modifier: bool) returns (r: seq<Atom>, hitId: int, d: int)
    requires IdsIncreasing(s)
    requires forall i :: 0 <= i < |s| ==> 1 <= s[i].id
    ensures r == PressedSelection(s, m, modifier)
    ensures d == LastHit(s, m)
    ensures hitId == HitId(s, m)
  {
    hitId := FindHit(s, m);
    var k := LastHit(s, m);
    if hitId != -1 {
      if modifier {
        r := ToggleSelectionOf(s, hitId);
      } else {
        r := SelectOnly(s, hitId);
      }
      ByIdIsByIndex(s, k);
      d := FindFirstId(r, hitId);
      IndexOfIdOfMember(r, k);
    } else {
      r := ClearSelection(s);
      d := -1;
    }
  }

  /** With unique ids, selecting by id is selecting the one atom that carries it. */
  lemma ByIdIsByIndex(s: seq<Atom>, k: int)
    requires IdsIncreasing(s) && 0 <= k < |s|
    ensures SelectOnlyId(s, s[k].id) == SelectOnlyAt(s, k)
    ensures ToggleId(s, s[k].id) == ToggleAt(s, k)
  {
    assert forall i :: 0 <= i < |s| ==> (s[i].id == s[k].id <==> i == k);
  }

  /** Only `selected` changes; toggling the same row twice restores the selection. */
  lemma ToggleAtEffect(s: seq<Atom>, k: int)
    ensures |ToggleAt(s, k)| == |s|
    ensures forall i :: 0 <= i < |s| ==> ToggleAt(s, k)[i].(selected := s[i].selected) == s[i]
    ensures forall i :: 0 <= i < |s| ==> (ToggleAt(s, k)[i].selected != s[i].selected <==> i == k)
    ensures ToggleAt(ToggleAt(s, k), k) == s
  {
    assert forall i :: 0 <= i < |s| ==> ToggleAt(ToggleAt(s, k), k)[i] == s[i];
  }

  /** Atoms whose flags say exactly row `k` is selected have `[s[k].id]` as their selected ids. */
  lemma {:induction false} SelectedIdsOfSingle(s: seq<Atom>, k: int)
    requires 0 <= k < |s|
    requires forall i :: 0 <= i < |s| ==> (s[i].selected <==> i == k)
    ensures SelectedIds(s) == [s[k].id]
  {
    var p := s[..|s| - 1];
    if k == |s| - 1 {
      SelectedIdsOfNone(p);
    } else {
      SelectedIdsOfSingle(p, k);
    }
  }

  lemma {:induction false} SelectedIdsOfNone(s: seq<Atom>)
    requires forall i :: 0 <= i < |s| ==> !s[i].selected
    ensures SelectedIds(s) == []
  {
    if |s| > 0 {
      SelectedIdsOfNone(s[..|s| - 1]);
    }
  }

  /** Atoms whose flags say exactly rows `i < j` are selected have `[s[i].id, s[j].id]` as their selected ids. */
  lemma {:induction false} SelectedIdsOfPair(s: seq<Atom>, i: int, j: int)
    requires 0 <= i < j < |s|
    requires forall k :: 0 <= k < |s| ==> (s[k].selected <==> k == i || k == j)
    ensures SelectedIds(s) == [s[i].id, s[j].id]
  {
    var p := s[..|s| - 1];
    if j == |s| - 1 {
      SelectedIdsOfSingle(p, i);
    } else {
      SelectedIdsOfPair(p, i, j);
    }
  }

  /**
   * Clicking row `i`, then any other row `j` with the modifier held, then
   * "Link Pair" links the two atoms, smaller id first, unless they were
   * linked already.
   */
  lemma SelectTwoRowsThenLink(s: seq<Atom>, ls: seq<Link>, i: int, j: int)
    requires IdsIncreasing(s) && 0 <= i < |s| && 0 <= j < |s| && i != j
    ensures var l := Canon(s[i].id, s[j].id);
      AfterLinkPair(ToggleAt(SelectOnlyAt(s, i), j), ls) == if l in ls then ls else ls + [l]
  {
    var t := ToggleAt(SelectOnlyAt(s, i), j);
    if i < j {
      SelectedIdsOfPair(t, i, j);
    } else {
      SelectedIdsOfPair(t, j, i);
    }
  }

  /** "Remove Selected" with nothing selected changes neither atoms nor links. */
  lemma RemoveWithoutSelection(s: seq<Atom>, ls: seq<Link>)
    requires forall i :: 0 <= i < |s| ==> !s[i].selected
    ensures Survivors(s, SelectedIds(s)) == s
    ensures LinksAvoiding(ls, SelectedIds(s)) == ls
  {
    SelectedIdsOfNone(s);
    SurvivorsOfNothing(s);
    LinksAvoidingNothing(ls);
  }

  /** After a replacing click exactly row `k` is selected; after a miss nothing is. */
  lemma SelectionOutcome(s: seq<Atom>, k: int)
    requires 0 <= k < |s|
    ensures SelectedIds(SelectOnlyAt(s, k)) == [s[k].id]
    ensures SelectedIds(DeselectAll(s)) == []
    ensures Ids(SelectOnlyAt(s, k)) == Ids(s) && Ids(DeselectAll(s)) == Ids(s)
  {
    SelectedIdsOfSingle(SelectOnlyAt(s, k), k);
    SelectedIdsOfNone(DeselectAll(s));
  }

  // ---------------------------------------------------------------------
  // Drag moves

  /** The first index whose atom has id `id`, or -1: the loops that `break` at the first match. */
  function IndexOfId(s: seq<Atom>, id: int): (k: int)
    ensures -1 <= k < |s|
    ensures k >= 0 ==> s[k].id == id
    ensures forall j :: 0 <= j < |s| && (k == -1 || j < k) ==> s[j].id != id
  {
    if |s| == 0 then -1
    else if s[0].id == id then 0
    else
      var k := IndexOfId(s[1..], id);
      if k == -1 then -1 else k + 1
  }

  /** The `for ... if (a.id == id) { ...; break; }` search of the drag code. */
  method FindFirstId(s: seq<Atom>, id: int) returns (k: int)
    ensures k == IndexOfId(s, id)
  {
    k := 0;
    while k < |s| && s[k].id != id
      invariant 0 <= k <= |s|
      invariant forall j :: 0 <= j < k ==> s[j].id != id
    {
      k := k + 1;
    }
    if k == |s| {
      k := -1;
    }
  }

  /** With unique ids, the search for the id of atom `k` finds `k`. */
  lemma IndexOfIdOfMember(s: seq<Atom>, k: int)
    requires IdsIncreasing(s) && 0 <= k < |s|
    ensures IndexOfId(s, s[k].id) == k
  {
  }

  /** Top of the side list: below the two button rows, five full-width buttons and the heading. */
  const LIST_TOP: real := 20.0 + 48.0 + 5.0 * 40.0 + 48.0 + 24.0
  /** Left edge of a list row, and the panel margin on its right. */
  const ROW_LEFT: real := 16.0
  /** Rows are 22 pixels high and start every 24 pixels. */
  const ROW_HEIGHT: real := 22.0
  const ROW_PITCH: real := 24.0

  /**
   * `sf::FloatRect(16, yList + 24 * i, SIDEBAR_W - 32, 22).contains(m)`: the
   * left and top edges belong to the row, the right and bottom edges do not.
   */
  predicate RowContains(i: nat, m: Vec)
  {
    && ROW_LEFT <= m.x < SIDEBAR_W - ROW_LEFT
    && LIST_TOP + ROW_PITCH * i as real <= m.y < LIST_TOP + ROW_PITCH * i as real + ROW_HEIGHT
  }

  /**
   * The row of a list of `n` atoms that a press at `m` lands on, or -1. Rows
   * do not overlap, so the first row containing `m` is the only one.
   */
  function RowAt(n: nat, m: Vec): (row: int)
    ensures -1 <= row < n
    ensures row >= 0 ==> RowContains(row, m)
    ensures forall j :: 0 <= j < n && j != row ==> !RowContains(j, m)
  {
    if n == 0 then -1
    else
      var row := RowAt(n - 1, m);
      if row >= 0 then row
      else if RowContains(n - 1, m) then n - 1
      else -1
  }

  /** The row `yy` advances by 24 per atom, and the loop breaks at the row that contains `m`. */
  method FindRow(n: nat, m: Vec) returns (row: int)
    ensures row == RowAt(n, m)
  {
    row := -1;
    var yy := LIST_TOP;
    var i := 0;
    while i < n
      invariant 0 <= i <= n
      invariant yy == LIST_TOP + ROW_PITCH * i as real
      invariant RowAt(i, m) == -1
    {
      if ROW_LEFT <= m.x < SIDEBAR_W - ROW_LEFT && yy <= m.y < yy + ROW_HEIGHT {
        assert RowContains(i, m);
        row := i;
        return;
      }
      yy := yy + ROW_PITCH;
      i := i + 1;
    }
  }

  /** A press in the panel to the left or right of the rows hits no row. */
  lemma PressBesideListHitsNoRow(n: nat, m: Vec)
    requires m.x < ROW_LEFT || SIDEBAR_W - ROW_LEFT <= m.x
    ensures RowAt(n, m) == -1
  {
  }

  /**
   * `length(m - a.pos) <= a.nucleusRadius + 8`: when `len` is the length of
   * `m - a.pos`, the hit test holds exactly when `len` is within the pick radius.
   */
  lemma HitsIsDistance(a: Atom, m: Vec, len: real)
    requires 0.0 <= len && len * len == SquaredLength(Sub(m, a.pos))
    ensures Hits(a, m) <==> len <= a.nucleusRadius + HIT_MARGIN
  {
    WithinRadiusIsLength(m, a.pos, a.nucleusRadius + HIT_MARGIN, len);
  }

  /** The pointer-move body: the first atom with id `id` moves to `p`. */
  function MoveAtom(s: seq<Atom>, id: int, p: Vec): (r: seq<Atom>)
    ensures |r| == |s|
    ensures IdsIncreasing(s) ==>
      forall i :: 0 <= i < |s| ==> r[i] == if s[i].id == id then s[i].(pos := p) else s[i]
  {
    var k := IndexOfId(s, id);
    if k == -1 then s else s[k := s[k].(pos := p)]
  }
}
