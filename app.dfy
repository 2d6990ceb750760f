/**
 * The sandbox's state as `main` keeps it: the atom and link vectors, the id
 * counter, the catalog cursor and the drag session, with one method per
 * button command and per pointer event, and the per-frame update.
 */
module App {
  import opened Canvas
  import opened Shells
  import opened Catalog
  import opened Store
  import opened Selection
  import opened Ticking

  /** The side-panel buttons, in the order they are laid out. */
  datatype Command =
    | PreviousElementButton
    | NextElementButton
    | AddAtomButton
    | ToggleActiveButton
    | ScheduleButton
    | LinkPairButton
    | RemoveSelectedButton
    | ClearAllButton

  class Sandbox {
    var atoms: seq<Atom>
    var links: seq<Link>
    var nextId: int
    var selectedElement: int
    var dragging: bool
    var dragOffset: Vec
    var draggingId: int

    ghost predicate Valid()
      reads this
    {
      && 1 <= nextId
      && 0 <= selectedElement < |ELEMENTS|
      && StoreValid(atoms, links, nextId)
      && (dragging <==> draggingId != -1)
    }

    constructor ()
      ensures Valid()
      ensures atoms == [] && links == [] && nextId == 1 && selectedElement == 0
      ensures !dragging && draggingId == -1 && dragOffset == Vec(0.0, 0.0)
    {
      atoms := [];
      links := [];
      nextId := 1;
      selectedElement := 0;
      dragging := false;
      dragOffset := Vec(0.0, 0.0);
      draggingId := -1;
    }

    /** The "< Element" button. */
    method PreviousElementClicked()
      requires Valid()
      modifies this
      ensures Valid()
      ensures selectedElement == PreviousElement(old(selectedElement))
      ensures atoms == old(atoms) && links == old(links) && nextId == old(nextId)
      ensures dragging == old(dragging) && draggingId == old(draggingId) && dragOffset == old(dragOffset)
    {
      selectedElement := CppRem(selectedElement - 1 + |ELEMENTS|, |ELEMENTS|);
    }

    /** The "Element >" button. */
    method NextElementClicked()
      requires Valid()
      modifies this
      ensures Valid()
      ensures selectedElement == NextElement(old(selectedElement))
      ensures atoms == old(atoms) && links == old(links) && nextId == old(nextId)
      ensures dragging == old(dragging) && draggingId == old(draggingId) && dragOffset == old(dragOffset)
    {
      selectedElement := CppRem(selectedElement + 1, |ELEMENTS|);
    }

    /**
     * `addAtom`: append an atom of the current element with the next id. `rx`
     * and `ry` are the two `std::rand()` draws of the spawn point, `roll` the
     * draws of the electron speeds.
     */
    method AddAtom(rx: nat, ry: nat, roll: nat -> nat)
      requires Valid()
      modifies this
      ensures Valid()
      ensures atoms == old(atoms) + [NewAtom(old(nextId), old(selectedElement), rx, ry, roll)]
      ensures Ids(atoms) == Ids(old(atoms)) + [old(nextId)]
      ensures old(nextId) !in Ids(old(atoms))
      ensures nextId == old(nextId) + 1
      ensures links == old(links) && selectedElement == old(selectedElement)
      ensures dragging == old(dragging) && draggingId == old(draggingId) && dragOffset == old(dragOffset)
    {
      var el := ELEMENTS[selectedElement];
      var electrons := MakeElectronsForElement(el.atomicNumber, roll);
      var a := Atom(nextId, selectedElement, SpawnPosition(rx, ry), NUCLEUS_RADIUS, false, false, electrons, NotScheduled);
      assert a == NewAtom(nextId, selectedElement, rx, ry, roll);
      AddKeepsInvariant(atoms, links, nextId, a);
      nextId := nextId + 1;
      atoms := atoms + [a];
    }

    /** `removeSelected`: drop the selected atoms and every link touching one of them. */
    method RemoveSelected()
      requires Valid()
      modifies this
      ensures Valid()
      ensures atoms == Survivors(old(atoms), SelectedIds(old(atoms)))
      ensures links == LinksAvoiding(old(links), SelectedIds(old(atoms)))
      ensures nextId == old(nextId) && selectedElement == old(selectedElement)
      ensures dragging == old(dragging) && draggingId == old(draggingId) && dragOffset == old(dragOffset)
    {
      var toRemove := CollectSelectedIds(atoms);
      var s := EraseRemovedAtoms(atoms, toRemove);
      var ls := EraseRemovedLinks(links, toRemove);
      RemoveKeepsInvariant(atoms, links, nextId, toRemove);
      assert StoreValid(s, ls, nextId);
      atoms, links := s, ls;
    }

    /** `toggleActiveSelected`. */
    method ToggleActiveSelected()
      requires Valid()
      modifies this
      ensures Valid()
      ensures atoms == ToggledActive(old(atoms))
      ensures links == old(links) && nextId == old(nextId) && selectedElement == old(selectedElement)
      ensures dragging == old(dragging) && draggingId == old(draggingId) && dragOffset == old(dragOffset)
    {
      var s := FlipSelectedActive(atoms);
      RetouchedKeepsInvariant(atoms, s, links, nextId);
      atoms := s;
    }

    /** `scheduleSelected`, with the clock reading `now`. */
    method ScheduleSelected(now: real)
      requires Valid()
      modifies this
      ensures Valid()
      ensures atoms == Scheduled(old(atoms), now)
      ensures links == old(links) && nextId == old(nextId) && selectedElement == old(selectedElement)
      ensures dragging == old(dragging) && draggingId == old(draggingId) && dragOffset == old(dragOffset)
    {
      var s := ScheduleSelectedAtoms(atoms, now);
      RetouchedKeepsInvariant(atoms, s, links, nextId);
      atoms := s;
    }

    /** `clearAll`: both collections become empty; the id counter is kept. */
    method ClearAll()
      requires Valid()
      modifies this
      ensures Valid()
      ensures atoms == [] && links == []
      ensures nextId == old(nextId) && selectedElement == old(selectedElement)
      ensures dragging == old(dragging) && draggingId == old(draggingId) && dragOffset == old(dragOffset)
    {
      atoms := [];
      links := [];
    }

    /** `linkPair`: link the two selected atoms, unless that link exists. */
    method LinkPair()
      requires Valid()
      modifies this
      ensures Valid()
      ensures links == AfterLinkPair(old(atoms), old(links))
      ensures atoms == old(atoms) && nextId == old(nextId) && selectedElement == old(selectedElement)
      ensures dragging == old(dragging) && draggingId == old(draggingId) && dragOffset == old(dragOffset)
    {
      var sel := CollectSelectedIds(atoms);
      LinkPairKeepsInvariant(atoms, links, nextId);
      if |sel| == 2 {
        var a, b := sel[0], sel[1];
        if a > b {
          a, b := b, a;
        }
        var present := HasLink(links, a, b);
        if !present {
          links := links + [Link(a, b)];
        }
      }
    }

    /** A left press on a button runs the button's command. */
    method Execute(cmd: Command, now: real, rx: nat, ry: nat, roll: nat -> nat)
      requires Valid()
      modifies this
      ensures Valid()
      ensures match cmd
        case PreviousElementButton =>
          selectedElement == PreviousElement(old(selectedElement)) && atoms == old(atoms) && links == old(links)
        case NextElementButton =>
          selectedElement == NextElement(old(selectedElement)) && atoms == old(atoms) && links == old(links)
        case AddAtomButton =>
          atoms == old(atoms) + [NewAtom(old(nextId), old(selectedElement), rx, ry, roll)] && links == old(links)
        case ToggleActiveButton =>
          atoms == ToggledActive(old(atoms)) && links == old(links)
        case ScheduleButton =>
          atoms == Scheduled(old(atoms), now) && links == old(links)
        case LinkPairButton =>
          atoms == old(atoms) && links == AfterLinkPair(old(atoms), old(links))
        case RemoveSelectedButton =>
          atoms == Survivors(old(atoms), SelectedIds(old(atoms)))
          && links == LinksAvoiding(old(links), SelectedIds(old(atoms)))
        case ClearAllButton =>
          atoms == [] && links == []
      ensures cmd != PreviousElementButton && cmd != NextElementButton ==> selectedElement == old(selectedElement)
      ensures nextId == old(nextId) + (if cmd == AddAtomButton then 1 else 0)
      ensures dragging == old(dragging) && draggingId == old(draggingId) && dragOffset == old(dragOffset)
    {
      match cmd {
        case PreviousElementButton => PreviousElementClicked();
        case NextElementButton => NextElementClicked();
        case AddAtomButton => AddAtom(rx, ry, roll);
        case ToggleActiveButton => ToggleActiveSelected();
        case ScheduleButton => ScheduleSelected(now);
        case LinkPairButton => LinkPair();
        case RemoveSelectedButton => RemoveSelected();
        case ClearAllButton => ClearAll();
      }
    }

    /**
     * A left press on row `row` of the side list (-1 or any other index
     * outside the list when the press hits no row).
     */
    method ListRowPressed(row: int, modifier: bool)
      requires Valid()
      modifies this
      ensures Valid()
      ensures atoms == if 0 <= row < |old(atoms)| then
                         (if modifier then ToggleAt(old(atoms), row) else SelectOnlyAt(old(atoms), row))
                       else old(atoms)
      ensures links == old(links) && nextId == old(nextId) && selectedElement == old(selectedElement)
      ensures dragging == old(dragging) && draggingId == old(draggingId) && dragOffset == old(dragOffset)
    {
      if 0 <= row < |atoms| {
        var s := atoms;
        if modifier {
          s := s[row := s[row].(selected := !s[row].selected)];
          assert s == ToggleAt(atoms, row);
        } else {
          s := ClearSelection(s);
          s := s[row := s[row].(selected := true)];
          assert s == SelectOnlyAt(atoms, row);
        }
        RetouchedKeepsInvariant(atoms, s, links, nextId);
        atoms := s;
      }
    }

    /**
     * A left press on the canvas at `m`, that is, right of the side panel:
     * select the atom hit (toggling it when the modifier is held) and open a
     * drag session on it, or deselect everything when no atom is hit.
     */
    method CanvasPressed(m: Vec, modifier: bool)
      requires Valid()
      requires SIDEBAR_W <= m.x
      modifies this
      ensures Valid()
      ensures atoms == PressedSelection(old(atoms), m, modifier)
      ensures var k := LastHit(old(atoms), m);
        if k == -1 then
          dragging == old(dragging) && draggingId == old(draggingId) && dragOffset == old(dragOffset)
        else
          dragging && draggingId == old(atoms)[k].id && dragOffset == Sub(m, old(atoms)[k].pos)
      ensures links == old(links) && nextId == old(nextId) && selectedElement == old(selectedElement)
    {
      var s, hitId, d := CanvasPress(atoms, m, modifier);
      RetouchedKeepsInvariant(atoms, s, links, nextId);
      assert StoreValid(s, links, nextId);
      if d != -1 {
        dragging := true;
        draggingId := hitId;
        dragOffset := Sub(m, s[d].pos);
      }
      atoms := s;
    }

    /**
     * A left press at `m` that hits no button: a press in the side panel
     * selects by list row, a press on the canvas selects by proximity.
     */
    method LeftPressed(m: Vec, modifier: bool)
      requires Valid()
      modifies this
      ensures Valid()
      ensures m.x < SIDEBAR_W ==>
        && atoms == (var row := RowAt(|old(atoms)|, m);
                     if row == -1 then old(atoms)
                     else if modifier then ToggleAt(old(atoms), row)
                     else SelectOnlyAt(old(atoms), row))
        && dragging == old(dragging) && draggingId == old(draggingId) && dragOffset == old(dragOffset)
      ensures SIDEBAR_W <= m.x ==>
        && atoms == PressedSelection(old(atoms), m, modifier)
        && var k := LastHit(old(atoms), m);
           if k == -1 then
             dragging == old(dragging) && draggingId == old(draggingId) && dragOffset == old(dragOffset)
           else
             dragging && draggingId == old(atoms)[k].id && dragOffset == Sub(m, old(atoms)[k].pos)
      ensures links == old(links) && nextId == old(nextId) && selectedElement == old(selectedElement)
    {
      if m.x < SIDEBAR_W {
        var row := FindRow(|atoms|, m);
        ListRowPressed(row, modifier);
      } else {
        CanvasPressed(m, modifier);
      }
    }

    /** A pointer move to `m` in a `w` by `h` window: drag the atom of the open session. */
    method PointerMoved(m: Vec, w: nat, h: nat)
      requires Valid()
      modifies this
      ensures Valid()
      ensures atoms == if old(dragging) && old(draggingId) != -1
                       then MoveAtom(old(atoms), old(draggingId), ClampToCanvas(Sub(m, old(dragOffset)), w, h))
                       else old(atoms)
      ensures links == old(links) && nextId == old(nextId) && selectedElement == old(selectedElement)
      ensures dragging == old(dragging) && draggingId == old(draggingId) && dragOffset == old(dragOffset)
    {
      if dragging && draggingId != -1 {
        var i := FindFirstId(atoms, draggingId);
        if i != -1 {
          var s := atoms[i := atoms[i].(pos := ClampToCanvas(Sub(m, dragOffset), w, h))];
          RetouchedKeepsInvariant(atoms, s, links, nextId);
          atoms := s;
        }
      }
    }

    /** A left release closes the drag session, whether or not one is open. */
    method PointerReleased()
      requires Valid()
      modifies this
      ensures Valid()
      ensures !dragging && draggingId == -1
      ensures atoms == old(atoms) && links == old(links) && nextId == old(nextId)
      ensures selectedElement == old(selectedElement) && dragOffset == old(dragOffset)
    {
      dragging := false;
      draggingId := -1;
    }

    /** The frame update at clock time `t`. */
    method Tick(t: real)
      requires Valid()
      modifies this
      ensures Valid()
      ensures atoms == TickAll(old(atoms), t)
      ensures links == old(links) && nextId == old(nextId) && selectedElement == old(selectedElement)
      ensures dragging == old(dragging) && draggingId == old(draggingId) && dragOffset == old(dragOffset)
    {
      var s := TickAtoms(atoms, t);
      RetouchedKeepsInvariant(atoms, s, links, nextId);
      atoms := s;
    }
  }
}
