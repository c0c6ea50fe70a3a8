/**
 The canvas player entity: one game participant drawn as a sprite on the map,
 dragged with the pointer and toggled between the dead section and the reset
 section by a double click.

 `PlayerState` is the entity's whole state as a value; the functions over it
 (`Updated`, `Initial`, `MouseMoved`, `MouseDown`, `MouseUp`, `TargetSection`,
 `ToggledSections`) specify the class `Player`, whose methods change the
 entity in place.
 */
module CanvasPlayer {
  import opened Geometry
  import opened Sections

  /** The participant record (`IPlayer`): colour key, display name and current section. */
  datatype PlayerData = PlayerData(color: string, name: string, section: int)

  /** Everything the entity holds, as one value. */
  datatype PlayerState = PlayerState(
    data: PlayerData,
    resetSectionId: int,
    deadSectionId: int,
    unusedSectionId: int,
    aliveRect: SpriteRect,
    deadRect: SpriteRect,
    imageRect: SpriteRect,
    rect: Box,
    draggable: bool,
    active: bool)

  /**
   The derived fields agree with the data: the dead sprite exactly for the
   dead section, the bounds sized like the sprite, and dragging refused only
   for an unused participant that is not also dead.
   */
  predicate Consistent(st: PlayerState)
  {
    && st.imageRect == (if st.data.section == st.deadSectionId then st.deadRect else st.aliveRect)
    && st.rect.width == st.imageRect.w
    && st.rect.height == st.imageRect.h
    && (st.draggable <==> st.data.section == st.deadSectionId || st.data.section != st.unusedSectionId)
  }

  /** `updatePlayer`: store the data and the three section ids, then refresh the derived fields. */
  function Updated(st: PlayerState, data: PlayerData, sections: seq<int>): PlayerState
    requires |sections| >= 3
  {
    var deadId := sections[1];
    var image := if data.section == deadId then st.deadRect else st.aliveRect;
    st.(data := data,
        resetSectionId := sections[0],
        deadSectionId := deadId,
        unusedSectionId := sections[2],
        imageRect := image,
        draggable := if data.section == deadId then true else data.section != sections[2],
        rect := st.rect.(width := image.w, height := image.h))
  }

  /**
   The refresh reads the section ids in the order reset, dead, unused, leaves
   the entity consistent, keeps the position, the sprite regions and the drag
   flag `active`, and lets the dead test win when the dead and unused ids
   coincide.
   */
  lemma UpdatedSpec(st: PlayerState, data: PlayerData, sections: seq<int>)
    requires |sections| >= 3
    ensures var r := Updated(st, data, sections);
      && r.data == data
      && r.resetSectionId == sections[0] && r.deadSectionId == sections[1] && r.unusedSectionId == sections[2]
      && Consistent(r)
      && (r.imageRect == r.deadRect || r.imageRect == r.aliveRect)
      && !r.draggable == (data.section != sections[1] && data.section == sections[2])
      && r.rect.x == st.rect.x && r.rect.y == st.rect.y
      && r.aliveRect == st.aliveRect && r.deadRect == st.deadRect
      && r.active == st.active
  {
  }

  /** Refreshing twice with the same arguments is the same as refreshing once. */
  lemma UpdatedIdempotent(st: PlayerState, data: PlayerData, sections: seq<int>)
    requires |sections| >= 3
    ensures Updated(Updated(st, data, sections), data, sections) == Updated(st, data, sections)
  {
  }

  /** Refreshing with the data and ids already held changes nothing in a consistent entity. */
  lemma UpdatedFixesConsistent(st: PlayerState)
    requires Consistent(st)
    ensures Updated(st, st.data, [st.resetSectionId, st.deadSectionId, st.unusedSectionId]) == st
  {
  }

  /**
   The constructor: bounds at `position` sized like the alive sprite, a
   refresh, the position set again, then `draggable` forced on and `active` off.
   The fields a refresh overwrites start from the alive sprite and the given ids.
   */
  function Initial(data: PlayerData, position: Vector, sections: seq<int>,
                   aliveRect: SpriteRect, deadRect: SpriteRect): PlayerState
    requires |sections| >= 3
  {
    var start := PlayerState(data, sections[0], sections[1], sections[2], aliveRect, deadRect, aliveRect,
                             Box(position.x, position.y, aliveRect.w, aliveRect.h), false, false);
    var st := Updated(start, data, sections);
    st.(rect := st.rect.(x := position.x, y := position.y), draggable := true, active := false)
  }

  /**
   A new entity sits at `position`, sized like the sprite its section selects,
   is not being dragged, and is draggable, even when the participant is unused.
   */
  lemma InitialSpec(data: PlayerData, position: Vector, sections: seq<int>,
                    aliveRect: SpriteRect, deadRect: SpriteRect)
    requires |sections| >= 3
    ensures var r := Initial(data, position, sections, aliveRect, deadRect);
      && r.data == data
      && r.resetSectionId == sections[0] && r.deadSectionId == sections[1] && r.unusedSectionId == sections[2]
      && r.aliveRect == aliveRect && r.deadRect == deadRect
      && r.imageRect == (if data.section == sections[1] then deadRect else aliveRect)
      && r.rect == Box(position.x, position.y, r.imageRect.w, r.imageRect.h)
      && r.draggable
      && !r.active
  {
  }

  /**
   Because `draggable` is forced on after the refresh, a new entity for an
   unused participant breaks the draggable rule of `Consistent` until its next
   refresh, which restores it.
   */
  lemma InitialUnusedNotConsistent(data: PlayerData, position: Vector, sections: seq<int>,
                                   aliveRect: SpriteRect, deadRect: SpriteRect)
    requires |sections| >= 3
    requires data.section == sections[2] && data.section != sections[1]
    ensures !Consistent(Initial(data, position, sections, aliveRect, deadRect))
    ensures Consistent(Updated(Initial(data, position, sections, aliveRect, deadRect), data, sections))
  {
    UpdatedSpec(Initial(data, position, sections, aliveRect, deadRect), data, sections);
  }

  /** `onMouseMove`: while dragged, the bounds are recentred on the pointer. */
  function MouseMoved(st: PlayerState, c: Vector): PlayerState
  {
    if st.active then st.(rect := CenteredOn(st.rect, c)) else st
  }

  /** `onMouseDown`: dragging starts exactly when the entity is draggable and hit. */
  function MouseDown(st: PlayerState, c: Vector): PlayerState
  {
    st.(active := st.draggable && Contains(st.rect, c))
  }

  /** `onMouseUp`: dragging stops exactly when the entity is draggable and hit. */
  function MouseUp(st: PlayerState, c: Vector): PlayerState
  {
    st.(active := !(st.draggable && Contains(st.rect, c)))
  }

  /**
   A move while dragged puts the centre of the bounds on the pointer and keeps
   their size; a move while not dragged changes nothing. Only the bounds move.
   */
  lemma MouseMovedSpec(st: PlayerState, c: Vector)
    ensures var r := MouseMoved(st, c);
      && (st.active ==> r.rect.x + r.rect.width / 2.0 == c.x && r.rect.y + r.rect.height / 2.0 == c.y)
      && r.rect.width == st.rect.width && r.rect.height == st.rect.height
      && (!st.active ==> r == st)
      && r == st.(rect := r.rect)
  {
  }

  /** The pointer handlers keep the derived fields consistent. */
  lemma PointerPreservesConsistent(st: PlayerState, c: Vector)
    requires Consistent(st)
    ensures Consistent(MouseMoved(st, c))
    ensures Consistent(MouseDown(st, c))
    ensures Consistent(MouseUp(st, c))
  {
  }

  /**
   Press inside a draggable entity, move, release: the press starts the drag,
   the move centres the bounds on the pointer, and a release anywhere inside
   the recentred bounds stops the drag; for bounds with a positive area that
   includes a release at the pointer itself.
   */
  lemma DragRoundTrip(st: PlayerState, press: Vector, to: Vector, release: Vector)
    requires st.draggable && Contains(st.rect, press)
    requires st.rect.width > 0.0 && st.rect.height > 0.0
    ensures MouseDown(st, press).active
    ensures MouseMoved(MouseDown(st, press), to).rect == CenteredOn(st.rect, to)
    ensures !MouseUp(MouseMoved(MouseDown(st, press), to), to).active
    ensures Contains(CenteredOn(st.rect, to), release) ==>
      !MouseUp(MouseMoved(MouseDown(st, press), to), release).active
  {
    CenteredContains(st.rect, to);
  }

  /**
   A release that misses the bounds, or any release on an entity that is not
   draggable, leaves the entity marked as dragged.
   */
  lemma MouseUpMissKeepsActive(st: PlayerState, c: Vector)
    requires !st.draggable || !Contains(st.rect, c)
    ensures MouseUp(st, c).active
  {
  }

  /** The section a double click moves the participant to. */
  function TargetSection(st: PlayerState): int
  {
    if st.data.section == st.deadSectionId then st.resetSectionId else st.deadSectionId
  }

  /** The section list a double click writes back. */
  function ToggledSections(st: PlayerState, sections: seq<Section>): seq<Section>
  {
    if st.data.section == st.deadSectionId
    then ReviveSections(sections, st.data.color, st.deadSectionId, st.resetSectionId)
    else KillSections(sections, st.data.color, st.deadSectionId)
  }

  /**
   Alive to dead: the participant ends up in exactly the dead sections, one
   more copy there and none elsewhere, ids and order kept, pointer on the dead id.
   */
  lemma ToggleAliveToDead(st: PlayerState, sections: seq<Section>)
    requires st.data.section != st.deadSectionId
    ensures TargetSection(st) == st.deadSectionId
    ensures var r := ToggledSections(st, sections);
      && |r| == |sections|
      && forall i :: 0 <= i < |sections| ==>
           && r[i].id == sections[i].id
           && (st.data.color in r[i].players <==> sections[i].id == st.deadSectionId)
           && (sections[i].id == st.deadSectionId ==> r[i].players == sections[i].players + [st.data.color])
  {
    var r := ToggledSections(st, sections);
    forall i | 0 <= i < |sections|
      ensures st.data.color in r[i].players <==> sections[i].id == st.deadSectionId
    {
      KillSectionsMembership(sections, st.data.color, st.deadSectionId, i);
    }
  }

  /**
   Dead to alive: the dead sections lose the participant, a reset section that
   is not also dead gains one copy at its end, the rest is kept, and the
   pointer moves to the reset id.
   */
  lemma ToggleDeadToAlive(st: PlayerState, sections: seq<Section>)
    requires st.data.section == st.deadSectionId
    ensures TargetSection(st) == st.resetSectionId
    ensures var r := ToggledSections(st, sections);
      && |r| == |sections|
      && forall i :: 0 <= i < |sections| ==>
           && r[i].id == sections[i].id
           && (sections[i].id == st.deadSectionId ==> st.data.color !in r[i].players)
           && (sections[i].id != st.deadSectionId && sections[i].id == st.resetSectionId ==>
                 r[i].players == sections[i].players + [st.data.color])
           && (sections[i].id != st.deadSectionId && sections[i].id != st.resetSectionId ==>
                 r[i] == sections[i])
  {
  }

  /** The participant as drawn on the map canvas. */
  class Player {
    var data: PlayerData
    var resetSectionId: int
    var deadSectionId: int
    var unusedSectionId: int
    const aliveRect: SpriteRect
    const deadRect: SpriteRect
    var imageRect: SpriteRect
    const rect: Rectangle
    var draggable: bool
    var active: bool

    function State(): PlayerState
      reads this, rect
    {
      PlayerState(data, resetSectionId, deadSectionId, unusedSectionId,
                  aliveRect, deadRect, imageRect, rect.Bounds(), draggable, active)
    }

    constructor (data: PlayerData, position: Vector, sections: seq<int>,
                 aliveRect: SpriteRect, deadRect: SpriteRect)
      requires |sections| >= 3
      ensures State() == Initial(data, position, sections, aliveRect, deadRect)
      ensures fresh(rect)
    {
      rect := new Rectangle(position, aliveRect.w, aliveRect.h);
      this.aliveRect := aliveRect;
      this.deadRect := deadRect;
      // Placeholders until the refresh below sets them.
      this.data := data;
      resetSectionId, deadSectionId, unusedSectionId := sections[0], sections[1], sections[2];
      imageRect := aliveRect;
      draggable, active := false, false;
      new;
      UpdatePlayer(data, sections);
      rect.SetPosition(position.x, position.y);
      draggable := true;
      active := false;
    }

    method UpdatePlayer(data: PlayerData, sections: seq<int>)
      requires |sections| >= 3
      modifies this, rect
      ensures State() == Updated(old(State()), data, sections)
    {
      this.data := data;
      resetSectionId := sections[0];
      deadSectionId := sections[1];
      unusedSectionId := sections[2];
      draggable := true;
      if data.section == deadSectionId {
        imageRect := deadRect;
      } else {
        imageRect := aliveRect;
        if data.section == unusedSectionId {
          draggable := false;
        }
      }
      rect.SetDimensions(imageRect.w, imageRect.h);
    }

    method OnMouseMove(coordinate: Vector) returns (consumed: bool)
      modifies rect
      ensures State() == MouseMoved(old(State()), coordinate)
      ensures consumed == active
    {
      if active {
        rect.SetPosition(coordinate.x - rect.width / 2.0, coordinate.y - rect.height / 2.0);
        return true;
      }
      return false;
    }

    /** `button` is accepted and not looked at. */
    method OnMouseDown(button: int, coordinate: Vector) returns (consumed: bool)
      modifies this
      ensures State() == MouseDown(old(State()), coordinate)
      ensures consumed == active
    {
      active := draggable && rect.IsPointInside(coordinate);
      return active;
    }

    /** `button` is accepted and not looked at. */
    method OnMouseUp(button: int, coordinate: Vector) returns (consumed: bool)
      modifies this
      ensures State() == MouseUp(old(State()), coordinate)
      ensures consumed == active
    {
      active := !(draggable && rect.IsPointInside(coordinate));
      return active;
    }

    /**
     A hit on a participant that is in play toggles it between the dead section
     and the reset section in the store; the entity itself is left as it was
     until its next refresh.
     */
    method OnDoubleClick(coordinate: Vector, store: SectionStore) returns (consumed: bool)
      modifies store
      ensures consumed == (Contains(State().rect, coordinate) && data.section != unusedSectionId)
      ensures consumed ==> store.sections == ToggledSections(State(), old(store.sections))
      ensures consumed ==> store.playerSections == old(store.playerSections)[data.color := TargetSection(State())]
      ensures !consumed ==> store.sections == old(store.sections) && store.playerSections == old(store.playerSections)
      ensures State() == old(State())
    {
      if rect.IsPointInside(coordinate) && data.section != unusedSectionId {
        var sections := store.sections;
        var newSection := resetSectionId;
        if data.section == deadSectionId {
          store.SetSections(ReviveSections(sections, data.color, deadSectionId, resetSectionId));
        } else {
          store.SetSections(KillSections(sections, data.color, deadSectionId));
          newSection := deadSectionId;
        }
        store.SetPlayerSection(data.color, newSection);
        return true;
      }
      return false;
    }
  }
}
