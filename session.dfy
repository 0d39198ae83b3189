/**
 * The dashboard's state and its gestures: the category objects whose
 * position and width the gestures and the placer write in place, the link
 * list, the edit-mode flag, and the drag and resize gestures that run from
 * pointer-down to pointer-up.
 */
module Session {
  import opened Options
  import opened Geometry
  import opened SnapEngine
  import opened Mover
  import opened Placer
  import opened Text
  import opened Links
  import opened Records

  /** A category block; the gestures, the placer and the rename form update its fields in place. */
  class Category {
    var name: string
    var x: real
    var y: real
    var w: int

    constructor (name: string, x: real, y: real, w: int)
      ensures this.name == name && this.x == x && this.y == y && this.w == w
    {
      this.name, this.x, this.y, this.w := name, x, y, w;
    }

    /** The fields that are persisted. */
    function Record(): CategoryRecord
      reads this
    {
      CategoryRecord(name, x, y, w)
    }
  }

  /** The width a resize gesture gives: the dragged width, but never below MIN_WIDTH. */
  function ResizedWidth(origW: int, dx: int): (r: int)
    ensures r >= MIN_WIDTH
    ensures origW + dx >= MIN_WIDTH ==> r == origW + dx
    ensures origW + dx < MIN_WIDTH ==> r == MIN_WIDTH
  {
    if origW + dx > MIN_WIDTH then origW + dx else MIN_WIDTH
  }

  /**
   * A drag gesture, from pointer-down on a block's title to pointer-up.
   * It snapshots the other blocks once, and keeps the last accepted
   * position of the moving block; the category itself is written only on
   * release.
   */
  class DragGesture {
    const cat: Category
    const others: seq<Rect>
    const w: int
    const h: int
    const startX: int
    const startY: int
    const origX: real
    const origY: real
    var lastValidX: real
    var lastValidY: real

    /** The last accepted position is clear of every other block. */
    ghost predicate Clear()
      reads this
    {
      ClearAt(Pos(lastValidX, lastValidY), w, h, others)
    }

    constructor (cat: Category, others: seq<Rect>, w: int, h: int, startX: int, startY: int)
      ensures this.cat == cat && this.others == others && this.w == w && this.h == h
      ensures this.startX == startX && this.startY == startY
      ensures origX == cat.x && origY == cat.y
      ensures lastValidX == cat.x && lastValidY == cat.y
    {
      this.cat, this.others, this.w, this.h := cat, others, w, h;
      this.startX, this.startY := startX, startY;
      origX, origY := cat.x, cat.y;
      lastValidX, lastValidY := cat.x, cat.y;
    }

    /**
     * A pointer move to (px, py): clamp, snap, then advance each axis only
     * where the block stays clear, X first and Y against the updated X.
     * A clear accepted position stays clear whatever the pointer does.
     */
    method Move(px: int, py: int) returns (guides: seq<Guide>)
      modifies this
      ensures var s := Snap(Clamp(origX + (px - startX) as real), Clamp(origY + (py - startY) as real), w, h, others);
              guides == s.guides &&
              Pos(lastValidX, lastValidY) == Step(Pos(s.x, s.y), Pos(old(lastValidX), old(lastValidY)), w, h, others)
      ensures old(Clear()) ==> Clear()
      ensures old(lastValidX) >= 0.0 && old(lastValidY) >= 0.0 && OnCanvas(others) ==>
                lastValidX >= 0.0 && lastValidY >= 0.0
    {
      var candX := Clamp(origX + (px - startX) as real);
      var candY := Clamp(origY + (py - startY) as real);
      candX, candY, guides := SnapCandidate(candX, candY, w, h, others);
      var p := MoveStep(Pos(candX, candY), Pos(lastValidX, lastValidY), w, h, others);
      if OnCanvas(others) {
        SnapAxisNonNegative(Clamp(origX + (px - startX) as real), w, others, X);
        SnapAxisNonNegative(Clamp(origY + (py - startY) as real), h, others, Y);
      }
      lastValidX, lastValidY := p.x, p.y;
    }

    /** Pointer-up: the category takes the last accepted position; its name and width are untouched. */
    method Release()
      modifies cat
      ensures cat.x == lastValidX && cat.y == lastValidY
      ensures cat.name == old(cat.name) && cat.w == old(cat.w)
    {
      cat.x := lastValidX;
      cat.y := lastValidY;
    }
  }

  /** A resize gesture on a block's handle: width only, floored, with no collision test. */
  class ResizeGesture {
    const cat: Category
    const startX: int
    const origW: int
    /** The width shown while resizing. */
    var width: int

    constructor (cat: Category, startX: int, origW: int)
      ensures this.cat == cat && this.startX == startX && this.origW == origW && width == origW
    {
      this.cat, this.startX, this.origW := cat, startX, origW;
      width := origW;
    }

    method Move(px: int)
      modifies this
      ensures width == ResizedWidth(origW, px - startX)
    {
      width := ResizedWidth(origW, px - startX);
    }

    /** Pointer-up: the category takes the shown width; its name and position are untouched. */
    method Release()
      modifies cat
      ensures cat.w == width
      ensures cat.name == old(cat.name) && cat.x == old(cat.x) && cat.y == old(cat.y)
    {
      cat.w := width;
    }
  }

  /** What local storage yields once parsed: either list may be missing. */
  datatype Stored = Stored(links: Option<seq<Link>>, categories: Option<seq<RawCategory>>)

  /** The page's state: categories, links and the edit-mode flag. */
  class Dashboard {
    var categories: seq<Category>
    var links: seq<Link>
    var editMode: bool

    /** No category object appears twice in the list. */
    ghost predicate Valid()
      reads this
    {
      forall i, j :: 0 <= i < j < |categories| ==> categories[i] != categories[j]
    }

    /** No two categories share a name. */
    ghost predicate UniqueNames()
      reads this, categories
    {
      forall i, j :: 0 <= i < j < |categories| ==> categories[i].name != categories[j].name
    }

    constructor ()
      ensures Valid() && categories == [] && links == [] && !editMode
    {
      categories, links, editMode := [], [], false;
    }

    /** The Edit / Done button. */
    method ToggleEditMode()
      modifies this
      ensures editMode == !old(editMode)
      ensures categories == old(categories) && links == old(links)
    {
      editMode := !editMode;
    }

    /**
     * Loading: missing lists become empty (as does a failed parse, given
     * as None), and every stored category gets its defaults.
     */
    method Load(stored: Option<Stored>)
      modifies this
      ensures Valid() && editMode == old(editMode)
      ensures links == if stored.Some? && stored.value.links.Some? then stored.value.links.value else []
      ensures var raw := if stored.Some? && stored.value.categories.Some? then stored.value.categories.value else [];
              |categories| == |raw| &&
              forall i :: 0 <= i < |raw| ==> fresh(categories[i]) && categories[i].Record() == Defaulted(raw[i])
    {
      var raw := if stored.Some? && stored.value.categories.Some? then stored.value.categories.value else [];
      var recs := LoadCategories(raw);
      var cats: seq<Category> := [];
      for i := 0 to |recs|
        invariant editMode == old(editMode) && links == old(links)
        invariant |cats| == i
        invariant forall j :: 0 <= j < i ==> fresh(cats[j]) && cats[j].Record() == recs[j]
        invariant forall j, k :: 0 <= j < k < i ==> cats[j] != cats[k]
      {
        var c := new Category(recs[i].name, recs[i].x, recs[i].y, recs[i].w);
        cats := cats + [c];
      }
      categories := cats;
      links := if stored.Some? && stored.value.links.Some? then stored.value.links.value else [];
    }

    /**
     * The Add Category button: refused for an empty name or one already
     * in use; otherwise a new category at the origin with the default
     * width is appended. Name uniqueness is kept.
     */
    method AddCategory(name: string) returns (added: bool)
      requires Valid()
      modifies this
      ensures Valid() && links == old(links) && editMode == old(editMode)
      ensures added <==> name != "" && forall c :: c in old(categories) ==> c.name != name
      ensures !added ==> categories == old(categories)
      ensures added ==> |categories| == |old(categories)| + 1 &&
                        categories[..|old(categories)|] == old(categories) &&
                        fresh(categories[|old(categories)|]) &&
                        categories[|old(categories)|].Record() == CategoryRecord(name, 0.0, 0.0, DEFAULT_WIDTH)
      ensures old(UniqueNames()) ==> UniqueNames()
    {
      if name == "" || exists c :: c in categories && c.name == name {
        return false;
      }
      var c := new Category(name, 0.0, 0.0, DEFAULT_WIDTH);
      categories := categories + [c];
      added := true;
    }

    /**
     * The delete button of the category form, which the form offers only
     * for a category no link belongs to: such a category leaves the list,
     * so no link is left naming a removed category.
     */
    method RemoveCategory(idx: nat) returns (removed: bool)
      requires Valid() && idx < |categories|
      modifies this
      ensures Valid() && links == old(links) && editMode == old(editMode)
      ensures removed <==> InCategory(links, old(categories)[idx].name) == []
      ensures removed ==> categories == old(categories)[..idx] + old(categories)[idx + 1..] &&
                          forall l :: l in links ==> l.category != old(categories)[idx].name
      ensures !removed ==> categories == old(categories)
      ensures old(UniqueNames()) ==> UniqueNames()
    {
      if InCategory(links, categories[idx].name) != [] {
        return false;
      }
      categories := categories[..idx] + categories[idx + 1..];
      removed := true;
    }

    /**
     * The category form: the trimmed new name, when not empty, replaces
     * the name of the category at `idx`, and exactly the links of the old
     * name follow it; an empty name changes nothing.
     */
    method RenameCategory(idx: nat, input: string)
      requires Valid() && idx < |categories|
      modifies this, categories[idx]
      ensures categories == old(categories) && editMode == old(editMode)
      ensures categories[idx].x == old(categories[idx].x) && categories[idx].y == old(categories[idx].y)
      ensures categories[idx].w == old(categories[idx].w)
      ensures Trim(input) == "" ==> links == old(links) && categories[idx].name == old(categories[idx].name)
      ensures Trim(input) != "" ==> categories[idx].name == Trim(input) &&
                                    links == Relabel(old(links), old(categories[idx].name), Trim(input))
      ensures forall j :: 0 <= j < |categories| && j != idx ==> categories[j].name == old(categories[j].name)
    {
      var oldName := categories[idx].name;
      var newName := Trim(input);
      if newName == "" {
        return;
      }
      categories[idx].name := newName;
      links := Relabel(links, oldName, newName);
    }

    /** The delete button of the link form (ids compared loosely): every link with this id goes. */
    method DeleteLink(id: int)
      modifies this
      ensures links == WithoutId(old(links), id)
      ensures categories == old(categories) && editMode == old(editMode)
    {
      links := WithoutId(links, id);
    }

    /**
     * The link form: the icon is chosen from the clear box, a newly
     * uploaded icon and the link's previous icon; with an id being edited,
     * every link with that id is replaced; otherwise the new link, with a
     * fresh id, is appended.
     */
    method SaveLink(editing: Option<int>, freshId: int, title: string, url: string,
                    clearIcon: bool, pending: Option<string>, original: Option<string>, category: string)
      modifies this
      ensures var l := Link(if editing.Some? then Str(editing.value) else Num(freshId), title, url,
                            ChooseIcon(clearIcon, pending, original), category);
              links == if editing.Some? then ReplaceById(old(links), l) else old(links) + [l]
      ensures categories == old(categories) && editMode == old(editMode)
    {
      var icon := ChooseIcon(clearIcon, pending, original);
      var newLink := Link(if editing.Some? then Str(editing.value) else Num(freshId), title, url, icon, category);
      if editing.Some? {
        links := ReplaceById(links, newLink);
      } else {
        links := links + [newLink];
      }
    }

    /**
     * Dropping a tile on the category at `idx` (edit mode only): the first
     * link with that id moves to this category; nothing else changes.
     */
    method DropLink(id: int, idx: nat)
      requires idx < |categories|
      modifies this
      ensures categories == old(categories) && editMode == old(editMode)
      ensures var k := FirstWithId(old(links), id);
              links == if editMode && k.Some? && old(links)[k.value].category != categories[idx].name
                       then old(links)[k.value := old(links)[k.value].(category := categories[idx].name)]
                       else old(links)
    {
      if !editMode {
        return;
      }
      var k := FirstWithId(links, id);
      if k.Some? && links[k.value].category != categories[idx].name {
        links := links[k.value := links[k.value].(category := categories[idx].name)];
      }
    }

    /**
     * Placing a new block (`w` by `h`, measured) at the first free lattice
     * point of a canvas `maxW` wide; only this category's position changes.
     */
    method PositionInFreeSpace(idx: nat, w: int, h: int, maxW: int, others: seq<Rect>)
      returns (ghost col: int, ghost row: int)
      requires idx < |categories| && 0 <= w <= maxW && 0 <= h
      modifies categories[idx]
      ensures FirstFit(col, row, w, h, maxW, others)
      ensures categories[idx].x == (col * StepX(w)) as real && categories[idx].y == (row * StepY(h)) as real
      ensures categories[idx].name == old(categories[idx].name) && categories[idx].w == old(categories[idx].w)
    {
      var x, y;
      x, y, col, row := FindFreeSpot(w, h, maxW, others);
      categories[idx].x := x as real;
      categories[idx].y := y as real;
    }

    /** Pointer-down on a block's title: a drag starts only in edit mode. */
    method BeginDrag(idx: nat, startX: int, startY: int, w: int, h: int, others: seq<Rect>)
      returns (g: DragGesture?)
      requires idx < |categories|
      ensures g != null <==> editMode
      ensures g != null ==> fresh(g) && g.cat == categories[idx] && g.others == others &&
                            g.origX == categories[idx].x && g.origY == categories[idx].y &&
                            g.w == w && g.h == h && g.startX == startX && g.startY == startY &&
                            g.lastValidX == categories[idx].x && g.lastValidY == categories[idx].y
    {
      if !editMode {
        return null;
      }
      g := new DragGesture(categories[idx], others, w, h, startX, startY);
    }

    /** Pointer-down on a block's resize handle: a resize starts only in edit mode. */
    method BeginResize(idx: nat, startX: int, origW: int) returns (g: ResizeGesture?)
      requires idx < |categories|
      ensures g != null <==> editMode
      ensures g != null ==> fresh(g) && g.cat == categories[idx] && g.startX == startX &&
                            g.origW == origW && g.width == origW
    {
      if !editMode {
        return null;
      }
      g := new ResizeGesture(categories[idx], startX, origW);
    }
  }
}
