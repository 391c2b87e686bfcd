/** The outfit canvas: items chosen in the picker are stacked onto a canvas
    at a default position, the canvas can be cleared, and saving is refused
    while it is empty. */
module OutfitStudio {
  import opened Wardrobe

  /** An item placed on the canvas: the item's own fields plus its position,
      scale and stacking order. */
  datatype CanvasItem = CanvasItem(item: Item, x: int, y: int, scale: int, zIndex: int)

  /** The default position and scale of a newly placed item. */
  const DefaultX: int := 50
  const DefaultY: int := 50
  const DefaultScale: int := 1

  /** What the save button would store for one canvas item. */
  datatype Placement = Placement(id: string, x: int, y: int)

  /** The answer to the save button. */
  datatype SaveOutcome =
    | EmptyCanvas
    | NotImplemented(placements: seq<Placement>)

  /** Every canvas item's stacking order is its position in the list. */
  predicate Layered(canvas: seq<CanvasItem>) {
    forall i :: 0 <= i < |canvas| ==> canvas[i].zIndex == i
  }

  /** The canvas item that selecting `item` adds on top of a canvas holding `count` items. */
  function Place(item: Item, count: nat): (c: CanvasItem)
    ensures c.item == item && c.zIndex == count
    ensures c.x == DefaultX && c.y == DefaultY && c.scale == DefaultScale
  {
    CanvasItem(item, DefaultX, DefaultY, DefaultScale, count)
  }

  /** The canvas after selecting `item`: one more item, on top. */
  function AddToCanvas(canvas: seq<CanvasItem>, item: Item): (r: seq<CanvasItem>)
    ensures |r| == |canvas| + 1
    ensures r[..|canvas|] == canvas
    ensures r[|canvas|] == Place(item, |canvas|)
  {
    canvas + [Place(item, |canvas|)]
  }

  /** Adding keeps the stacking order equal to the position. */
  lemma AddKeepsLayered(canvas: seq<CanvasItem>, item: Item)
    requires Layered(canvas)
    ensures Layered(AddToCanvas(canvas, item))
  {
  }

  /** Adding an item already on the canvas still adds a new canvas item:
      the canvas has no duplicate check. */
  lemma ReAddingGrowsCanvas(canvas: seq<CanvasItem>, k: nat)
    requires k < |canvas|
    ensures var r := AddToCanvas(canvas, canvas[k].item);
            |r| == |canvas| + 1 && r[k].item == r[|canvas|].item
  {
  }

  /** The placements the save button would store, one per canvas item, in order. */
  function Placements(canvas: seq<CanvasItem>): (r: seq<Placement>)
    ensures |r| == |canvas|
    ensures forall i :: 0 <= i < |canvas| ==>
              r[i] == Placement(canvas[i].item.id, canvas[i].x, canvas[i].y)
  {
    seq(|canvas|, i requires 0 <= i < |canvas| => Placement(canvas[i].item.id, canvas[i].x, canvas[i].y))
  }

  /** A canvas built from the empty one by adding items places each at the
      default position and in the order chosen. */
  lemma {:induction false} BuiltCanvasPlacements(picked: seq<Item>)
    ensures var canvas := Build(picked);
            && Layered(canvas)
            && Placements(canvas) == seq(|picked|, i requires 0 <= i < |picked| => Placement(picked[i].id, DefaultX, DefaultY))
    decreases |picked|
  {
    if picked != [] {
      var init := picked[..|picked| - 1];
      BuiltCanvasPlacements(init);
      AddKeepsLayered(Build(init), picked[|picked| - 1]);
      var canvas := Build(picked);
      assert canvas[..|init|] == Build(init);
      forall i | 0 <= i < |init|
        ensures canvas[i] == Build(init)[i]
      {
        assert canvas[i] == canvas[..|init|][i];
      }
    }
  }

  /** The canvas after choosing each item of `picked` in turn, starting empty. */
  function Build(picked: seq<Item>): (canvas: seq<CanvasItem>)
    ensures |canvas| == |picked|
    decreases |picked|
  {
    if picked == [] then [] else AddToCanvas(Build(picked[..|picked| - 1]), picked[|picked| - 1])
  }

  /** The screen's state: the canvas and whether the item picker is open. */
  class OutfitStudioScreen {
    var canvasItems: seq<CanvasItem>
    var pickerVisible: bool

    ghost predicate Valid()
      reads this
    {
      Layered(canvasItems)
    }

    /** The screen starts with an empty canvas and the picker closed. */
    constructor ()
      ensures Valid()
      ensures canvasItems == [] && !pickerVisible
    {
      canvasItems := [];
      pickerVisible := false;
    }

    /** `handleAddItemToCanvas`: opens the picker. */
    method AddItemPressed()
      requires Valid()
      modifies this`pickerVisible
      ensures Valid()
      ensures pickerVisible && canvasItems == old(canvasItems)
    {
      pickerVisible := true;
    }

    /** `onItemSelectedFromPicker`: closes the picker and puts the item on top. */
    method ItemSelected(item: Item)
      requires Valid()
      modifies this
      ensures Valid()
      ensures !pickerVisible
      ensures canvasItems == AddToCanvas(old(canvasItems), item)
    {
      AddKeepsLayered(canvasItems, item);
      pickerVisible := false;
      var newCanvasItem := Place(item, |canvasItems|);
      canvasItems := canvasItems + [newCanvasItem];
    }

    /** `handleSaveOutfit`: refused on an empty canvas, otherwise the
        placements that would be stored. The canvas is left as it is. */
    method SaveOutfit() returns (o: SaveOutcome)
      ensures o == EmptyCanvas <==> canvasItems == []
      ensures o.NotImplemented? ==> o.placements == Placements(canvasItems)
    {
      if |canvasItems| == 0 {
        return EmptyCanvas;
      }
      return NotImplemented(Placements(canvasItems));
    }

    /** `handleClearCanvas`: removes every item. */
    method ClearCanvas()
      modifies this`canvasItems
      ensures Valid()
      ensures canvasItems == []
    {
      canvasItems := [];
    }
  }
}
