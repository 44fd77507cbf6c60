/** The canvas editor's element list: adding text and shape elements,
    selecting the element under a click, deleting the selected element, and
    saving and loading the list. Coordinates are integers. */
module Canvas {
  import opened Common
  import opened Lists

  datatype ElementKind = Text | Image | Shape

  datatype CanvasElement = CanvasElement(
    id: string, kind: ElementKind,
    x: int, y: int, width: int, height: int,
    content: Option<string>, rotation: Option<int>, color: Option<string>, fontSize: Option<int>)

  /** The saved form of a design; `elements` may be missing. */
  datatype CanvasData = CanvasData(elements: Option<seq<CanvasElement>>, background: Option<string>)

  /** The element "Add Text" creates. */
  function NewText(id: string): CanvasElement {
    CanvasElement(id, Text, 100, 100, 200, 50, Some("Double click to edit"), None, Some("#000000"), Some(24))
  }

  /** The element "Add Shape" creates. */
  function NewShape(id: string): CanvasElement {
    CanvasElement(id, Shape, 150, 150, 100, 100, None, None, Some("#4285f4"), None)
  }

  /** The point lies in the element's closed rectangle. */
  predicate Contains(el: CanvasElement, px: int, py: int) {
    px >= el.x && px <= el.x + el.width && py >= el.y && py <= el.y + el.height
  }

  /** Index `j` holds the first element, in list order, that contains the point. */
  predicate FirstHit(elements: seq<CanvasElement>, px: int, py: int, j: int) {
    0 <= j < |elements| && Contains(elements[j], px, py)
    && forall k :: 0 <= k < j ==> !Contains(elements[k], px, py)
  }

  /** The `find` of `handleCanvasClick`. */
  function HitTest(elements: seq<CanvasElement>, px: int, py: int): (r: Option<CanvasElement>)
    ensures r.None? <==> forall j :: 0 <= j < |elements| ==> !Contains(elements[j], px, py)
    ensures r.Some? ==> exists j :: FirstHit(elements, px, py, j) && elements[j] == r.value
  {
    if elements == [] then None
    else if Contains(elements[0], px, py) then
      assert FirstHit(elements, px, py, 0);
      Some(elements[0])
    else
      var r := HitTest(elements[1..], px, py);
      if r.Some? then
        var j :| FirstHit(elements[1..], px, py, j) && elements[1..][j] == r.value;
        assert FirstHit(elements, px, py, j + 1);
        r
      else
        r
  }

  /** `clicked?.id || null`: the id of the hit element, nothing when no element
      is hit or its id is empty. */
  function ClickSelection(elements: seq<CanvasElement>, px: int, py: int): (r: Option<string>)
    ensures r.Some? ==> r.value != "" && exists j :: FirstHit(elements, px, py, j) && elements[j].id == r.value
    ensures r.None? <==> HitTest(elements, px, py).None? || HitTest(elements, px, py).value.id == ""
  {
    var hit := HitTest(elements, px, py);
    if hit.Some? && hit.value.id != "" then Some(hit.value.id) else None
  }

  /** `elements.filter(el => el.id !== id)`. */
  function WithoutId(elements: seq<CanvasElement>, id: string): (r: seq<CanvasElement>)
    ensures forall el :: el in r <==> el in elements && el.id != id
    ensures forall el :: multiset(r)[el] == if el.id != id then multiset(elements)[el] else 0
  {
    KeyFilterCounts(elements, (el: CanvasElement) => el.id != id, true);
    KeyFilter(elements, (el: CanvasElement) => el.id != id, true)
  }

  /** Deleting keeps the other elements in their order. */
  lemma WithoutIdKeepsOrder(elements: seq<CanvasElement>, id: string)
    ensures IsSubsequence(WithoutId(elements, id), elements)
  {
    KeyFilterIsSubsequence(elements, (el: CanvasElement) => el.id != id, true);
  }

  /** Deleting an element just added with a fresh id restores the list. */
  lemma DeleteUndoesAdd(elements: seq<CanvasElement>, added: CanvasElement)
    requires forall el :: el in elements ==> el.id != added.id
    ensures WithoutId(elements + [added], added.id) == elements
  {
    var keep := (el: CanvasElement) => el.id != added.id;
    KeyFilterSnoc(elements, added, keep, true);
    KeyFilterAll(elements, keep, true);
  }

  class CanvasEditor {
    var elements: seq<CanvasElement>
    var selectedElement: Option<string>

    /** A selection is never the empty id (an empty id is falsy and selects nothing). */
    predicate Valid()
      reads this
    {
      selectedElement.Some? ==> selectedElement.value != ""
    }

    /** The delete button is shown only while an element is selected. */
    predicate DeleteOffered()
      reads this
    {
      selectedElement.Some?
    }

    constructor ()
      ensures Valid() && elements == [] && selectedElement.None?
    {
      elements, selectedElement := [], None;
    }

    method AddText(id: string)
      requires Valid()
      modifies this
      ensures Valid()
      ensures elements == old(elements) + [NewText(id)] && selectedElement == old(selectedElement)
    {
      elements := elements + [NewText(id)];
    }

    method AddShape(id: string)
      requires Valid()
      modifies this
      ensures Valid()
      ensures elements == old(elements) + [NewShape(id)] && selectedElement == old(selectedElement)
    {
      elements := elements + [NewShape(id)];
    }

    /** The delete button: every element with the selected id goes, and the
        selection is cleared. */
    method DeleteSelected()
      requires Valid() && DeleteOffered()
      modifies this
      ensures Valid()
      ensures elements == WithoutId(old(elements), old(selectedElement).value) && selectedElement.None?
    {
      elements := WithoutId(elements, selectedElement.value);
      selectedElement := None;
    }

    /** `handleCanvasClick` at canvas coordinates (px, py). */
    method HandleCanvasClick(px: int, py: int)
      requires Valid()
      modifies this
      ensures Valid()
      ensures selectedElement == ClickSelection(elements, px, py) && elements == old(elements)
    {
      selectedElement := ClickSelection(elements, px, py);
    }

    /** `getData`: the element list, without a background. */
    method GetData() returns (data: CanvasData)
      ensures data.elements == Some(elements) && data.background.None?
    {
      data := CanvasData(Some(elements), None);
    }

    /** `loadData`: the given elements, or none when they are missing. */
    method LoadData(data: CanvasData)
      requires Valid()
      modifies this
      ensures Valid()
      ensures elements == LoadedList(data.elements) && selectedElement == old(selectedElement)
    {
      elements := LoadedList(data.elements);
    }
  }
}
