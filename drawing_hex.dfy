/** A hex of the interactive tile picker (src/drawing_hex.py): a cube hex
    with a selection flag and two colour pairs, one shown while selected and
    one while not. */
module DrawingHexes {
  import opened CubeHexes
  import opened Wrappers

  /** An RGBA colour as the picker stores it. */
  type Rgba = (int, int, int, int)

  const DEFAULT_COLOR: Rgba := (128, 128, 128, 128)
  const SELECTED_COLOR: Rgba := (0, 255, 0, 128)
  const DEFAULT_FILL: Rgba := (0, 0, 0, 0)
  const SELECTED_FILL: Rgba := (0, 255, 0, 64)

  /** The colour of a pair that is on show. */
  function Shown(selected: bool, plain: Rgba, highlighted: Rgba): (c: Rgba)
    ensures selected ==> c == highlighted
    ensures !selected ==> c == plain
  {
    if selected then highlighted else plain
  }

  class DrawingHex {
    const q: int
    const r: int
    const s: int
    var color: Rgba
    var selectedColor: Rgba
    var fill: Rgba
    var selectedFill: Rgba
    var selected: bool

    /** The cube hex this drawing hex extends. */
    function Hex(): CubeHex {
      CubeHex(q, r, s)
    }

    constructor (q: int, r: int, s: int)
      ensures Hex() == CubeHex(q, r, s)
      ensures color == DEFAULT_COLOR && selectedColor == SELECTED_COLOR
      ensures fill == DEFAULT_FILL && selectedFill == SELECTED_FILL
      ensures !selected
    {
      this.q, this.r, this.s := q, r, s;
      color := DEFAULT_COLOR;
      selectedColor := SELECTED_COLOR;
      fill := DEFAULT_FILL;
      selectedFill := SELECTED_FILL;
      selected := false;
    }

    /** `color`: a given colour replaces the unselected one, even while
        selected; the colour on show is returned. */
    method Color(newColor: Option<Rgba>) returns (shown: Rgba)
      modifies this
      ensures color == (if newColor.Some? then newColor.value else old(color))
      ensures selectedColor == old(selectedColor) && fill == old(fill)
      ensures selectedFill == old(selectedFill) && selected == old(selected)
      ensures shown == Shown(selected, color, selectedColor)
    {
      if newColor.Some? {
        color := newColor.value;
      }
      shown := if !selected then color else selectedColor;
    }

    /** `fill`: the same, with the fill pair. */
    method Fill(newFill: Option<Rgba>) returns (shown: Rgba)
      modifies this
      ensures fill == (if newFill.Some? then newFill.value else old(fill))
      ensures selectedFill == old(selectedFill) && color == old(color)
      ensures selectedColor == old(selectedColor) && selected == old(selected)
      ensures shown == Shown(selected, fill, selectedFill)
    {
      if newFill.Some? {
        fill := newFill.value;
      }
      shown := if !selected then fill else selectedFill;
    }

    /** `toggle_select`. */
    method ToggleSelect()
      modifies this
      ensures selected == !old(selected)
      ensures color == old(color) && selectedColor == old(selectedColor)
      ensures fill == old(fill) && selectedFill == old(selectedFill)
    {
      selected := !selected;
    }
  }

  /** Toggling twice restores the selection and every colour. */
  method ToggleTwice(h: DrawingHex)
    modifies h
    ensures h.selected == old(h.selected)
    ensures h.color == old(h.color) && h.selectedColor == old(h.selectedColor)
    ensures h.fill == old(h.fill) && h.selectedFill == old(h.selectedFill)
  {
    h.ToggleSelect();
    h.ToggleSelect();
  }

  /** A colour set while selected shows only after deselection: the first
      call returns the selected colour, the call after toggling returns the
      colour that was set. */
  method RecolourWhileSelected(h: DrawingHex, c: Rgba) returns (during: Rgba, after: Rgba)
    requires h.selected
    modifies h
    ensures during == old(h.selectedColor)
    ensures after == c && !h.selected
  {
    during := h.Color(Some(c));
    h.ToggleSelect();
    after := h.Color(None);
  }

  /** A new hex shows the default grey outline and an empty fill. */
  method FreshHexShows(q: int, r: int, s: int) returns (c: Rgba, f: Rgba)
    ensures c == DEFAULT_COLOR && f == DEFAULT_FILL
  {
    var h := new DrawingHex(q, r, s);
    c := h.Color(None);
    f := h.Fill(None);
  }
}
