/**
 * Window geometry: how createWindow picks the bounds of a new window, whether
 * it maximizes it, and the snapshot saveWindowState writes to
 * `windowstate.json` (client/main.js). The file's JSON text is not modelled:
 * getWindowState's result is the parsed object, or None when the file cannot
 * be read or parsed (the function then returns `false`).
 */
module Geometry {
  import opened JsText

  datatype Rect = Rect(x: int, y: int, width: int, height: int)

  /**
   * The keys of a parsed `windowstate.json` that createWindow reads: `bounds`, when present, and the
   * truth of `maximzed` — the key it tests, spelt differently from the `maximized` that
   * saveWindowState writes. A hand-edited file may hold either key.
   */
  datatype SavedState = SavedState(maximized: bool, bounds: Option<Rect>, maximzed: bool)

  /** The options createWindow passes to `new BrowserWindow`; `x` and `y` may be undefined. */
  datatype Placement = Placement(x: Option<int>, y: Option<int>, width: int, height: int)

  const DefaultWidth := 800
  const DefaultHeight := 600

  /** The saved bounds, when getWindowState returned an object with a `bounds` key. */
  function SavedBounds(saved: Option<SavedState>): Option<Rect> {
    if saved.Some? then saved.value.bounds else None
  }

  /**
   * The bounds branch of createWindow: `reset` is its `defaultPos` argument, `parent` the position of
   * `oldWin` when one is given, (`dx`, `dy`) the offset.
   */
  function ChooseBounds(reset: bool, parent: Option<(int, int)>, saved: Option<SavedState>, dx: int, dy: int): (p: Placement)
    ensures p.x.None? <==> p.y.None?
    ensures p.x.None? <==> !reset && parent.None? && SavedBounds(saved).None?
    ensures p.x.None? ==> p.width == DefaultWidth && p.height == DefaultHeight
  {
    if reset then Placement(Some(0), Some(0), DefaultWidth, DefaultHeight)
    else if parent.None? then
      match SavedBounds(saved)
      case Some(b) => Placement(Some(b.x + dx), Some(b.y + dy), b.width, b.height)
      case None => Placement(None, None, DefaultWidth, DefaultHeight)
    else
      var (px, py) := parent.value;
      match SavedBounds(saved)
      case Some(b) => Placement(Some(px + dx), Some(py + dy), b.width, b.height)
      case None => Placement(Some(px + dx), Some(py + dy), DefaultWidth, DefaultHeight)
  }

  /** createWindow maximizes the new window exactly when the saved state has a true `maximzed` key. */
  predicate OpensMaximized(saved: Option<SavedState>) {
    saved.Some? && saved.value.maximzed
  }

  /** The object saveWindowState writes for a window: `bounds` is recorded exactly when it is not maximized. */
  function Snapshot(maximized: bool, bounds: Rect): (s: SavedState)
    ensures s.maximized == maximized
    ensures s.bounds.Some? <==> !maximized
    ensures s.bounds.Some? ==> s.bounds.value == bounds
    ensures !s.maximzed
  {
    SavedState(maximized, if maximized then None else Some(bounds), false)
  }

  // ---------------------------------------------------------------------------------------------
  // Properties

  /** With the reset flag, nothing stored and no parent matters: the window goes to (0, 0), 800 by 600. */
  lemma ResetIgnoresState(parent: Option<(int, int)>, saved: Option<SavedState>, dx: int, dy: int)
    ensures ChooseBounds(true, parent, saved, dx, dy) == Placement(Some(0), Some(0), DefaultWidth, DefaultHeight)
  {
  }

  /** The size never depends on the parent or the offset: the saved size, else 800 by 600 (the reset flag aside). */
  lemma SizeFromSavedOnly(parent: Option<(int, int)>, saved: Option<SavedState>, dx: int, dy: int)
    ensures var p := ChooseBounds(false, parent, saved, dx, dy);
      match SavedBounds(saved)
      case Some(b) => p.width == b.width && p.height == b.height
      case None => p.width == DefaultWidth && p.height == DefaultHeight
  {
  }

  /** The offset moves the window by exactly that much, whatever the base position is. */
  lemma OffsetTranslates(reset: bool, parent: Option<(int, int)>, saved: Option<SavedState>, dx: int, dy: int)
    requires !reset
    ensures var p := ChooseBounds(reset, parent, saved, 0, 0);
      var q := ChooseBounds(reset, parent, saved, dx, dy);
      && q.width == p.width && q.height == p.height
      && (p.x.Some? ==> q.x == Some(p.x.value + dx) && q.y == Some(p.y.value + dy))
  {
  }

  /** A child window sits at its parent's live position plus the offset, whatever is stored. */
  lemma ChildFollowsParent(px: int, py: int, saved: Option<SavedState>, dx: int, dy: int)
    ensures var p := ChooseBounds(false, Some((px, py)), saved, dx, dy);
      p.x == Some(px + dx) && p.y == Some(py + dy)
  {
  }

  /**
   * Save then restore: after saveWindowState recorded an unmaximized window with bounds `b`, a window
   * opened with no parent gets `b` moved by the offset.
   */
  lemma RestoreSavedBounds(b: Rect, dx: int, dy: int)
    ensures ChooseBounds(false, None, Some(Snapshot(false, b)), dx, dy) == Placement(Some(b.x + dx), Some(b.y + dy), b.width, b.height)
    ensures !OpensMaximized(Some(Snapshot(false, b)))
  {
  }

  /**
   * The misspelt key: a snapshot taken while maximized never maximizes the next window, and as it has no
   * bounds, a window opened with no parent falls back to the platform's position and 800 by 600.
   */
  lemma MaximizedIsForgotten(b: Rect, parent: Option<(int, int)>, dx: int, dy: int)
    ensures !OpensMaximized(Some(Snapshot(true, b)))
    ensures parent.None? ==> ChooseBounds(false, parent, Some(Snapshot(true, b)), dx, dy) == Placement(None, None, DefaultWidth, DefaultHeight)
    ensures ChooseBounds(false, parent, Some(Snapshot(true, b)), dx, dy).width == DefaultWidth
  {
  }

  /** The stored bounds (10, 10, 800, 600), a parent at (100, 100) and offset (20, 20) give (120, 120), 800 by 600. */
  lemma ChildExample()
    ensures ChooseBounds(false, Some((100, 100)), Some(Snapshot(false, Rect(10, 10, 800, 600))), 20, 20)
         == Placement(Some(120), Some(120), 800, 600)
  {
  }
}
