/** The window record: its size, title and frame rate, whether the graphics
    library window is open, and the conversion from world coordinates (origin
    at the centre, y pointing up) to screen coordinates (origin at the top
    left corner, y pointing down). */
module Screen {

  /** The default window size, title and frame rate. */
  const ScreenWidth: int := 1200
  const ScreenHeight: int := 800
  const DefaultTitle: string := "Window"
  const DefaultFps: int := 60

  datatype Window = Window(width: int, height: int, title: string, fps: int, initialized: bool)

  /** What closing did: the window afterwards, and whether the library window
      was actually closed. */
  datatype Closed = Closed(window: Window, closedLibraryWindow: bool)

  /** A new window record; the library window is not open yet. */
  function NewWindow(width: int, height: int, title: string, fps: int): (w: Window)
    ensures !w.initialized
    ensures w.width == width && w.height == height && w.title == title && w.fps == fps
  {
    Window(width, height, title, fps, false)
  }

  /** A window record built with every argument left at its default. */
  function DefaultWindow(): (w: Window)
    ensures !w.initialized
    ensures w.width == ScreenWidth && w.height == ScreenHeight
    ensures w.title == DefaultTitle && w.fps == DefaultFps
  {
    NewWindow(ScreenWidth, ScreenHeight, DefaultTitle, DefaultFps)
  }

  /** Opening the library window sets the flag; size, title and frame rate are kept. */
  function Init(w: Window): (r: Window)
    ensures r.initialized
    ensures r.width == w.width && r.height == w.height && r.title == w.title && r.fps == w.fps
  {
    w.(initialized := true)
  }

  /** Closing acts only when the window is open, and then resets the flag. */
  function CloseWindow(w: Window): (r: Closed)
    ensures r.closedLibraryWindow <==> w.initialized
    ensures !r.window.initialized
    ensures r.window.width == w.width && r.window.height == w.height
    ensures r.window.title == w.title && r.window.fps == w.fps
  {
    if w.initialized then Closed(w.(initialized := false), true)
    else Closed(w, false)
  }

  /** A second close does nothing. */
  lemma CloseTwiceIsNoOp(w: Window)
    ensures CloseWindow(CloseWindow(w).window) == Closed(CloseWindow(w).window, false)
  {
  }

  /** Closing an opened window closes the library window and gives back the
      record as it was before opening, flag cleared. */
  lemma InitThenClose(w: Window)
    ensures CloseWindow(Init(w)) == Closed(w.(initialized := false), true)
  {
  }

  /** Floor division by two, as Python's `n // 2`
      computes it (rounding towards minus infinity, also for negative `n`). */
  function Half(n: int): (h: int)
    ensures 2 * h <= n < 2 * h + 2
  {
    n / 2
  }

  /** The world point (x, y) on the screen: x is shifted by half the width,
      and y is flipped around half the height. */
  function ToScreen(w: Window, x: int, y: int): (r: (int, int))
    ensures FromScreen(w, r.0, r.1) == (x, y)
  {
    (Half(w.width) + x, Half(w.height) - y)
  }

  /** The world point shown at screen position (sx, sy). */
  function FromScreen(w: Window, sx: int, sy: int): (r: (int, int))
  {
    (sx - Half(w.width), Half(w.height) - sy)
  }

  /** The world origin is shown at the screen centre. */
  lemma ToScreenOrigin(w: Window)
    ensures ToScreen(w, 0, 0) == (Half(w.width), Half(w.height))
    ensures 2 * ToScreen(w, 0, 0).0 <= w.width < 2 * ToScreen(w, 0, 0).0 + 2
    ensures 2 * ToScreen(w, 0, 0).1 <= w.height < 2 * ToScreen(w, 0, 0).1 + 2
  {
  }

  /** One step right in the world is one pixel right on the screen; the
      screen row does not depend on x. */
  lemma ToScreenStepX(w: Window, x: int, y: int)
    ensures ToScreen(w, x + 1, y).0 == ToScreen(w, x, y).0 + 1
    ensures ToScreen(w, x + 1, y).1 == ToScreen(w, x, y).1
  {
  }

  /** One step up in the world is one pixel up (a smaller row) on the
      screen; the screen column does not depend on y. */
  lemma ToScreenStepY(w: Window, x: int, y: int)
    ensures ToScreen(w, x, y + 1).1 == ToScreen(w, x, y).1 - 1
    ensures ToScreen(w, x, y + 1).0 == ToScreen(w, x, y).0
  {
  }

  /** The conversion is a bijection: every screen position is shown for
      exactly the world point `FromScreen` names. */
  lemma ScreenRoundTrip(w: Window, sx: int, sy: int)
    ensures ToScreen(w, FromScreen(w, sx, sy).0, FromScreen(w, sx, sy).1) == (sx, sy)
  {
  }
}
