/** The window manager of src/ui.c: `ui_init` and `ui_update`, which reads one
    key and the mouse, drives the start menu from the keyboard, dispatches a
    left-button press to the first thing under the pointer, and drags windows
    by their title bars.

    `Ui` is the value of everything `ui_update` reads or writes in
    `struct ui_state`; `Update` is what one call does to it, and the methods
    that follow the C code are proved to compute it. */
module Ui {
  import opened Common
  import opened Framebuffer
  import opened UiTypes
  import opened UiApps
  import opened Input
  import opened Hw

  /** The state `ui_update` works on: the menu, the open flags and window
      rectangles by application id, the pointer, the theme and the drag. */
  datatype Ui = Ui(
    menuOpen: int, menuIndex: int, open: seq<int>,
    mouseX: int, mouseY: int, buttons: bv8, prevButtons: bv8,
    theme: int, dragId: int, dragX: int, dragY: int, rects: seq<Rect>)

  /** One flag and one rectangle per application. */
  predicate Shaped(u: Ui)
  {
    |u.open| == APP_COUNT && |u.rects| == APP_COUNT
  }

  /** The `Ui` value of a `struct ui_state`. */
  function Snap(state: UiState): (u: Ui)
    reads state`menuOpen, state`menuIndex, state`appsOpen, state`settingsOpen, state`filesOpen,
      state`usbOpen, state`testOpen, state`mouseX, state`mouseY, state`mouseButtons, state`prevMouseButtons,
      state`themeIndex, state`dragAppId, state`dragOffsetX, state`dragOffsetY,
      state`appsRect, state`settingsRect, state`filesRect, state`usbRect, state`testRect
    ensures Shaped(u)
  {
    Ui(state.menuOpen, state.menuIndex, Flags(state),
       state.mouseX, state.mouseY, state.mouseButtons, state.prevMouseButtons,
       state.themeIndex, state.dragAppId, state.dragOffsetX, state.dragOffsetY, Rects(state))
  }

  /** C's `!x` on an `int`. */
  function CNot(x: int): (r: int)
    ensures r == 0 || r == 1
    ensures (r == 1) <==> (x == 0)
  {
    if x == 0 then 1 else 0
  }

  /** C's `%`, which truncates toward zero: the remainder has the sign of `a`. */
  function CRem(a: int, n: int): (r: int)
    requires n > 0
    ensures a >= 0 ==> 0 <= r < n
    ensures a < 0 ==> -n < r <= 0
  {
    if a >= 0 then a % n else -((-a) % n)
  }

  /** C's `/`, which truncates toward zero. */
  function CDiv(a: int, n: int): (q: int)
    requires n > 0
    ensures a >= 0 ==> 0 <= a - q * n < n
    ensures a < 0 ==> -n < a - q * n <= 0
  {
    if a >= 0 then a / n else -((-a) / n)
  }

  // ---------------------------------------------------------------------------
  // Geometry of the taskbar, the start menu and the windows

  /** The start button: 72 by 24 at the left of the 32-pixel taskbar at the
      bottom of a screen `h` pixels high. */
  function StartButtonRect(h: int): Rect
  {
    Rect(8, h - 32 + 4, 72, 24)
  }

  /** The menu panel: one 42-pixel row per application plus 12, just above the
      taskbar. */
  const MENU_HEIGHT: int := APP_COUNT * 42 + 12

  function MenuPanelRect(h: int): Rect
  {
    Rect(8, h - 32 - MENU_HEIGHT, 180, MENU_HEIGHT)
  }

  /** `menu_item_rect`. */
  function MenuItemRect(panel: Rect, index: int): Rect
  {
    Rect(panel.x + 8, panel.y + 10 + index * 42, 164, 28)
  }

  /** The parts of a window a press can hit before the window itself:
      `mui_window_close_rect` and `mui_window_titlebar_rect`. */
  datatype Part = CloseBox | TitleBar

  function PartRect(r: Rect, part: Part): Rect
  {
    match part
    case CloseBox => Rect(r.x + r.w - 22, r.y + 4, 16, 16)
    case TitleBar => Rect(r.x + 2, r.y + 2, r.w - 4, 22)
  }

  /** Menu items are 42 apart and 28 high: a point is in at most one. */
  lemma MenuItemsDisjoint(panel: Rect, px: int, py: int, i: int, j: int)
    requires PointInRect(px, py, MenuItemRect(panel, i)) && PointInRect(px, py, MenuItemRect(panel, j))
    ensures i == j
  {
  }

  /** The menu items lie inside the panel, above the taskbar, so no point is
      both on the start button and on a menu item. */
  lemma StartButtonApartFromItems(h: int, px: int, py: int, i: int)
    requires 0 <= i < APP_COUNT && PointInRect(px, py, MenuItemRect(MenuPanelRect(h), i))
    ensures !PointInRect(px, py, StartButtonRect(h))
    ensures py < h - 32
  {
  }

  /** The close box of a window at least 24 wide sits inside its title bar: a
      press on it would also start a drag if close boxes were not tested
      first. */
  lemma CloseBoxInTitleBar(r: Rect, px: int, py: int)
    requires r.w >= 24 && PointInRect(px, py, PartRect(r, CloseBox))
    ensures PointInRect(px, py, PartRect(r, TitleBar))
  {
  }

  // ---------------------------------------------------------------------------
  // What a press hits

  /** The first menu item from `i` on under the point, or -1. */
  function MenuItemAt(panel: Rect, px: int, py: int, i: nat): (k: int)
    ensures k == -1 || i <= k < APP_COUNT
    decreases APP_COUNT - i
  {
    if i >= APP_COUNT then -1
    else if PointInRect(px, py, MenuItemRect(panel, i)) then i
    else MenuItemAt(panel, px, py, i + 1)
  }

  /** The first application from `i` on with a desktop icon under the point,
      or -1. */
  function IconAt(px: int, py: int, i: nat): (k: int)
    ensures k == -1 || i <= k < APP_COUNT
    decreases APP_COUNT - i
  {
    if i >= APP_COUNT then -1
    else if HasDesktopIcon(i) != 0 && PointInRect(px, py, DesktopIconRect(i)) then i
    else IconAt(px, py, i + 1)
  }

  /** The highest id below `n` of an open window whose `part` is under the
      point, or -1. */
  function WindowAt(open: seq<int>, rects: seq<Rect>, px: int, py: int, part: Part, n: nat): (k: int)
    requires |open| == APP_COUNT && |rects| == APP_COUNT && n <= APP_COUNT
    ensures k == -1 || 0 <= k < n
  {
    if n == 0 then -1
    else if open[n - 1] != 0 && PointInRect(px, py, PartRect(rects[n - 1], part)) then n - 1
    else WindowAt(open, rects, px, py, part, n - 1)
  }

  /** `MenuItemAt` is the first item under the point, and -1 exactly when none
      is; by `MenuItemsDisjoint` it is the only one. */
  lemma {:induction false} MenuItemAtFinds(panel: Rect, px: int, py: int, i: nat)
    ensures var k := MenuItemAt(panel, px, py, i);
      (k == -1 <==> forall j :: i <= j < APP_COUNT ==> !PointInRect(px, py, MenuItemRect(panel, j)))
      && (k != -1 ==> PointInRect(px, py, MenuItemRect(panel, k)))
    decreases APP_COUNT - i
  {
    if i < APP_COUNT && !PointInRect(px, py, MenuItemRect(panel, i)) {
      MenuItemAtFinds(panel, px, py, i + 1);
    }
  }

  /** `IconAt` is an application with an icon under the point, and -1 exactly
      when there is none. */
  lemma {:induction false} IconAtFinds(px: int, py: int, i: nat)
    ensures var k := IconAt(px, py, i);
      (k == -1 <==> forall j :: i <= j < APP_COUNT ==> !(HasDesktopIcon(j) != 0 && PointInRect(px, py, DesktopIconRect(j))))
      && (k != -1 ==> HasDesktopIcon(k) != 0 && PointInRect(px, py, DesktopIconRect(k)))
    decreases APP_COUNT - i
  {
    if i < APP_COUNT && !(HasDesktopIcon(i) != 0 && PointInRect(px, py, DesktopIconRect(i))) {
      IconAtFinds(px, py, i + 1);
    }
  }

  /** `WindowAt` is the open window of highest id whose part is under the
      point: windows above it are closed or missed, and -1 means none is hit. */
  lemma {:induction false} WindowAtFinds(open: seq<int>, rects: seq<Rect>, px: int, py: int, part: Part, n: nat)
    requires |open| == APP_COUNT && |rects| == APP_COUNT && n <= APP_COUNT
    ensures var k := WindowAt(open, rects, px, py, part, n);
      (k != -1 ==> open[k] != 0 && PointInRect(px, py, PartRect(rects[k], part)))
      && forall j :: k < j < n ==> !(open[j] != 0 && PointInRect(px, py, PartRect(rects[j], part)))
  {
    if n > 0 && !(open[n - 1] != 0 && PointInRect(px, py, PartRect(rects[n - 1], part))) {
      WindowAtFinds(open, rects, px, py, part, n - 1);
    }
  }

  // ---------------------------------------------------------------------------
  // One call of `ui_update`

  /** `handle_menu_action`: the menu closes, and a known index opens its
      application. */
  function MenuAction(u: Ui, index: int): (r: Ui)
    requires Shaped(u)
    ensures Shaped(r)
  {
    u.(menuOpen := 0, open := if Known(index) then u.open[index := 1] else u.open)
  }

  /** The keyboard part: START toggles the menu and ESC closes it; then, with
      the menu open, UP and DOWN or TAB move the selection round the
      applications and ENTER runs the menu action on it. */
  function KeyStage(u: Ui, key: KeyAction): (r: Ui)
    requires Shaped(u)
    ensures Shaped(r)
  {
    var open := if key == KeyStart then CNot(u.menuOpen) else if key == KeyEsc then 0 else u.menuOpen;
    var u1 := u.(menuOpen := open);
    if open == 0 then u1
    else if key == KeyUp then u1.(menuIndex := CRem(u.menuIndex + APP_COUNT - 1, APP_COUNT))
    else if key == KeyDown || key == KeyTab then u1.(menuIndex := CRem(u.menuIndex + 1, APP_COUNT))
    else if key == KeyEnter then MenuAction(u1, u.menuIndex)
    else u1
  }

  /** A left-button press, handler by handler in `ui_update`'s order, each
      tried only when every earlier one declined the press: first the start
      button toggles the menu. */
  function PressStage(u: Ui, h: int): (r: Ui)
    requires Shaped(u)
    ensures Shaped(r)
  {
    if PointInRect(u.mouseX, u.mouseY, StartButtonRect(h)) then u.(menuOpen := CNot(u.menuOpen))
    else MenuStage(u, h)
  }

  /** Then, while the menu is open, the menu item under the pointer runs. */
  function MenuStage(u: Ui, h: int): (r: Ui)
    requires Shaped(u)
    ensures Shaped(r)
  {
    var item := MenuItemAt(MenuPanelRect(h), u.mouseX, u.mouseY, 0);
    if u.menuOpen != 0 && item != -1 then MenuAction(u, item) else IconStage(u)
  }

  /** Then a desktop icon opens its application. */
  function IconStage(u: Ui): (r: Ui)
    requires Shaped(u)
    ensures Shaped(r)
  {
    var icon := IconAt(u.mouseX, u.mouseY, 0);
    if icon != -1 then u.(open := u.open[icon := 1]) else CloseStage(u)
  }

  /** Then the close box of an open window, highest id first, closes it. */
  function CloseStage(u: Ui): (r: Ui)
    requires Shaped(u)
    ensures Shaped(r)
  {
    var closed := WindowAt(u.open, u.rects, u.mouseX, u.mouseY, CloseBox, APP_COUNT);
    if closed != -1 then u.(open := u.open[closed := 0]) else ClickStage(u)
  }

  /** Then the open windows' own handlers: only the settings window has one,
      and a swatch under the pointer becomes the theme. */
  function ClickStage(u: Ui): (r: Ui)
    requires Shaped(u)
    ensures Shaped(r)
  {
    var swatch := SwatchAt(u.rects[SETTINGS], u.mouseX, u.mouseY, 0);
    if u.open[SETTINGS] != 0 && swatch != -1 then u.(theme := swatch) else GrabStage(u)
  }

  /** Last, the title bar of an open window, highest id first, starts a drag
      that remembers where in the window the pointer is. */
  function GrabStage(u: Ui): (r: Ui)
    requires Shaped(u)
    ensures Shaped(r)
  {
    var id := WindowAt(u.open, u.rects, u.mouseX, u.mouseY, TitleBar, APP_COUNT);
    if id != -1 then u.(dragId := id, dragX := u.mouseX - u.rects[id].x, dragY := u.mouseY - u.rects[id].y)
    else u
  }

  /** `v` limited to `[0, hi]`. */
  function Between(v: int, hi: int): (c: int)
    requires hi >= 0
    ensures 0 <= c <= hi
  {
    if v < 0 then 0 else if v > hi then hi else v
  }

  /** `clamp_rect` on a `w` by `h` screen: the corner is kept in
      `[0, max(0, w - r.w)]` by `[0, max(0, h - r.h - 32)]`, so the window
      stays above the taskbar when it fits. */
  function Clamped(r: Rect, w: int, h: int): Rect
  {
    var maxX := if w - r.w < 0 then 0 else w - r.w;
    var maxY := if h - r.h - 32 < 0 then 0 else h - r.h - 32;
    r.(x := Between(r.x, maxX), y := Between(r.y, maxY))
  }

  /** The dragged window's corner follows the pointer less the grab offset,
      then is clamped; an id `drag_rect` does not know drags nothing. */
  function DragStage(u: Ui, w: int, h: int): (r: Ui)
    requires Shaped(u)
    ensures Shaped(r)
  {
    if Known(u.dragId) then
      var moved := u.rects[u.dragId].(x := u.mouseX - u.dragX, y := u.mouseY - u.dragY);
      u.(rects := u.rects[u.dragId := Clamped(moved, w, h)])
    else u
  }

  /** The left button is bit 0 of the button byte. */
  function LeftDown(buttons: bv8): bool
  {
    buttons & 1 != 0
  }

  /** `ui_update` after the key and the mouse have been polled, on a `w` by `h`
      screen (the framebuffer's size as C `int`s). */
  function Update(u: Ui, key: KeyAction, w: int, h: int): (r: Ui)
    requires Shaped(u)
    ensures Shaped(r)
  {
    ButtonStage(KeyStage(u, key), w, h)
  }

  /** The left button: its edges against the previous buttons, which are then
      overwritten; a press, then the drag while it is held, then the end of the
      drag on a release. */
  function ButtonStage(u: Ui, w: int, h: int): (r: Ui)
    requires Shaped(u)
    ensures Shaped(r)
  {
    var down := LeftDown(u.buttons);
    var press := down && !LeftDown(u.prevButtons);
    var release := !down && LeftDown(u.prevButtons);
    var u2 := u.(prevButtons := u.buttons);
    var u3 := if press then PressStage(u2, h) else u2;
    var u4 := if down && u3.dragId >= 0 then DragStage(u3, w, h) else u3;
    if release then u4.(dragId := -1) else u4
  }

  // ---------------------------------------------------------------------------
  // Properties of the specification

  /** The invariant `ui_init` sets up and `ui_update` keeps: flags are 0 or 1,
      the selection is an application, and the drag id is -1 or an
      application. */
  predicate Consistent(u: Ui)
  {
    Shaped(u) && (u.menuOpen == 0 || u.menuOpen == 1) && Known(u.menuIndex)
    && (forall id :: 0 <= id < APP_COUNT ==> u.open[id] == 0 || u.open[id] == 1)
    && (u.dragId == -1 || Known(u.dragId))
  }

  /** UP and DOWN keep the selection among the applications, wrap round at
      both ends, and undo each other. */
  lemma MenuMovesCycle(i: int)
    requires Known(i)
    ensures var up := CRem(i + APP_COUNT - 1, APP_COUNT); var down := CRem(i + 1, APP_COUNT);
      Known(up) && Known(down)
      && (i == 0 ==> up == APP_COUNT - 1) && (i == APP_COUNT - 1 ==> down == 0)
      && CRem(up + 1, APP_COUNT) == i && CRem(down + APP_COUNT - 1, APP_COUNT) == i
  {
  }

  /** The keyboard and each press keep the invariant. */
  lemma KeyStageConsistent(u: Ui, key: KeyAction)
    requires Consistent(u)
    ensures Consistent(KeyStage(u, key))
  {
    MenuMovesCycle(u.menuIndex);
    var r := KeyStage(u, key);
    forall id | 0 <= id < APP_COUNT
      ensures r.open[id] == 0 || r.open[id] == 1
    {
    }
  }

  lemma PressStageConsistent(u: Ui, h: int)
    requires Consistent(u)
    ensures Consistent(PressStage(u, h))
  {
    var r := PressStage(u, h);
    forall id | 0 <= id < APP_COUNT
      ensures r.open[id] == 0 || r.open[id] == 1
    {
    }
  }

  /** `ui_update` keeps the invariant. */
  lemma UpdateConsistent(u: Ui, key: KeyAction, w: int, h: int)
    requires Consistent(u)
    ensures Consistent(Update(u, key, w, h))
  {
    var u1 := KeyStage(u, key);
    KeyStageConsistent(u, key);
    var u2 := u1.(prevButtons := u1.buttons);
    assert Consistent(u2);
    PressStageConsistent(u2, h);
  }

  /** After `clamp_rect` the corner is on screen as far as the window fits, the
      size is kept, and a corner already in range does not move. */
  lemma ClampedOnScreen(r: Rect, w: int, h: int)
    ensures var c := Clamped(r, w, h);
      c.w == r.w && c.h == r.h && 0 <= c.x && 0 <= c.y
      && (c.x <= w - r.w || c.x == 0) && (c.y <= h - r.h - 32 || c.y == 0)
      && (0 <= r.x <= w - r.w && 0 <= r.y <= h - r.h - 32 ==> c == r)
  {
  }

  /** The clamped corner is the nearest allowed one: no corner in range is
      closer on either axis, so a second clamp changes nothing. */
  lemma ClampedIsNearest(r: Rect, w: int, h: int, x: int, y: int)
    requires 0 <= x && (x <= w - r.w || x == 0) && 0 <= y && (y <= h - r.h - 32 || y == 0)
    ensures var c := Clamped(r, w, h);
      Dist(c.x, r.x) <= Dist(x, r.x) && Dist(c.y, r.y) <= Dist(y, r.y)
      && Clamped(c, w, h) == c
  {
  }

  function Dist(a: int, b: int): (d: nat)
  {
    if a >= b then a - b else b - a
  }

  /** A release ends any drag, and a press and a release never come
      together. */
  lemma ReleaseEndsDrag(u: Ui, key: KeyAction, w: int, h: int)
    requires Shaped(u) && !LeftDown(u.buttons) && LeftDown(u.prevButtons)
    ensures Update(u, key, w, h).dragId == -1
    ensures Update(u, key, w, h).rects == KeyStage(u, key).rects
  {
  }

  /** Grabbing a title bar does not make the window jump: the drag in the
      same call puts its corner back where it was, clamped. */
  lemma GrabKeepsWindow(u: Ui, w: int, h: int)
    requires Shaped(u) && WindowAt(u.open, u.rects, u.mouseX, u.mouseY, TitleBar, APP_COUNT) != -1
    ensures var id := WindowAt(u.open, u.rects, u.mouseX, u.mouseY, TitleBar, APP_COUNT);
      var g := GrabStage(u);
      g.dragId == id && DragStage(g, w, h).rects == u.rects[id := Clamped(u.rects[id], w, h)]
  {
    var id := WindowAt(u.open, u.rects, u.mouseX, u.mouseY, TitleBar, APP_COUNT);
    var g := GrabStage(u);
    assert g.rects[id].(x := g.mouseX - g.dragX, y := g.mouseY - g.dragY) == u.rects[id];
  }

  // ---------------------------------------------------------------------------
  // The C code

  /** `ui_init`'s window rectangles, by id. */
  const INITIAL_RECTS: seq<Rect> := [Rect(90, 90, 320, 200), Rect(150, 120, 420, 260),
    Rect(220, 100, 320, 220), Rect(260, 160, 360, 220), Rect(300, 120, 340, 200)]

  /** The state `ui_init` leaves on a `w` by `h` screen: the menu open on its
      first item, every window closed, the pointer at the centre, theme 2, no
      drag. */
  function Initial(w: int, h: int): Ui
  {
    Ui(1, 0, [0, 0, 0, 0, 0], CDiv(w, 2), CDiv(h, 2), 0, 0, 2, -1, 0, 0, INITIAL_RECTS)
  }

  lemma InitialConsistent(w: int, h: int)
    ensures Consistent(Initial(w, h))
  {
  }

  /** `ui_init`: the fixed starting state, and the system information copied
      from `info` or, when it is null, empty strings, no RAM and the
      framebuffer's geometry. */
  method UiInit(state: UiState, fb: Surface, info: Option<SystemInfo>)
    modifies state
    ensures Snap(state) == Initial(IntOfU32(fb.width), IntOfU32(fb.height))
    ensures state.info == if info.Some? then info.value else SystemInfo("", "", "", 0, fb.width, fb.height, fb.bpp)
  {
    InitMenu(state);
    InitPointer(state, fb);
    InitWindows(state);
    InitInfo(state, fb, info);
  }

  /** The system information of `ui_init`. */
  method InitInfo(state: UiState, fb: Surface, info: Option<SystemInfo>)
    modifies state`info
    ensures state.info == if info.Some? then info.value else SystemInfo("", "", "", 0, fb.width, fb.height, fb.bpp)
  {
    if info.Some? {
      state.info := info.value;
    } else {
      state.info := SystemInfo("", "", "", 0, fb.width, fb.height, fb.bpp);
    }
  }

  /** The menu and the open flags of `ui_init`. */
  method InitMenu(state: UiState)
    modifies state`menuOpen, state`menuIndex, state`appsOpen, state`settingsOpen, state`filesOpen,
      state`usbOpen, state`testOpen
    ensures state.menuOpen == 1 && state.menuIndex == 0 && Flags(state) == [0, 0, 0, 0, 0]
  {
    state.menuOpen := 1;
    state.menuIndex := 0;
    state.appsOpen := 0;
    state.settingsOpen := 0;
    state.filesOpen := 0;
    state.usbOpen := 0;
    state.testOpen := 0;
  }

  /** The pointer, theme and drag fields of `ui_init`. */
  method InitPointer(state: UiState, fb: Surface)
    modifies state`mouseButtons, state`prevMouseButtons, state`mouseX, state`mouseY, state`themeIndex,
      state`dragAppId, state`dragOffsetX, state`dragOffsetY
    ensures state.mouseButtons == 0 && state.prevMouseButtons == 0
    ensures state.mouseX == CDiv(IntOfU32(fb.width), 2) && state.mouseY == CDiv(IntOfU32(fb.height), 2)
    ensures state.themeIndex == 2 && state.dragAppId == -1 && state.dragOffsetX == 0 && state.dragOffsetY == 0
  {
    state.mouseButtons := 0;
    state.prevMouseButtons := 0;
    state.mouseX := CDiv(IntOfU32(fb.width), 2);
    state.mouseY := CDiv(IntOfU32(fb.height), 2);
    state.themeIndex := 2;
    state.dragAppId := -1;
    state.dragOffsetX := 0;
    state.dragOffsetY := 0;
  }

  /** The window rectangles of `ui_init`. */
  method InitWindows(state: UiState)
    modifies state`appsRect, state`settingsRect, state`filesRect, state`usbRect, state`testRect
    ensures Rects(state) == INITIAL_RECTS
  {
    state.appsRect := Rect(90, 90, 320, 200);
    state.settingsRect := Rect(150, 120, 420, 260);
    state.filesRect := Rect(220, 100, 320, 220);
    state.usbRect := Rect(260, 160, 360, 220);
    state.testRect := Rect(300, 120, 340, 200);
  }

  /** `handle_menu_action`. */
  method HandleMenuAction(state: UiState, index: int)
    modifies state`menuOpen, state`appsOpen, state`settingsOpen, state`filesOpen, state`usbOpen, state`testOpen
    ensures Snap(state) == MenuAction(old(Snap(state)), index)
  {
    state.menuOpen := 0;
    if 0 <= index < APP_COUNT {
      SetOpen(state, index, 1);
    }
  }

  /** `drag_rect`: the rectangle of the dragged window, or a null pointer when
      the drag id is not an application. */
  function DragRect(state: UiState?): (p: Option<RectField>)
    reads state
    ensures p.Some? ==> state != null && Known(state.dragAppId) && FieldId(p.value) == state.dragAppId
    ensures p.None? ==> state == null || !Known(state.dragAppId)
  {
    if state == null then None
    else if state.dragAppId < 0 || state.dragAppId >= APP_COUNT then None
    else RectMut(state, state.dragAppId)
  }

  /** `clamp_rect` on the rectangle a pointer points at, which it edits field
      by field; a null framebuffer leaves it alone. */
  method ClampRect(r: Rect, fb: Surface?) returns (c: Rect)
    ensures fb == null ==> c == r
    ensures fb != null ==> c == Clamped(r, IntOfU32(fb.width), IntOfU32(fb.height))
  {
    c := r;
    if fb == null {
      return;
    }
    var maxX := IntOfU32(fb.width) - c.w;
    var maxY := IntOfU32(fb.height) - c.h - 32;
    if maxX < 0 {
      maxX := 0;
    }
    if maxY < 0 {
      maxY := 0;
    }
    if c.x < 0 {
      c := c.(x := 0);
    }
    if c.y < 0 {
      c := c.(y := 0);
    }
    if c.x > maxX {
      c := c.(x := maxX);
    }
    if c.y > maxY {
      c := c.(y := maxY);
    }
  }

  /** The keyboard part of `ui_update`. */
  method KeyStep(state: UiState, key: KeyAction)
    modifies state`menuOpen, state`menuIndex, state`appsOpen, state`settingsOpen, state`filesOpen,
      state`usbOpen, state`testOpen
    ensures Snap(state) == KeyStage(old(Snap(state)), key)
  {
    if key == KeyStart {
      state.menuOpen := if state.menuOpen != 0 then 0 else 1;
    } else if key == KeyEsc {
      state.menuOpen := 0;
    }
    if state.menuOpen != 0 {
      if key == KeyUp {
        state.menuIndex := CRem(state.menuIndex + APP_COUNT - 1, APP_COUNT);
      } else if key == KeyDown || key == KeyTab {
        state.menuIndex := CRem(state.menuIndex + 1, APP_COUNT);
      } else if key == KeyEnter {
        HandleMenuAction(state, state.menuIndex);
      }
    }
  }

  /** The menu-item loop: the first item under the point, or -1. */
  method FindMenuItem(panel: Rect, px: int, py: int) returns (k: int)
    ensures k == MenuItemAt(panel, px, py, 0)
  {
    var i := 0;
    while i < APP_COUNT
      invariant 0 <= i <= APP_COUNT
      invariant MenuItemAt(panel, px, py, i) == MenuItemAt(panel, px, py, 0)
    {
      var item := MenuItemRect(panel, i);
      if PointInRect(px, py, item) {
        return i;
      }
      i := i + 1;
    }
    return -1;
  }

  /** The desktop-icon loop: applications without an icon are skipped. */
  method FindIcon(px: int, py: int) returns (k: int)
    ensures k == IconAt(px, py, 0)
  {
    var i := 0;
    while i < APP_COUNT
      invariant 0 <= i <= APP_COUNT
      invariant IconAt(px, py, i) == IconAt(px, py, 0)
    {
      if HasDesktopIcon(i) == 0 {
        i := i + 1;
        continue;
      }
      var icon := DesktopIconRect(i);
      if PointInRect(px, py, icon) {
        return i;
      }
      i := i + 1;
    }
    return -1;
  }

  /** The close-box and title-bar loops: from the highest id down, closed
      windows are skipped. */
  method FindWindow(state: UiState, px: int, py: int, part: Part) returns (k: int)
    ensures k == WindowAt(Flags(state), Rects(state), px, py, part, APP_COUNT)
  {
    var i := APP_COUNT - 1;
    while i >= 0
      invariant -1 <= i < APP_COUNT
      invariant WindowAt(Flags(state), Rects(state), px, py, part, i + 1)
        == WindowAt(Flags(state), Rects(state), px, py, part, APP_COUNT)
    {
      ReadsById(state, i);
      if IsOpen(state, i) == 0 {
        i := i - 1;
        continue;
      }
      var rect := AppRect(state, i);
      if PointInRect(px, py, PartRect(rect, part)) {
        return i;
      }
      i := i - 1;
    }
    return -1;
  }

  /** The application-click loop: from the highest id down, each open window's
      handler is offered the click until one takes it; only the settings
      window's can. */
  method AppClicks(state: UiState, px: int, py: int) returns (handled: bool)
    modifies state`themeIndex
    ensures var k := SwatchAt(state.settingsRect, px, py, 0);
      (handled <==> state.settingsOpen != 0 && k != -1)
      && state.themeIndex == if handled then k else old(state.themeIndex)
  {
    var i := APP_COUNT - 1;
    while i >= 0
      invariant -1 <= i < APP_COUNT && state.themeIndex == old(state.themeIndex)
      invariant i < SETTINGS ==> state.settingsOpen == 0 || SwatchAt(state.settingsRect, px, py, 0) == -1
    {
      if IsOpen(state, i) == 0 {
        i := i - 1;
        continue;
      }
      var r := HandleClick(state, i, px, py);
      if r != 0 {
        return true;
      }
      i := i - 1;
    }
    return false;
  }

  /** The press part of `ui_update`: the start button, then the handlers
      after it while none has taken the press. */
  method PressStep(state: UiState, h: int)
    modifies state`menuOpen, state`appsOpen, state`settingsOpen, state`filesOpen, state`usbOpen,
      state`testOpen, state`themeIndex, state`dragAppId, state`dragOffsetX, state`dragOffsetY
    ensures Snap(state) == PressStage(old(Snap(state)), h)
  {
    if PointInRect(state.mouseX, state.mouseY, StartButtonRect(h)) {
      state.menuOpen := if state.menuOpen != 0 then 0 else 1;
      return;
    }
    MenuStep(state, h);
  }

  /** The menu-item loop's part of a press. */
  method MenuStep(state: UiState, h: int)
    modifies state`menuOpen, state`appsOpen, state`settingsOpen, state`filesOpen, state`usbOpen,
      state`testOpen, state`themeIndex, state`dragAppId, state`dragOffsetX, state`dragOffsetY
    ensures Snap(state) == MenuStage(old(Snap(state)), h)
  {
    if state.menuOpen != 0 {
      var item := FindMenuItem(MenuPanelRect(h), state.mouseX, state.mouseY);
      if item != -1 {
        HandleMenuAction(state, item);
        return;
      }
    }
    IconStep(state);
  }

  /** The desktop-icon loop's part of a press. */
  method IconStep(state: UiState)
    modifies state`appsOpen, state`settingsOpen, state`filesOpen, state`usbOpen,
      state`testOpen, state`themeIndex, state`dragAppId, state`dragOffsetX, state`dragOffsetY
    ensures Snap(state) == IconStage(old(Snap(state)))
  {
    var icon := FindIcon(state.mouseX, state.mouseY);
    if icon != -1 {
      SetOpen(state, icon, 1);
      return;
    }
    CloseStep(state);
  }

  /** The close-box loop's part of a press. */
  method CloseStep(state: UiState)
    modifies state`appsOpen, state`settingsOpen, state`filesOpen, state`usbOpen,
      state`testOpen, state`themeIndex, state`dragAppId, state`dragOffsetX, state`dragOffsetY
    ensures Snap(state) == CloseStage(old(Snap(state)))
  {
    var closed := FindWindow(state, state.mouseX, state.mouseY, CloseBox);
    if closed != -1 {
      SetOpen(state, closed, 0);
      return;
    }
    ClickStep(state);
  }

  /** The application-click loop's part of a press. */
  method ClickStep(state: UiState)
    modifies state`themeIndex, state`dragAppId, state`dragOffsetX, state`dragOffsetY
    ensures Snap(state) == ClickStage(old(Snap(state)))
  {
    var handled := AppClicks(state, state.mouseX, state.mouseY);
    if handled {
      return;
    }
    GrabStep(state);
  }

  /** The title-bar loop's part of a press. */
  method GrabStep(state: UiState)
    modifies state`dragAppId, state`dragOffsetX, state`dragOffsetY
    ensures Snap(state) == GrabStage(old(Snap(state)))
  {
    var grabbed := FindWindow(state, state.mouseX, state.mouseY, TitleBar);
    if grabbed != -1 {
      ReadsById(state, grabbed);
      var rect := AppRect(state, grabbed);
      state.dragAppId := grabbed;
      state.dragOffsetX := state.mouseX - rect.x;
      state.dragOffsetY := state.mouseY - rect.y;
    }
  }

  /** The drag part of `ui_update`, for a held button and a drag id that is not
      negative. */
  method DragStep(state: UiState, fb: Surface)
    modifies state`appsRect, state`settingsRect, state`filesRect, state`usbRect, state`testRect
    ensures Snap(state) == DragStage(old(Snap(state)), IntOfU32(fb.width), IntOfU32(fb.height))
  {
    var p := DragRect(state);
    if p.Some? {
      var r := Deref(state, p.value);
      RectMutAgreesWithRect(state, state.dragAppId);
      ReadsById(state, state.dragAppId);
      r := r.(x := state.mouseX - state.dragOffsetX, y := state.mouseY - state.dragOffsetY);
      r := ClampRect(r, fb);
      Store(state, p.value, r);
    }
  }

  /** `ui_update` after the polls: the keyboard, the button edges, a press,
      the drag and a release. */
  method React(state: UiState, fb: Surface, key: KeyAction)
    modifies state`menuOpen, state`menuIndex, state`prevMouseButtons, state`appsOpen, state`settingsOpen,
      state`filesOpen, state`usbOpen, state`testOpen, state`themeIndex, state`dragAppId, state`dragOffsetX,
      state`dragOffsetY, state`appsRect, state`settingsRect, state`filesRect, state`usbRect, state`testRect
    ensures Snap(state) == Update(old(Snap(state)), key, IntOfU32(fb.width), IntOfU32(fb.height))
  {
    KeyStep(state, key);
    ButtonStep(state, fb);
  }

  /** The button part of `ui_update`. */
  method ButtonStep(state: UiState, fb: Surface)
    modifies state`prevMouseButtons, state`menuOpen, state`appsOpen, state`settingsOpen, state`filesOpen,
      state`usbOpen, state`testOpen, state`themeIndex, state`dragAppId, state`dragOffsetX, state`dragOffsetY,
      state`appsRect, state`settingsRect, state`filesRect, state`usbRect, state`testRect
    ensures Snap(state) == ButtonStage(old(Snap(state)), IntOfU32(fb.width), IntOfU32(fb.height))
  {
    var leftDown := state.mouseButtons & 1 != 0;
    var leftPress := leftDown && state.prevMouseButtons & 1 == 0;
    var leftRelease := !leftDown && state.prevMouseButtons & 1 != 0;
    state.prevMouseButtons := state.mouseButtons;
    if leftPress {
      PressStep(state, IntOfU32(fb.height));
    }
    if leftDown && state.dragAppId >= 0 {
      DragStep(state, fb);
    }
    if leftRelease {
      state.dragAppId := -1;
    }
  }

  /** `ui_update`: one key from `poll_keyboard`, the pointer from `poll_mouse`,
      then the reaction to both. */
  method UiUpdate(state: UiState, fb: Surface, kbd: Keyboard, mouse: Mouse, ports: Ports)
    returns (key: KeyAction, ghost status: bv8, ghost data: bv8)
    requires kbd.Valid() && mouse.Valid()
    modifies state, kbd`head, kbd`contents, kbd`extended, ports, mouse, mouse.packet
    ensures kbd.Valid() && mouse.Valid()
    ensures Pointer(state.mouseX, state.mouseY, state.mouseButtons)
      == MouseStep(old(mouse.Side(state)), status, data, fb.width, fb.height).ptr
    ensures old(kbd.contents) != [] ==> key == old(kbd.contents)[0] && kbd.contents == old(kbd.contents)[1..]
    ensures old(kbd.contents) == [] ==> kbd.contents == []
    ensures Snap(state) == Update(old(Snap(state)).(mouseX := state.mouseX, mouseY := state.mouseY,
      buttons := state.mouseButtons), key, IntOfU32(fb.width), IntOfU32(fb.height))
    ensures state.info == old(state.info)
  {
    key, status, data := Poll(state, fb, kbd, mouse, ports);
    React(state, fb, key);
  }

  /** The two polls at the start of `ui_update`: only the pointer fields of
      the state change. */
  method Poll(state: UiState, fb: Surface, kbd: Keyboard, mouse: Mouse, ports: Ports)
    returns (key: KeyAction, ghost status: bv8, ghost data: bv8)
    requires kbd.Valid() && mouse.Valid()
    modifies state`mouseX, state`mouseY, state`mouseButtons, kbd`head, kbd`contents, kbd`extended,
      ports, mouse, mouse.packet
    ensures kbd.Valid() && mouse.Valid()
    ensures Pointer(state.mouseX, state.mouseY, state.mouseButtons)
      == MouseStep(old(mouse.Side(state)), status, data, fb.width, fb.height).ptr
    ensures old(kbd.contents) != [] ==> key == old(kbd.contents)[0] && kbd.contents == old(kbd.contents)[1..]
    ensures old(kbd.contents) == [] ==> kbd.contents == []
    ensures Snap(state) == old(Snap(state)).(mouseX := state.mouseX, mouseY := state.mouseY,
      buttons := state.mouseButtons)
  {
    ghost var st, sc;
    key, st, sc := kbd.PollKeyboard(ports);
    status, data := mouse.PollMouse(state, fb, ports);
  }
}
