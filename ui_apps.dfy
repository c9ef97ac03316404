/** The application table of src/ui_apps.c: the five applications' labels and
    desktop icons, which `ui_state` flag and rectangle belong to which
    application, and the dispatch of clicks. */
module UiApps {
  import opened Common
  import opened Framebuffer
  import opened UiTypes
  import AppSettings

  /** `enum ui_app_id`. */
  const APPS: int := 0
  const SETTINGS: int := 1
  const FILES: int := 2
  const USB: int := 3
  const TEST: int := 4
  const APP_COUNT: int := 5

  /** An id the tables have an entry for. */
  predicate Known(id: int)
  {
    0 <= id < APP_COUNT
  }

  const ZERO_RECT := Rect(0, 0, 0, 0)

  /** `ui_app_menu_label`. */
  function MenuLabel(id: int): (s: string)
  {
    if id == APPS then "Apps"
    else if id == SETTINGS then "Settings"
    else if id == FILES then "Folders"
    else if id == USB then "USB Manager"
    else if id == TEST then "Test App"
    else "Unknown"
  }

  /** Each application has its own menu label, and none is the one an unknown id
      gets. */
  lemma MenuLabelsDistinct(i: int, j: int)
    requires Known(i) && MenuLabel(i) == MenuLabel(j)
    ensures i == j
    ensures MenuLabel(i) != "Unknown"
  {
  }

  /** `ui_app_has_desktop_icon`. */
  function HasDesktopIcon(id: int): (r: int)
  {
    if id == USB || id == TEST then 1 else 0
  }

  /** `ui_app_desktop_icon_rect`. */
  function DesktopIconRect(id: int): (r: Rect)
  {
    if id == USB then Rect(24, 60, 64, 64)
    else if id == TEST then Rect(24, 132, 64, 64)
    else ZERO_RECT
  }

  /** `ui_app_desktop_icon_label`. */
  function DesktopIconLabel(id: int): (s: string)
  {
    if id == USB then "USB Manager" else if id == TEST then "Test App" else ""
  }

  /** Only the USB manager and the test application have desktop icons; an icon
      is labelled like the application's menu entry and has an area, and an id
      without one gets an empty box and an empty label. */
  lemma DesktopIcons(id: int)
    ensures HasDesktopIcon(id) == 1 <==> id == USB || id == TEST
    ensures HasDesktopIcon(id) == 1 ==> (DesktopIconLabel(id) == MenuLabel(id)
      && DesktopIconRect(id).w > 0 && DesktopIconRect(id).h > 0)
    ensures HasDesktopIcon(id) == 0 ==> DesktopIconRect(id) == ZERO_RECT && DesktopIconLabel(id) == ""
    ensures !Known(id) ==> MenuLabel(id) == "Unknown" && HasDesktopIcon(id) == 0
  {
  }

  /** The two icons do not overlap, so at most one is hit. */
  lemma DesktopIconsDisjoint(px: int, py: int, i: int, j: int)
    requires HasDesktopIcon(i) == 1 && HasDesktopIcon(j) == 1
    requires PointInRect(px, py, DesktopIconRect(i)) && PointInRect(px, py, DesktopIconRect(j))
    ensures i == j
  {
  }

  // ---------------------------------------------------------------------------
  // Open flags and window rectangles in `struct ui_state`

  /** The open flags of the five applications, by id. */
  function Flags(state: UiState): (f: seq<int>)
    reads state`appsOpen, state`settingsOpen, state`filesOpen, state`usbOpen, state`testOpen
    ensures |f| == APP_COUNT
  {
    [state.appsOpen, state.settingsOpen, state.filesOpen, state.usbOpen, state.testOpen]
  }

  /** The window rectangles of the five applications, by id. */
  function Rects(state: UiState): (r: seq<Rect>)
    reads state`appsRect, state`settingsRect, state`filesRect, state`usbRect, state`testRect
    ensures |r| == APP_COUNT
  {
    [state.appsRect, state.settingsRect, state.filesRect, state.usbRect, state.testRect]
  }

  /** `ui_app_is_open`. */
  function IsOpen(state: UiState?, id: int): (r: int)
    reads state
  {
    if state == null then 0
    else if id == APPS then state.appsOpen
    else if id == SETTINGS then state.settingsOpen
    else if id == FILES then state.filesOpen
    else if id == USB then state.usbOpen
    else if id == TEST then state.testOpen
    else 0
  }

  /** `ui_app_rect`. */
  function AppRect(state: UiState?, id: int): (r: Rect)
    reads state
  {
    if state == null then ZERO_RECT
    else if id == APPS then state.appsRect
    else if id == SETTINGS then state.settingsRect
    else if id == FILES then state.filesRect
    else if id == USB then state.usbRect
    else if id == TEST then state.testRect
    else ZERO_RECT
  }

  /** `ui_app_is_open` and `ui_app_rect` read entry `id` of the flags and the
      rectangles; an unknown id or a null state reads as closed and empty. */
  lemma ReadsById(state: UiState?, id: int)
    ensures state != null && Known(id) ==> IsOpen(state, id) == Flags(state)[id] && AppRect(state, id) == Rects(state)[id]
    ensures state == null || !Known(id) ==> IsOpen(state, id) == 0 && AppRect(state, id) == ZERO_RECT
  {
  }

  /** The objects a possibly null pointer points at. */
  function Present(state: UiState?): (s: set<UiState>)
  {
    if state == null then {} else {state}
  }

  /** `ui_app_set_open`: the flag of `id` becomes 1 or 0 as `open` is non-zero
      or zero; nothing else changes, and an unknown id or a null state changes
      nothing. */
  method SetOpen(state: UiState?, id: int, open: int)
    modifies Present(state)`appsOpen, Present(state)`settingsOpen, Present(state)`filesOpen,
      Present(state)`usbOpen, Present(state)`testOpen
    ensures state != null ==> Flags(state) == if Known(id) then old(Flags(state))[id := if open != 0 then 1 else 0] else old(Flags(state))
  {
    if state == null {
      return;
    }
    var value := if open != 0 then 1 else 0;
    if id == APPS {
      state.appsOpen := value;
    } else if id == SETTINGS {
      state.settingsOpen := value;
    } else if id == FILES {
      state.filesOpen := value;
    } else if id == USB {
      state.usbOpen := value;
    } else if id == TEST {
      state.testOpen := value;
    }
  }

  /** The `struct rect` field of `ui_state` a `ui_app_rect_mut` pointer points
      at. */
  datatype RectField = AppsRect | SettingsRect | FilesRect | UsbRect | TestRect

  /** `ui_app_rect_mut`: the field, or a null pointer. */
  function RectMut(state: UiState?, id: int): (p: Option<RectField>)
  {
    if state == null then None
    else if id == APPS then Some(AppsRect)
    else if id == SETTINGS then Some(SettingsRect)
    else if id == FILES then Some(FilesRect)
    else if id == USB then Some(UsbRect)
    else if id == TEST then Some(TestRect)
    else None
  }

  /** Reading through the pointer. */
  function Deref(state: UiState, f: RectField): Rect
    reads state
  {
    match f
    case AppsRect => state.appsRect
    case SettingsRect => state.settingsRect
    case FilesRect => state.filesRect
    case UsbRect => state.usbRect
    case TestRect => state.testRect
  }

  /** The id whose rectangle the field holds. */
  function FieldId(f: RectField): (id: int)
    ensures Known(id)
  {
    match f
    case AppsRect => APPS
    case SettingsRect => SETTINGS
    case FilesRect => FILES
    case UsbRect => USB
    case TestRect => TEST
  }

  /** For a known id `ui_app_rect` returns what the `ui_app_rect_mut` pointer
      points at, and the pointer is null exactly when the state is or the id is
      unknown. */
  lemma RectMutAgreesWithRect(state: UiState?, id: int)
    ensures RectMut(state, id).None? <==> state == null || !Known(id)
    ensures RectMut(state, id).Some? ==> (FieldId(RectMut(state, id).value) == id
      && Deref(state, RectMut(state, id).value) == AppRect(state, id))
  {
  }

  /** A store through a `ui_app_rect_mut` pointer. */
  method Store(state: UiState, f: RectField, r: Rect)
    modifies state`appsRect, state`settingsRect, state`filesRect, state`usbRect, state`testRect
    ensures Rects(state) == old(Rects(state))[FieldId(f) := r]
  {
    match f
    case AppsRect => state.appsRect := r;
    case SettingsRect => state.settingsRect := r;
    case FilesRect => state.filesRect := r;
    case UsbRect => state.usbRect := r;
    case TestRect => state.testRect := r;
  }

  // ---------------------------------------------------------------------------
  // Clicks

  /** The swatch, counted from `i`, whose box holds the point, or -1: the result
      of a click on the settings window. */
  function SwatchAt(panel: Rect, px: int, py: int, i: nat): (k: int)
    ensures k == -1 || i <= k < AppSettings.SWATCH_COUNT
    decreases AppSettings.SWATCH_COUNT - i
  {
    if i >= AppSettings.SWATCH_COUNT then -1
    else if PointInRect(px, py, AppSettings.Swatch(panel, i)) then i
    else SwatchAt(panel, px, py, i + 1)
  }

  /** `SwatchAt` finds the swatch that holds the point when there is one, and
      -1 when none does. */
  lemma {:induction false} SwatchAtFinds(panel: Rect, px: int, py: int, i: nat)
    ensures SwatchAt(panel, px, py, i) == -1 <==>
      forall j :: i <= j < AppSettings.SWATCH_COUNT ==> !PointInRect(px, py, AppSettings.Swatch(panel, j))
    ensures SwatchAt(panel, px, py, i) != -1 ==> PointInRect(px, py, AppSettings.Swatch(panel, SwatchAt(panel, px, py, i)))
    decreases AppSettings.SWATCH_COUNT - i
  {
    if i < AppSettings.SWATCH_COUNT && !PointInRect(px, py, AppSettings.Swatch(panel, i)) {
      SwatchAtFinds(panel, px, py, i + 1);
    }
  }

  /** `ui_app_handle_click`: only the settings window handles clicks; for any
      other id nothing changes and 0 is returned. */
  method HandleClick(state: UiState, id: int, mouseX: int, mouseY: int) returns (handled: int)
    modifies state`themeIndex
    ensures id != SETTINGS ==> handled == 0 && state.themeIndex == old(state.themeIndex)
    ensures id == SETTINGS ==> var k := SwatchAt(state.settingsRect, mouseX, mouseY, 0);
      (handled == 1 <==> k != -1) && handled in {0, 1}
      && state.themeIndex == if k != -1 then k else old(state.themeIndex)
  {
    if id == SETTINGS {
      handled := AppSettings.HandleClick(state, mouseX, mouseY);
      var panel := state.settingsRect;
      SwatchAtFinds(panel, mouseX, mouseY, 0);
      if handled == 1 {
        var k := SwatchAt(panel, mouseX, mouseY, 0);
        AppSettings.SwatchesDisjoint(panel, mouseX, mouseY, k, state.themeIndex);
      }
    } else {
      handled := 0;
    }
  }
}
