/** The window manager's state, `struct ui_state` of include/ui.h, shared by the
    input driver, the applications and the window manager. */
module UiTypes {
  import opened Common
  import opened Framebuffer

  /** `struct system_info`: the strings are kept without their terminating NUL. */
  datatype SystemInfo = SystemInfo(
    version: string, kernel: string, cpu: string,
    ramKb: u32, width: u32, height: u32, bpp: nat)

  /** `struct ui_state`. Booleans of the C code (`menu_open`, `apps_open`, ...) are
      `int`s there and stay `int`s here. */
  class UiState {
    var menuOpen: int
    var menuIndex: int
    var appsOpen: int
    var settingsOpen: int
    var filesOpen: int
    var usbOpen: int
    var testOpen: int
    var mouseX: int
    var mouseY: int
    var mouseButtons: bv8
    var prevMouseButtons: bv8
    var themeIndex: int
    var dragAppId: int
    var dragOffsetX: int
    var dragOffsetY: int
    var appsRect: Rect
    var settingsRect: Rect
    var filesRect: Rect
    var usbRect: Rect
    var testRect: Rect
    var info: SystemInfo

    /** Storage for a state that `ui_init` fills in; its contents are not yet
        meaningful. */
    constructor ()
    {
    }
  }
}
