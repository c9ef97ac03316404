# ExonOS USB host stack and collaborators, modelled in Dafny

This project models the USB 2.0 host stack of the ExonOS hobby kernel, together with
the kernel parts it depends on. It also proves properties of that model.

**USB stack**
- Setup packets and device enumeration in `usb.c`.
- The EHCI control-transfer engine in `ehci_transfer.c`.
- EHCI controller bring-up in `ehci.c`.
- The HID boot-report decoders in `usb_hid.c`.
- PCI configuration access and the bus-0 scan in `pci.c`.

**Collaborators**
- The keyboard queue and the PS/2 decoding in `input.c`.
- The bump allocator and the page bitmap in `memory.c`.
- FAT mounting and listing of the root directory in `fat.c`.
- The Multiboot2 tag walks in `mb2.c`.
- Bounded string and number formatting in `app_settings.c`, `log.c` and `kernel.c`.
- The cooperative scheduler in `scheduler.c`.
- Pixel-buffer clipping in `framebuffer.c`.
- The window manager's input state in `ui.c` and `ui_apps.c`.

Each C file is one Dafny module, in one `.dfy` file of the same name. Code that computes
a value is a function. Code that changes state is a method on a class, or a method that
changes an array. Each method is proved against a specification function, and lemmas
state the properties of that function.

Hardware is never called. It is modelled as follows:
- **Memory-mapped registers and I/O ports** are `Hw.Bus` and `Hw.Ports`. A read returns
  any value and appends the access to a trace; a write appends it to the trace.
- **PCI configuration reads** are a function from the address word to the data word.
- **The disk** is a function from LBA to a sector, or a failure.
- **The Multiboot2 information block** is `Mb2.Words`, a function from a byte offset to
  the little-endian 32-bit word stored there; every read of the walk is at a multiple of 4.
- **USB outcomes** are a script: what each control transfer reports, and what the
  controller leaves in the buffer.

C's 32-bit unsigned arithmetic is written out wherever it can wrap: `Common.Wrap32`, or
`% 0x1_0000_0000`. Two behaviours of the C code that a reader might not expect:
- **`usb_init`.** It sets the address to 1 as soon as SET_ADDRESS succeeds
  (`src/usb.c:120-129`), so the address stays 1 after a later failure.
- **The EHCI BAR.** `ehci_init` masks BAR0 with `0xFFFFFFF0` (`src/ehci.c:21`), which clears
  4 bits only; the base is 16-byte aligned.

Six defects of the C code are listed in the Findings section at the end. For each, the model has the
C behaviour as a separate `...AsWritten` definition with a lemma exhibiting the defect,
and the operations use the corrected definition. The lines of the Left out section that start
with an operation's name give the inputs on which that operation differs from the C.

`Common` also holds a few generic sequence facts used only as proof steps
(`ConcatAssoc`, `AppendFour`, `AppendSix`, `TakeStep`, `TakeOneMore`, `RegroupFive`).
The task bodies of `Kernel.Tasks` (`UsbTask`, `UiTask`) are tied to `Kernel.CounterAfter`
one call at a time: each `ensures` turns a divider equal to `CounterAfter(k)` into
`CounterAfter(k + 1)`. No lemma runs k calls in sequence.

## Model

| member | source | states |
|---|---|---|
| Common.Wrap32 | src/scheduler.c:29-31 | The value a `uint32_t` holds after an assignment: below 2^32, and the value itself when it already fits. |
| Common.Le16 | src/usb.c:136-137 | The little-endian pair of two bytes; both bytes read back from it. |
| Common.Le32 | src/pci.c:12-25 | The little-endian word of four bytes; each byte reads back from it. |
| Common.Le32OfBytes | src/pci.c:22-25 | Splitting a word into its four x86 memory bytes and reassembling them gives the word back. |
| Common.SignedByte | src/usb_hid.c:70-71 | C's `(int8_t)` cast: a value in [-128, 128) congruent to the byte modulo 256. |
| Common.SignedByteExamples | src/usb_hid.c:70-71 | 0xFE reads as -2, 0x05 as 5 and 0x80 as -128. |
| Decimal.DigitChar | src/app_settings.c:52 | `'0' + d` is a decimal digit character. |
| Decimal.Digits | src/log.c:59-69 | The decimal digits of a number, most significant first: never empty, digits only. |
| Decimal.ValueOfDigits | src/log.c:63-69 | Reading the digits back gives the number. |
| Decimal.DigitsInjective | src/log.c:63-69 | Different numbers are written differently. |
| Decimal.LeadingDigit | src/app_settings.c:48-55 | Only zero is written with a leading '0', so there are no leading zeros. |
| Decimal.DigitsLength | src/log.c:57-63 | A number below 10^k has at most k digits. |
| Decimal.DigitsOfU32 | src/log.c:57-63 | A 32-bit number has at most ten digits, so the ten-slot buffer of `log_dec32` never cuts it. |
| Decimal.Reverse | src/log.c:67-69 | Position k of the reversed string holds position n-1-k of the original. |
| Decimal.ReverseReverse | src/app_settings.c:57-60 | Reversing twice gives the string back. |
| Decimal.HexDigitValue | src/log.c:48 | The value of a character of "0123456789ABCDEF" is below 16. |
| Decimal.HexCharValue | src/log.c:48-52 | The table character of digit d reads back as d. |
| Decimal.HexN | src/log.c:50-53 | The low n hexadecimal digits, exactly n characters. |
| Decimal.HexNAt | src/log.c:50-52 | Position k holds the nibble `(v >> 4(n-1-k)) & 0xF`, most significant first. |
| Decimal.HexValueOfHexN | src/log.c:50-53 | The n digits read back as v modulo 16^n. |
| Decimal.HexValueOfU32 | src/log.c:47-54 | Eight digits write out every 32-bit value exactly. |
| Decimal.PushDigit | src/log.c:63-66 | Moving `value % 10` into the buffer and dividing by 10 keeps the digits already written plus those still to come equal to the digits of the number. |
| Decimal.DigitsBackwards | src/log.c:63-66 | The digit loop gives exactly the digits of the value, least significant first, when the cap leaves room for all of them. |
| Hw.Writes | src/ehci.c:8-10 | The writes of a trace: only writes, each from the trace, and every write of the trace. |
| Hw.WritesAppend | src/ehci.c:42-66 | The writes of two traces one after the other are the writes of each, in order. |
| Hw.Bus.Read32 | src/ehci.c:4-6 | A register read appends one read with the returned value to the trace. |
| Hw.Bus.Write32 | src/ehci.c:8-10 | A register write appends one write to the trace. |
| Hw.Ports.Inb | src/log.c:6-8 | A port read appends one input to the trace. |
| Hw.Ports.Outb | src/log.c:23 | A port write appends one output to the trace. |
| Scheduler.TaskList.constructor | src/scheduler.c:10-12 | The static table starts with no task registered, no tick counted and no run recorded. |
| Scheduler.TaskList.Registered | src/scheduler.c:10-11 | The registered tasks are the first `task_count` entries of the table. |
| Scheduler.TaskList.Init | src/scheduler.c:14-17 | `task_count` and `ticks` become 0. |
| Scheduler.TaskList.Add | src/scheduler.c:19-27 | A null function or a full table returns 0 and changes nothing; otherwise the task is appended and 1 returned; the count stays at most 8. |
| Scheduler.TaskList.Ticks | src/scheduler.c:36-38 | `scheduler_ticks`: the tick counter. It has no contract of its own; `Scheduler.TaskList.Tick` advances it by one modulo 2^32 and `Init` resets it. |
| Scheduler.TaskList.Tick | src/scheduler.c:29-34 | `ticks` goes up by one modulo 2^32, and every registered task runs once, in registration order. |
| CStr.Prefix | src/app_settings.c:7-16 | The C string a buffer holds is no longer than the buffer. |
| CStr.PrefixEndsAtNul | src/app_settings.c:12-15 | The string is a NUL-free start of the buffer that ends at the first NUL. |
| CStr.PrefixOfTerminated | src/app_settings.c:12-15 | A NUL-free part followed by a NUL is the string. |
| CStr.PrefixThroughNul | src/app_settings.c:12-15 | A NUL ends the string whatever follows it. |
| CStr.At | src/app_settings.c:23 | Reading a source string past its characters gives its terminator, and only there. |
| CStr.Take | src/app_settings.c:23-26 | The first n characters, or all of them: the length and each character. |
| CStr.StrLen | src/app_settings.c:7-16 | The index of the first NUL, or 0 for null. |
| CStr.CopyChars | src/app_settings.c:22-26 | The copy loop writes `Take(src, max_len-1-start)` from `start` on, and changes nothing else. |
| CStr.CopiedString | src/app_settings.c:18-28 | After `str_copy` the buffer's string is the source cut to max_len-1 characters, and nothing from max_len on changes. |
| CStr.StrCopy | src/app_settings.c:18-28 | A null argument or max_len 0 writes nothing; otherwise the buffer becomes `Copied`. The `str_copy` of `kernel.c` is the same code and shares this model. |
| CStr.AppendedString | src/app_settings.c:30-40 | After `str_append` the string is the old string followed by the source, cut to max_len-1 characters in all. |
| CStr.StrAppend | src/app_settings.c:30-40 | A null argument or max_len 0 writes nothing; otherwise the buffer becomes `Appended`. |
| CStr.TakeConcat | src/app_settings.c:36-38 | Cutting a concatenation is cutting the first part, then the second to the room that is left. |
| CStr.AppendToEmpty | src/app_settings.c:72-73 | Appending to an emptied buffer is copying. |
| CStr.AppendAfterCopy | src/app_settings.c:73-74 | Appending to a copy is copying the concatenation. |
| CStr.CopiedIgnoresFirst | src/app_settings.c:72 | A buffer whose first character was overwritten copies as before. |
| AppSettings.DigitsNoNul | src/app_settings.c:52 | Decimal digits hold no NUL. |
| AppSettings.U32ToDec | src/app_settings.c:42-62 | A null buffer or max_len 0 writes nothing; otherwise the buffer holds the digits of the value, as `str_copy` of the digit string would leave it. |
| AppSettings.CopyDigitsOut | src/app_settings.c:57-61 | The second loop writes the digits most significant first, cut to max_len-1. |
| AppSettings.RamTextReadsBack | src/app_settings.c:64-75 | A known size reads back as whole mebibytes before " MB"; 0 is "Unknown", which no size is written as. |
| AppSettings.ResolutionTextReadsBack | src/app_settings.c:77-85 | The one 'x' splits the text into the width's and the height's digits. |
| AppSettings.BppTextReadsBack | src/app_settings.c:87-93 | The text is the colour depth's digits before " bpp". |
| AppSettings.ScratchHoldsDigits | src/app_settings.c:70-71 | The scratch buffer filled by `u32_to_dec` holds the digit string. |
| AppSettings.EmptyThenAppend | src/app_settings.c:72-74 | Emptying and then appending two strings is copying their concatenation. |
| AppSettings.FormatRam | src/app_settings.c:64-75 | The buffer is `str_copy` of "Unknown" or of the mebibytes and " MB"; with max_len 0 only a known size clears the first character. |
| AppSettings.FormatWithUnit | src/app_settings.c:69-92 | The number, then the unit, cut to max_len-1 as `str_copy` would. |
| AppSettings.FormatResolution | src/app_settings.c:77-85 | The buffer is `str_copy` of "<w>x<h>"; the first character is cleared even for max_len 0. |
| AppSettings.DigitsOfByte | src/app_settings.c:87-89 | An 8-bit depth has at most three digits, so the 8-character scratch buffer holds it. |
| AppSettings.FormatBpp | src/app_settings.c:87-93 | The buffer is `str_copy` of "<n> bpp"; the first character is cleared even for max_len 0. |
| AppSettings.Swatch | src/app_settings.c:96-102 | Swatch i's hit box is 24 by 24, 44 below the window's corner. |
| AppSettings.SwatchesDisjoint | src/app_settings.c:101-107 | The hit boxes do not overlap, so the first one hit is the only one. |
| AppSettings.DrawnSwatch | src/app_settings.c:112-124 | The drawn swatch has the same x and size as its hit box, 6 pixels lower. |
| AppSettings.DrawnSwatchBottomMisses | src/app_settings.c:97-124 | A click on the bottom 6 rows of a drawn swatch hits no hit box. |
| AppSettings.HandleClick | src/app_settings.c:95-110 | 1 exactly when some swatch holds the point, and that swatch becomes the theme; otherwise 0 and the theme is unchanged. |
| UsbHid.HidKeyToAction | src/usb_hid.c:15-36 | `hid_key_to_action`: the action bound to a keyboard usage, KEY_NONE for a usage that is not bound. It has no contract of its own; `UsbHid.HidKeyYields` proves it inverts `UsageOf` and `UsbHid.SameActionsAsPs2` that it yields the same actions as the PS/2 decoder. |
| UsbHid.HidKeyYields | src/usb_hid.c:15-36 | A usage maps to an action exactly when it is that action's usage (0x52 Up, 0x51 Down, 0x50 Left, 0x4F Right, 0x28 Enter, 0x29 Esc, 0x2B Tab, 0x16 Start); every other usage maps to KEY_NONE. |
| UsbHid.SameActionsAsPs2 | src/usb_hid.c:15-36 | The USB usage decoder and the PS/2 decoder of `input.c` produce the same eight actions. |
| UsbHid.PressesMembership | src/usb_hid.c:48-60 | An action is injected exactly when some slot holds a nonzero usage absent from all six previous slots that maps to it. |
| UsbHid.NothingNewNoPresses | src/usb_hid.c:48-60 | A report whose usages were all in the previous report injects nothing. |
| UsbHid.ReplayInjectsNothing | src/usb_hid.c:44-63 | Replaying the identical report injects nothing. |
| UsbHid.RepeatedUsageInjectedTwice | src/usb_hid.c:49-60 | A new usage in two slots of one report is injected twice: the test is membership, not position. |
| UsbHid.EnqueueAllAppends | src/input.c:16-23 | While the queue has room, the injected actions are appended in order. |
| UsbHid.EnqueueAllKeepsOld | src/input.c:16-23 | The queue never holds more than 15 actions and keeps its oldest ones. |
| UsbHid.HidDriver.constructor | src/usb_hid.c:4 | Storage for the six remembered key codes. |
| UsbHid.HidDriver.Init | src/usb_hid.c:38-42 | All six remembered slots become 0. |
| UsbHid.HidDriver.KeyInLast | src/usb_hid.c:6-13 | Found exactly when the usage is in one of the six slots. |
| UsbHid.HidDriver.OnKeyboardReport | src/usb_hid.c:44-64 | A null report or one shorter than 8 bytes changes nothing; otherwise the queue gets the presses in slot order and the slots become bytes 2 to 7 of the report. |
| UsbHid.HidDriver.RememberKeys | src/usb_hid.c:61-63 | The slots become the six usages. |
| UsbHid.HidDriver.InjectPresses | src/usb_hid.c:49-60 | The queue is the old queue with each slot's press injected in turn. |
| UsbHid.HidDriver.InjectSlot | src/usb_hid.c:50-59 | One slot injects its action when it is newly pressed, and nothing otherwise. |
| UsbHid.HidDriver.OnMouseReport | src/usb_hid.c:66-74 | A null report or one shorter than 3 bytes changes nothing; otherwise the buttons become byte 0 & 7 and bytes 1 and 2, read as signed, are added to the pending motion. |
| Input.DecodeSet1AsWritten | src/input.c:93-101 | The decoding step as the C writes it, where a break code keeps a pending 0xE0 prefix. It has no contract of its own; `Input.ExtendedFlagCarriesOver` exhibits the key it loses. |
| Input.DecodeSet1 | src/input.c:93-129 | One scan-code-set-1 step with the prefix consumed by the next byte: the flag is set exactly after 0xE0. |
| Input.DecodeStream | src/input.c:84-130 | A byte stream decodes to one action per byte. |
| Input.ExtendedFlagCarriesOver | src/input.c:94-101 | As written, the bytes E0 48 E0 C8 1C lose Enter, and with the flag consumed they do not. |
| Input.DecodeIgnoresOlderHistory | src/input.c:94-103 | With the corrected step, only an immediately preceding 0xE0 changes the meaning of a byte. |
| Input.DecodeYields | src/input.c:102-129 | An action is decoded exactly from its make code, with the prefix for the arrows and without it for Enter, Esc, Tab and Start. |
| Input.ClampAxis | src/input.c:165-176 | The clamped coordinate lies on the screen, and one already on it is unchanged. |
| Input.PacketClampsPointer | src/input.c:158-197 | After a complete packet the pointer is on the screen and the pending motion is consumed. |
| Input.PacketMoves | src/input.c:160-176 | A packet moves the pointer by its signed deltas, y inverted, then clamps it; the buttons become byte 0 & 7. |
| Input.InjectedMotionUnclamped | src/input.c:139-154 | On the path for a byte that is not from the mouse, the injected motion is applied without clamping and a byte is still stored. |
| Input.NoDataNoChange | src/input.c:135-151 | With no data, or with a keyboard byte and nothing injected, `poll_mouse` changes nothing. |
| Input.Slot | src/input.c:17 | The ring index `(head + i) % 16`. |
| Input.Count | src/input.c:78-80 | The number of queued actions, below 16, which leads from head to tail. |
| Input.Keyboard.constructor | src/input.c:8-10 | The zero-initialised statics: an empty key queue and no pending extended prefix. |
| Input.Keyboard.AtMostFifteen | src/input.c:16-23 | The queue holds at most 15 actions: one slot always stays empty. |
| Input.Keyboard.InjectKey | src/input.c:16-23 | A full queue drops the action and changes nothing; otherwise the action is appended. |
| Input.Keyboard.PollKeyboard | src/input.c:77-130 | A non-empty queue returns its oldest action and drops it, without a port read; otherwise one status read and, for a keyboard byte, one data read decoded as in `DecodeSet1`. |
| Input.Keyboard.Dequeue | src/input.c:78-82 | The oldest action is returned and removed. |
| Input.Keyboard.ReadScancode | src/input.c:84-130 | No data or a mouse byte gives KEY_NONE after one status read; otherwise the data byte is read and decoded. |
| Input.Mouse.constructor | src/input.c:11-14 | The zero-initialised statics: no pending motion or buttons, nothing pending, and the packet cycle at byte 0. |
| Input.Mouse.InjectMouse | src/input.c:25-30 | The motion adds to the pending sums, the buttons are overwritten and the pending flag is set. |
| Input.Mouse.PollMouse | src/input.c:132-198 | The new pointer and statics are `MouseStep` of the old ones and the bytes read, and the port trace has the status read and, when the step goes on, one data read. |
| Input.Mouse.ApplyInjected | src/input.c:139-152 | The injected motion is applied unclamped and cleared. |
| Input.Mouse.FinishPacket | src/input.c:158-197 | The last part of a packet leaves `CompletePacket` of the old pointer and statics. |
| Memory.BitAnd | src/memory.c:17 | C's `&` on non-negative values never exceeds either operand. |
| Memory.AndHighMask | src/memory.c:17 | ANDing a value below 2^n with the mask of bits k..n-1 removes exactly its low k bits. |
| Memory.LowBitsOfDifference | src/memory.c:17 | A value with its low k bits removed has no low k bits left. |
| Memory.RoundDownBounds | src/memory.c:17 | Removing the low k bits yields a multiple of 2^k in (x - 2^k, x]. |
| Memory.AndAlignMask | src/memory.c:17 | The 32-bit mask `~(2^k - 1)` clears exactly the low k bits of any 32-bit value. |
| Memory.AlignUpNoWrap | src/memory.c:16-18 | Without wrap-around `align_up` is the complement mask applied to `value + align - 1`. |
| Memory.AlignUpRoundsDown | src/memory.c:16-18 | Without wrap-around, aligning to 2^k rounds `value + 2^k - 1` down to a multiple of 2^k. |
| Memory.AlignUp | src/memory.c:16-18 | `align_up` in 32-bit arithmetic. It has no contract of its own; `Memory.AlignUpLeast` proves that for a power-of-two alignment that does not wrap it is the least aligned value at or above its argument. |
| Memory.AlignUpLeast | src/memory.c:16-18 | For a power-of-two alignment whose addition does not wrap, the result is the least multiple of the alignment at or above the value. |
| Memory.AlignUpWraps | src/memory.c:16-18 | When `value + align - 1` wraps, the result falls below the value (0xFFFFFFF1 aligned to 16 is 0). |
| Memory.AlignFour | src/memory.c:16-18 | Aligning to 4 keeps a multiple of 4 and moves a value that is 3 mod 4 up by one. |
| Memory.Bit | src/memory.c:21 | `1u << k` for a bit position below 8 is a non-zero byte. |
| Memory.SetBit | src/memory.c:20-22 | `bitmap_set` keeps the bitmap's length. |
| Memory.ClearBit | src/memory.c:24-26 | `bitmap_clear` keeps the bitmap's length. |
| Memory.SetByteBit | src/memory.c:21 | ORing bit k into a byte changes bit j exactly when j is k. |
| Memory.ClearByteBit | src/memory.c:25 | ANDing a byte with the complement of bit k changes bit j exactly when j is k. |
| Memory.Test | src/memory.c:28-30 | `bitmap_test`: whether bit `idx % 8` of byte `idx / 8` is set. It has no contract of its own; `Memory.TestAfterSet` and `Memory.TestAfterClear` prove that setting and clearing a bit change that page's test only. |
| Memory.TestAfterSet | src/memory.c:20-30 | After `bitmap_set(idx)` page idx tests as used and every other page tests as before. |
| Memory.TestAfterClear | src/memory.c:24-30 | After `bitmap_clear(idx)` page idx tests as free and every other page tests as before. |
| Memory.ClearIdempotent | src/memory.c:24-26 | Clearing a bit twice is clearing it once. |
| Memory.FreeCount | src/memory.c:14 | The number of free pages below n is at most n. |
| Memory.FreeCountAfterSet | src/memory.c:36-40 | Marking a free page used lowers the free count by exactly one. |
| Memory.FreeCountAfterClear | src/memory.c:49-52 | Marking a used page free raises the free count by exactly one. |
| Memory.FreeCountOneFlip | src/memory.c:49-52 | Two bitmaps that differ only at one page, used in the first and free in the second, differ by one in free count. |
| Memory.FreeCountUnchangedBelow | src/memory.c:14 | Bitmaps that agree on pages 0..n-1 have the same free count there. |
| Memory.FreeCountAllUsed | src/memory.c:92-95 | With every page used the free count is zero, as `memory_init` sets it. |
| Memory.FreeCountWitness | src/memory.c:141-155 | A positive free count has a free page to show for it. |
| Memory.PageEndAsWritten | src/memory.c:34 | The page end as the source computes it in 32 bits is below 2^20. |
| Memory.PageEndAsWrittenLosesClampedRegion | src/memory.c:47 | An end of 0xFFFFFFFF or 0xFFFFF001 wraps to page end 0, so the range frees no page. |
| Memory.PageEnd | src/memory.c:34 | The first page index whose start is at or past `end`. |
| Memory.PageEndAgrees | src/memory.c:34 | The as-written and corrected page ends agree whenever `end + 4095` stays within 32 bits. |
| Memory.Cyc | src/memory.c:144 | The page m steps after `last` in the wrap-around scan is a valid page. |
| Memory.CycReaches | src/memory.c:143-144 | Every page is reached within `total_pages` steps of the scan from `last`. |
| Memory.PageFrames.constructor | src/memory.c:89-95 | Every bit covering a page is set and no page is free. |
| Memory.PageFrames.BitmapSet | src/memory.c:20-22 | The bitmap becomes `SetBit` of the old one. |
| Memory.PageFrames.BitmapClear | src/memory.c:24-26 | The bitmap becomes `ClearBit` of the old one. |
| Memory.PageFrames.BitmapTest | src/memory.c:28-30 | Reports whether the page's bit is set, changing nothing. |
| Memory.PageFrames.ReservePage | src/memory.c:36-41 | Page i becomes used, every other page is unchanged, and the free counter stays the number of free pages. |
| Memory.PageFrames.ReserveRange | src/memory.c:32-43 | Exactly the pages from `start / 4096` up to the page end that are below the page count become used; the others keep their state and the counter stays exact. |
| Memory.PageFrames.FreePage | src/memory.c:49-52 | Page i becomes free, every other page is unchanged, and the free counter stays the number of free pages. |
| Memory.PageFrames.FreeRange | src/memory.c:45-54 | Exactly the pages from `start / 4096` up to the page end that are below the page count become free; the others keep their state and the counter stays exact. |
| Memory.PageFrames.PhysAllocPage | src/memory.c:141-155 | A page is found exactly when one is free; it is the first free page in the cyclic order from `last`, it becomes used, and its aligned address is returned; otherwise 0 is returned and nothing changes. |
| Memory.PageFrames.PhysFreePage | src/memory.c:157-169 | An unaligned or out-of-range address changes nothing; otherwise the page becomes free and the counter rises only if it was used. |
| Memory.PageFrames.GetStats | src/memory.c:171-179 | Used plus free pages is the page count, free pages is the number of clear bits, and the size is 4 KiB per page. |
| Memory.KmallocAsWrittenReturnsBlockTwice | src/memory.c:125-139 | As written, a request for 0xFFFFFFFF bytes succeeds, moves `heap_curr` back by one and lets the next request get the same block again. |
| Memory.KmallocJustBelowAligned | src/memory.c:132 | From one byte below an aligned `heap_curr`, a request that fits is placed at that aligned address. |
| Memory.KmallocAsWrittenFits | src/memory.c:125-139 | A non-empty request whose aligned block ends within the limit is placed at the aligned address. |
| Memory.KmallocHugeWraps | src/memory.c:133-137 | At an aligned `heap_curr`, the 0xFFFFFFFF-byte request wraps `curr + size` to `heap_curr - 1`. |
| Memory.DisjointBlocksShareNothing | src/memory.c:125-139 | Two different blocks of a disjoint allocation history share no byte. |
| Memory.DisjointAppend | src/memory.c:137 | A block that starts at or above `heap_curr` extends a disjoint history. |
| Memory.Heap.constructor | src/memory.c:115-120 | The heap starts empty at `heap_curr` with the given limit. |
| Memory.Heap.Kmalloc | src/memory.c:125-139 | Size 0 gives 0 and align 0 means 4; a block is handed out exactly when the rounding does not wrap and its end is within the limit; it is the aligned address, honours a power-of-two alignment, is disjoint from every earlier block, and `heap_curr` only grows; on failure nothing changes. |
| Fat.Le16At | src/fat.c:7-22 | A 16-bit little-endian field is below 2^16. |
| Fat.ParseBpb | src/fat.c:7-32 | The 16-bit boot-sector fields of the parsed BPB fit their width. |
| Fat.RootDirSectorsHoldEntries | src/fat.c:89 | The rounded-up root directory sector count holds every 32-byte entry, with less than one sector to spare. |
| Fat.DetectFatType | src/fat.c:88-99 | The type is always 12, 16 or 32. |
| Fat.DetectFatTypeClassifies | src/fat.c:88-99 | When the metadata fits in the volume, the type is FAT12 below 4085 whole data clusters, FAT16 below 65525 and FAT32 from there on, in both directions. |
| Fat.TotalSectors | src/fat.c:73-78 | `get_total_sectors`: the 16-bit count unless it is 0, then the 32-bit one. It has no contract of its own; it feeds the type detection that `Fat.MountAccepts` states. |
| Fat.SectorsPerFat | src/fat.c:80-86 | `get_sectors_per_fat`: the 16-bit size unless it is 0, then the FAT32 one. It has no contract of its own; `Fat.ListingReadsTheDirectory` uses it to place the root directory after the FATs. |
| Fat.MountAccepts | src/fat.c:123-165 | A volume mounts exactly when its boot sector reads, both divisor fields are non-zero and the type is FAT16 or FAT32; a mounted volume keeps those facts and its partition start. |
| Fat.MountLayout | src/fat.c:146-162 | Without wrap-around the FATs follow the reserved sectors from the partition start, the root directory follows the FATs and the data region follows the root directory; only FAT32 has a root cluster. |
| Fat.FatFs.constructor | include/fat.h:5-18 | A zeroed `struct fat_fs`. |
| Fat.FatMount | src/fat.c:123-165 | Returns 1 exactly when the volume mounts, and then the fields are the mounted parameters; on 0 the structure is unchanged, and a null pointer gives 0. |
| Fat.StoreMount | src/fat.c:146-162 | After the stores the fields are the mounted parameters of the boot sector. |
| Fat.NextCluster | src/fat.c:108-121 | The failure sentinel is returned exactly when the FAT sector does not read; a FAT16 entry is below 2^16 and a FAT32 entry keeps only 28 bits. |
| Fat.FatEntryOffset | src/fat.c:101-106 | `fat_entry_offset`: two bytes an entry on FAT16 and four otherwise, in 32 bits. It has no contract of its own; `Fat.NextCluster` and `Fat.NextClusterReadsItsEntry` state the sector and offset it selects. |
| Fat.NextClusterReadsItsEntry | src/fat.c:101-111 | A cluster's entry lies at the sector and offset that split its byte offset, two bytes an entry on FAT16 and four otherwise. |
| Fat.UntilSpaceAt | src/fat.c:55-60 | The bytes before the first space are exactly the prefix that ends at the first space or at the end. |
| Fat.Chars | src/fat.c:59 | Each character has the code of its byte. |
| Fat.ShortName | src/fat.c:53-71 | The name made of an 11-byte 8.3 name has at most 12 characters. |
| Fat.ShortNameOfPadded | src/fat.c:53-71 | A base and extension without spaces, blank-padded to 8 and 3 bytes, read back as the base, then '.' and the extension when there is one. |
| Fat.CopyUntilSpace | src/fat.c:55-68 | Copies the bytes of the range before its first space into the buffer and returns how many, keeping what came before. |
| Fat.NameToStr | src/fat.c:53-71 | The buffer holds the short name followed by a NUL. |
| Fat.Then | src/fat.c:188 | Listing `acc` before a walk keeps the walk's status and puts `acc` first. |
| Fat.SectorWalk | src/fat.c:179-189 | A walk of one sector either reaches its end or meets the end marker; it never fails. |
| Fat.SectorWalkListsLiveEntries | src/fat.c:179-189 | Every entry listed is a live entry on the 32-byte grid of the sector: not the end marker, not deleted, not a long-name entry. |
| Fat.ShiftGrid | src/fat.c:179 | Entries listed from the next slot of the grid are listed from this one. |
| Fat.ListHead | src/fat.c:187-188 | A live entry at the current slot, listed before entries listed from it, keeps the listing on the grid. |
| Fat.HeadListed | src/fat.c:187-188 | A live entry at the current slot is listed from it. |
| Fat.RootWalk | src/fat.c:175-191 | The fixed root directory listing never runs out of fuel. |
| Fat.ClusterWalk | src/fat.c:198-213 | A cluster listing never runs out of fuel. |
| Fat.ChainWalkFuel | src/fat.c:196-218 | A chain that ends within the fuel lists the same with any larger fuel: the bound only cuts chains longer than it. |
| Fat.ThenThen | src/fat.c:188 | Listing `acc` then `more` before a walk is listing `acc + more` before it. |
| Fat.SectorWalkStep | src/fat.c:181-189 | A live entry is listed and the walk goes on at the next slot; a skipped entry is not listed. |
| Fat.EntryNameStr | src/fat.c:187 | The name the callback sees is the short name of the entry up to its NUL. |
| Fat.ListSector | src/fat.c:179-189 | Lists one sector as `SectorWalk` from offset 0 says. |
| Fat.RootWalkStep | src/fat.c:175-190 | After a sector that reads, the root walk is that sector's walk followed by the rest unless the sector met its end marker. |
| Fat.ListFixedRoot | src/fat.c:174-192 | Lists the FAT16 root directory as `RootWalk` from sector 0 says. |
| Fat.ClusterWalkStep | src/fat.c:198-213 | After a sector that reads, the cluster walk is that sector's walk followed by the rest of the cluster unless it met its end marker. |
| Fat.ListCluster | src/fat.c:197-213 | Lists one cluster as `ClusterWalk` from sector 0 says. |
| Fat.ChainWalkStep | src/fat.c:196-218 | After a cluster that lists to its end and whose FAT entry reads, the chain walk continues from the next cluster with one less fuel. |
| Fat.ChainStart | src/fat.c:194 | Before the first cluster the whole chain walk is still to be listed. |
| Fat.ChainAdvance | src/fat.c:214-218 | Moving on to the next cluster keeps the listing so far plus the walk still to come equal to the whole chain walk. |
| Fat.ChainPastEnd | src/fat.c:196 | At a cluster number past the last cluster the listing so far is the whole walk, ended normally. |
| Fat.ChainOutOfFuel | src/fat.c:196-218 | With no fuel left the walk stops, out of fuel, with the listing so far. |
| Fat.ChainListingEnds | src/fat.c:199-206 | A cluster listing that meets the end marker or fails ends the chain walk with it. |
| Fat.ChainReadFails | src/fat.c:214-217 | A FAT entry that does not read fails the walk after the cluster's listing. |
| Fat.ListChain | src/fat.c:194-220 | Lists the FAT32 root directory as `ChainWalk` from the root cluster says. |
| Fat.ListRoot | src/fat.c:167-221 | A null structure or callback gives 0 and lists nothing; otherwise the entries handed to the callback, in order, and the result are those of the root directory walk. |
| Fat.AsWrittenReadsPastTheDirectory | src/fat.c:176 | The sectors the source reads are the directory's plus the partition start again, so they differ on every partition that does not start at sector 0. |
| Fat.AsWrittenExample | src/fat.c:176 | On a FAT16 partition at sector 2048 the root directory is at sector 2113 but the source reads sector 4161. |
| Fat.ListingReadsTheDirectory | src/fat.c:154-156 | On a mounted FAT16 volume, root directory sector `i` is `i` sectors past the reserved sectors and the FATs, counted from the partition start. |
| Fat.ListingReadsTheCluster | src/fat.c:154-156 | On a mounted volume, sector `s` of a cluster lies past the metadata, counted from the partition start, one cluster's sectors per cluster from cluster 2 on. |
| Fat.ClusterSectorNoWrap | src/fat.c:197 | A cluster sector number below 2^32 is computed without wrap-around. |
| Mb2.StepRoundsUp | src/mb2.c:68-72 | The tag advance is a multiple of 8; it is 0 exactly for size 0 and for sizes whose rounding wraps, and otherwise the size rounded up to the next multiple of 8. |
| Mb2.ChainShape | src/mb2.c:51-73 | Every tag the walk reads has its header inside `total_size`, lies on the 8-byte grid of the first tag and lies past the one before, so no tag is read twice. |
| Mb2.ConsShape | src/mb2.c:54-72 | A header before the end followed by a walk from a positive multiple of 8 further on keeps the walk on the grid and ascending. |
| Mb2.ScanFindsFirstMatch | src/mb2.c:54-73 | The walk returns the first tag of the walked chain that has the wanted type and size, and nothing when no tag of the chain does. |
| Mb2.ScanMatches | src/mb2.c:54-67 | A tag the walk finds has the wanted type and size and its header lies inside the structure. |
| Mb2.FindTag | src/mb2.c:45-75 | No tag when `total_size` is below 8; otherwise the tag the walk from offset 8 finds. |
| Mb2.FindFramebuffer | src/mb2.c:35-76 | A null out pointer gives 0; otherwise 1 exactly when a framebuffer tag of at least 32 bytes is found, and then its fields, and 0 with all fields zero when none is. |
| Mb2.FindBasicMeminfo | src/mb2.c:78-113 | A null out pointer gives 0; otherwise 1 exactly when a basic memory information tag is found, and then its two sizes, and 0 with both zero when none is. |
| Mb2.EntryCount | src/mb2.c:142-145 | The number of memory map entries `mb2_get_mmap` reports, 0 for an entry size of 0. It has no contract of its own; `Mb2.EntryCountFits` proves the counted entries fit and one more would not. |
| Mb2.EntryCountFits | src/mb2.c:142-145 | The counted memory map entries fit after the 16-byte header and one more would not. |
| Mb2.GetMmap | src/mb2.c:115-159 | A null out pointer gives 0; otherwise 1 exactly when a memory map tag is found, and then where its entries start, their size and their count; none, 0 and 0 when there is none. |
| Mb2.FieldsReadPastEnd | src/mb2.c:54-66 | A framebuffer tag whose header is the last 8 bytes of the structure is found, though its fields lie past `total_size`. |
| Kernel.TrimRight | src/kernel.c:71-74 | Trimming never lengthens a string. |
| Kernel.TrimRightSpec | src/kernel.c:71-74 | The trimmed string is a prefix that does not end in a space, and only spaces are cut off after it. |
| Kernel.TrimRightUnique | src/kernel.c:71-74 | A string not ending in a space, followed by any number of spaces, trims to that string: so `TrimRightSpec` determines the result. |
| Kernel.TrimRightIdempotent | src/kernel.c:63-75 | Trimming twice is trimming once. |
| Kernel.Nuls | src/kernel.c:72 | `n` NUL characters. |
| Kernel.TrimmedString | src/kernel.c:63-75 | After `str_trim_right` the buffer keeps its length and holds the trimmed C string. |
| Kernel.TrimStep | src/kernel.c:71-73 | Dropping one trailing space keeps the trimmed string. |
| Kernel.TrimDone | src/kernel.c:71 | Once the last kept character is not a space, what is left is the trimmed string. |
| Kernel.StrTrimRight | src/kernel.c:63-75 | A null pointer changes nothing; otherwise the buffer becomes its trimmed form: the trailing spaces of its C string become NULs and nothing else changes. |
| Kernel.WordChars | src/kernel.c:94-97 | A register stored to memory gives four characters. |
| Kernel.WordsChars | src/kernel.c:94-97 | Registers stored one after another give four characters each. |
| Kernel.CpuName | src/kernel.c:77-120 | The name `fill_cpu_string` chooses: the trimmed brand string when leaf 0x80000004 exists, otherwise the vendor id. It has no contract of its own; `Kernel.CpuNameShape` and `Kernel.GenuineIntel` state its shape and an instance. |
| Kernel.CpuNameShape | src/kernel.c:92-113 | The name holds no NUL; a brand name is a prefix of the brand bytes not ending in a space, and a vendor name has at most 12 characters. |
| Kernel.GenuineIntel | src/kernel.c:108-113 | The vendor registers EBX, EDX, ECX of an Intel processor give the name "GenuineIntel". |
| Kernel.ThreeWords | src/kernel.c:109-111 | Three registers stored in a row give their characters in that order. |
| Kernel.WordChars4 | src/kernel.c:94 | A word assembled from four bytes is stored low byte first. |
| Kernel.FillCpuString | src/kernel.c:77-114 | A null buffer or `max_len` 0 changes nothing; otherwise the buffer holds the CPU name as `str_copy` leaves it. |
| Kernel.BrandBuffer | src/kernel.c:98-103 | The 49-byte buffer holds the brand string without its trailing spaces. |
| Kernel.VendorBuffer | src/kernel.c:108-112 | The 13-byte buffer holds EBX, EDX and ECX as characters, up to the first NUL. |
| Kernel.Tasks.constructor | src/kernel.c:124 | The static counters start at zero. |
| Kernel.Tasks.UsbTask | src/kernel.c:122-129 | The counter advances with 32-bit wrap-around and `usb_poll` runs exactly when the new count is a multiple of 8. |
| Kernel.Tasks.UiTask | src/kernel.c:131-140 | `ui_update` runs every call; the counter advances with wrap-around and rendering runs exactly when the new count is even. |
| Kernel.CounterAfterIsWrapped | src/kernel.c:124-125 | The counter after k calls is k modulo 2^32. |
| Kernel.WrapSucc | src/kernel.c:125 | Wrapping commutes with one increment. |
| Kernel.UsbPollsEveryEighth | src/kernel.c:122-129 | The k-th call polls USB exactly when k is a multiple of 8, across wrap-around. |
| Kernel.UiRendersEverySecond | src/kernel.c:131-140 | The k-th call renders exactly when k is even, across wrap-around. |
| Kernel.WrapKeepsLowBits | src/kernel.c:126 | Wrapping at 2^32 keeps the three low bits. |
| Log.Attempt | src/log.c:20-27 | The poll loop makes at most its budget of reads, and at least one when it sends. |
| Log.AttemptStopsAtFirstReady | src/log.c:20-27 | The loop stops at the first ready status and sends exactly when there is one within the budget; otherwise it spends the whole budget. |
| Log.AttemptFindsFirstReady | src/log.c:21-24 | After i busy reads, a ready one ends the loop after i + 1 reads, sending. |
| Log.AttemptFindsNone | src/log.c:21-26 | With every read busy the loop spends its budget and sends nothing. |
| Log.AttemptSendsIffReady | src/log.c:20-27 | A character is sent exactly when a ready status turns up within the poll limit. |
| Log.PutcOutcome | src/log.c:20-27 | One `log_putc` sends at most one character and makes at most the poll limit of reads. |
| Log.Emit | src/log.c:29-45 | Printing sends at most the characters given, in order. |
| Log.EmitStep | src/log.c:33-35 | Printing one more character is printing the rest and then one `log_putc` from where that left the reads. |
| Log.EmitAlwaysReady | src/log.c:20-27 | A transmitter that is always ready gets every character, one read each. |
| Log.EmitNeverReady | src/log.c:20-27 | A transmitter that is never ready gets nothing, and each character costs the full poll limit. |
| Log.Serial.constructor | src/log.c:4 | A port with the given status register, nothing read or sent yet and the poll limit 100000. |
| Log.Serial.LogReady | src/log.c:6-8 | One status read, reporting whether bit 5 is set. |
| Log.Serial.Putc | src/log.c:20-27 | Sends and reads exactly what `PutcOutcome` says. |
| Log.Serial.PutcNext | src/log.c:20-27 | One more `log_putc` extends what has been printed by that character. |
| Log.Serial.Write | src/log.c:29-36 | A null pointer sends nothing; otherwise exactly the first `len` characters are printed. |
| Log.Serial.Puts | src/log.c:38-45 | A null pointer sends nothing; otherwise exactly the C string's characters are printed. |
| Log.Serial.Hex32 | src/log.c:47-54 | Prints "0x" and the eight hexadecimal digits of the value, most significant first. |
| Log.Serial.Dec32 | src/log.c:56-70 | Prints the decimal digits of the value, most significant first, and "0" for zero. |
| Framebuffer.IntOfU32 | src/framebuffer.c:27-30 | `(int)` of a `uint32_t` lies in the signed 32-bit range. |
| Framebuffer.Rgb | src/framebuffer.c:4-6 | `rgb`: the packed 0x00RRGGBB colour. It has no contract of its own; `Framebuffer.RgbRed`, `RgbGreen`, `RgbBlue` and `RgbTopByteClear` prove each channel reads back and the top byte is clear. |
| Framebuffer.PointInRect | src/framebuffer.c:74-76 | `point_in_rect`: membership in the half-open rectangle. It has no contract of its own; the hit tests of `Ui` and `AppSettings` are stated with it. |
| Framebuffer.RgbRed | src/framebuffer.c:4-6 | The red channel reads back from bits 16-23. |
| Framebuffer.RgbGreen | src/framebuffer.c:4-6 | The green channel reads back from bits 8-15. |
| Framebuffer.RgbBlue | src/framebuffer.c:4-6 | The blue channel reads back from bits 0-7. |
| Framebuffer.RgbTopByteClear | src/framebuffer.c:4-6 | The top byte of a colour is clear. |
| Framebuffer.Channel | src/framebuffer.c:44-46 | A channel of a colour is below 256. |
| Framebuffer.GradientHeightOneDividesByZero | src/framebuffer.c:44-46 | On a one-row surface the divisor `height - 1` is zero. |
| Framebuffer.GradientFallingChannelWraps | src/framebuffer.c:44-46 | As written, a channel falling from 255 to 0 over three rows gets a middle-row value far outside a byte. |
| Framebuffer.GradientChannel | src/framebuffer.c:42-53 | The intended channel lies between the top and bottom values, is the top value on row 0 and the bottom value on the last row. |
| Framebuffer.Scaled | src/framebuffer.c:44 | `d * y / m` for `y <= m` is at most `d`, 0 on row 0 and `d` on row `m`. |
| Framebuffer.GradientAgrees | src/framebuffer.c:44-46 | The code as written computes the intended value whenever the channel does not fall and there are at least two rows. |
| Framebuffer.Surface.constructor | include/framebuffer.h:5-11 | A surface of the given geometry with its own pixel memory. |
| Framebuffer.Surface.PutPixel | src/framebuffer.c:8-14 | A pixel on the surface gets the colour; every other pixel is unchanged, and an off-surface point changes nothing. |
| Framebuffer.Surface.FillRect | src/framebuffer.c:16-40 | Exactly the pixels of the rectangle clipped to the surface get the colour, nothing for an empty rectangle, and every other pixel is unchanged. |
| Framebuffer.Surface.FillRow | src/framebuffer.c:35-38 | Exactly the clipped pixels of one row get the colour. |
| Framebuffer.Surface.DrawVerticalGradient | src/framebuffer.c:42-53 | Every pixel of row y gets the intended gradient colour of row y. |
| Framebuffer.Surface.FillLine | src/framebuffer.c:48-51 | Exactly row y gets the colour. |
| Ui.Snap | include/ui.h:18-40 | The state as a value, with one open flag and one window rectangle per application. |
| Ui.CNot | src/ui.c:97 | C's `!x` is 1 exactly when x is 0, and 0 otherwise. |
| Ui.CRem | src/ui.c:104-106 | C's `%` by a positive divisor has the sign of the dividend and is smaller than the divisor. |
| Ui.CDiv | src/ui.c:67-68 | C's `/` by a positive divisor truncates toward zero. |
| Ui.MenuItemsDisjoint | src/ui.c:26-29 | Menu items are 42 apart and 28 high, so no point is on two of them. |
| Ui.StartButtonApartFromItems | src/ui.c:117-119 | A point on a menu item lies above the taskbar and is not on the start button. |
| Ui.CloseBoxInTitleBar | src/MagicUI.c:74-82 | The close box of a window at least 24 wide lies inside its title bar, so the order of the press handlers decides between closing and dragging. |
| Ui.MenuItemAt | src/ui.c:129-136 | The result is -1 or an application id. |
| Ui.MenuItemAtFinds | src/ui.c:129-136 | The menu loop finds an item under the point, and -1 exactly when there is none. |
| Ui.IconAt | src/ui.c:140-151 | The result is -1 or an application id. |
| Ui.IconAtFinds | src/ui.c:140-151 | The icon loop finds an application with an icon under the point, and -1 exactly when there is none. |
| Ui.WindowAt | src/ui.c:155-166 | The result is -1 or an id below the bound. |
| Ui.WindowAtFinds | src/ui.c:155-195 | The window loops find the open window of highest id whose part is under the point: every window above it is closed or missed. |
| Ui.MenuAction | src/ui.c:9-14 | The menu action keeps one flag and one rectangle per application. |
| Ui.KeyStage | src/ui.c:96-110 | The keyboard reaction keeps one flag and one rectangle per application. |
| Ui.PressStage | src/ui.c:121-197 | The press reaction keeps one flag and one rectangle per application. |
| Ui.MenuStage | src/ui.c:128-137 | The menu stage keeps one flag and one rectangle per application. |
| Ui.IconStage | src/ui.c:139-152 | The icon stage keeps one flag and one rectangle per application. |
| Ui.CloseStage | src/ui.c:154-167 | The close stage keeps one flag and one rectangle per application. |
| Ui.ClickStage | src/ui.c:169-180 | The click stage keeps one flag and one rectangle per application. |
| Ui.GrabStage | src/ui.c:182-196 | The grab stage keeps one flag and one rectangle per application. |
| Ui.Between | src/ui.c:37-54 | The value limited to [0, hi] lies in that range. |
| Ui.DragStage | src/ui.c:199-206 | The drag stage keeps one flag and one rectangle per application. |
| Ui.Update | src/ui.c:96-210 | A whole `ui_update` reaction keeps one flag and one rectangle per application. |
| Ui.ButtonStage | src/ui.c:112-210 | The button reaction keeps one flag and one rectangle per application. |
| Ui.MenuMovesCycle | src/ui.c:103-107 | UP and DOWN keep the selection an application, wrap round at both ends and undo each other. |
| Ui.KeyStageConsistent | src/ui.c:96-110 | The keyboard reaction keeps flags 0 or 1, the selection an application and the drag id -1 or an application. |
| Ui.PressStageConsistent | src/ui.c:121-197 | A press keeps the same invariant. |
| Ui.UpdateConsistent | src/ui.c:91-211 | `ui_update` keeps the invariant `ui_init` sets up. |
| Ui.Clamped | src/ui.c:31-55 | `clamp_rect` on a screen of the given size. It has no contract of its own; `Ui.ClampedOnScreen` and `Ui.ClampedIsNearest` prove the corner ends on screen and is the nearest such corner. |
| Ui.ClampedOnScreen | src/ui.c:31-55 | After clamping the corner is on screen as far as the window fits, above the taskbar, the size is kept, and a corner already in range does not move. |
| Ui.ClampedIsNearest | src/ui.c:31-55 | The clamped corner is the allowed corner nearest the original on each axis, and clamping twice is clamping once. |
| Ui.ReleaseEndsDrag | src/ui.c:112-210 | A release ends every drag and moves no window. |
| Ui.GrabKeepsWindow | src/ui.c:189-205 | Grabbing a title bar starts a drag of that window, and the drag in the same call leaves its corner where it was, clamped. |
| Ui.InitialConsistent | src/ui.c:57-77 | The state `ui_init` leaves satisfies the invariant. |
| Ui.UiInit | src/ui.c:57-89 | The state becomes the fixed initial state and the system information is copied, or filled with empty strings, no RAM and the framebuffer's geometry for a null pointer. |
| Ui.InitInfo | src/ui.c:78-88 | The system information is copied, or filled in from the framebuffer for a null pointer. |
| Ui.InitMenu | src/ui.c:58-64 | The menu is open on item 0 and every window is closed. |
| Ui.InitPointer | src/ui.c:65-72 | No buttons, the pointer at the centre with C division, theme 2, no drag. |
| Ui.InitWindows | src/ui.c:73-77 | The five window rectangles of `ui_init`. |
| Ui.HandleMenuAction | src/ui.c:9-14 | The state becomes `MenuAction` of the old one: the menu closes and a known index opens its application. |
| Ui.DragRect | src/ui.c:16-24 | A field exactly when the drag id is an application, and then the field of that application's rectangle. |
| Ui.ClampRect | src/ui.c:31-55 | A null framebuffer leaves the rectangle alone; otherwise it becomes the clamped rectangle. |
| Ui.KeyStep | src/ui.c:96-110 | The state becomes the keyboard reaction of the old one. |
| Ui.FindMenuItem | src/ui.c:129-136 | Returns the first item under the point, or -1. |
| Ui.FindIcon | src/ui.c:140-151 | Returns the first application with an icon under the point, or -1. |
| Ui.FindWindow | src/ui.c:155-195 | Returns the open window of highest id whose part is under the point, or -1. |
| Ui.AppClicks | src/ui.c:169-180 | The click is taken exactly when the settings window is open and a swatch is under the pointer, and then that swatch becomes the theme. |
| Ui.PressStep | src/ui.c:121-197 | The state becomes the press reaction of the old one. |
| Ui.MenuStep | src/ui.c:128-137 | The state becomes the menu stage of the old one. |
| Ui.IconStep | src/ui.c:139-152 | The state becomes the icon stage of the old one. |
| Ui.CloseStep | src/ui.c:154-167 | The state becomes the close stage of the old one. |
| Ui.ClickStep | src/ui.c:169-180 | The state becomes the click stage of the old one. |
| Ui.GrabStep | src/ui.c:182-196 | The state becomes the grab stage of the old one. |
| Ui.DragStep | src/ui.c:199-206 | The state becomes the drag stage of the old one. |
| Ui.React | src/ui.c:96-210 | The state becomes `Update` of the old one and the polled key. |
| Ui.ButtonStep | src/ui.c:112-210 | The state becomes the button reaction of the old one. |
| Ui.UiUpdate | src/ui.c:91-211 | The key is the head of the key queue when it is not empty, the pointer is one `poll_mouse` step, and the state becomes `Update` of the polled state; the system information is untouched. |
| Ui.Poll | src/ui.c:92-94 | The key comes from the queue when it is not empty; only the pointer fields of the state change, by one `poll_mouse` step. |
| UiApps.MenuLabelsDistinct | src/ui_apps.c:5-11 | Each application has its own menu label, different from the label of an unknown id. |
| UiApps.DesktopIcons | src/ui_apps.c:13-67 | Exactly the USB manager and the test application have icons; an icon has an area and is labelled like its menu entry; every other id gets an empty box and label, and an unknown id is labelled "Unknown". |
| UiApps.DesktopIconsDisjoint | src/ui_apps.c:21-27 | The two icons do not overlap, so at most one is under a point. |
| UiApps.Flags | include/ui.h:21-25 | One open flag per application. |
| UiApps.Rects | include/ui.h:34-38 | One window rectangle per application. |
| UiApps.MenuLabel | src/ui_apps.c:41-46 | `ui_app_menu_label`: the table entry of a known id, "Unknown" otherwise. It has no contract of its own; `UiApps.MenuLabelsDistinct` and `UiApps.DesktopIcons` state its values. |
| UiApps.HasDesktopIcon | src/ui_apps.c:48-53 | `ui_app_has_desktop_icon`: 1 for the ids with an icon, 0 otherwise. It has no contract of its own; `UiApps.DesktopIcons` proves exactly the USB and Test applications have one. |
| UiApps.DesktopIconRect | src/ui_apps.c:55-60 | `ui_app_desktop_icon_rect`: the icon table entry, the zero rectangle for an unknown id. It has no contract of its own; `UiApps.DesktopIcons` states its values. |
| UiApps.DesktopIconLabel | src/ui_apps.c:62-67 | `ui_app_desktop_icon_label`: the icon label, empty for an unknown id. It has no contract of its own; `UiApps.DesktopIcons` proves an icon's label is its menu label. |
| UiApps.IsOpen | src/ui_apps.c:69-87 | `ui_app_is_open`: the open flag of a known id in a non-null state, 0 otherwise. It has no contract of its own; `UiApps.ReadsById` states it for every id. |
| UiApps.AppRect | src/ui_apps.c:135-153 | `ui_app_rect`: the rectangle of a known id in a non-null state, the zero rectangle otherwise. It has no contract of its own; `UiApps.ReadsById` states it for every id. |
| UiApps.RectMut | src/ui_apps.c:115-133 | `ui_app_rect_mut`: the field of a known id, none for a null state or an unknown id. It has no contract of its own; `UiApps.RectMutAgreesWithRect` proves it names the field `ui_app_rect` reads. |
| UiApps.ReadsById | src/ui_apps.c:69-153 | For a known id both readers return that application's flag and rectangle; a null state or an unknown id reads as closed and empty. |
| UiApps.SetOpen | src/ui_apps.c:89-113 | The application's flag becomes 1 or 0 as `open` is non-zero or zero and no other flag changes; a null state or an unknown id changes nothing. |
| UiApps.FieldId | src/ui_apps.c:115-133 | Each rectangle field belongs to a known application. |
| UiApps.RectMutAgreesWithRect | src/ui_apps.c:115-153 | The pointer is null exactly for a null state or an unknown id; otherwise it points at the field of that id, which holds what `ui_app_rect` returns. |
| UiApps.Store | src/ui_apps.c:115-133 | A store through the pointer changes that application's rectangle and no other. |
| UiApps.SwatchAt | src/app_settings.c:101-109 | The result is -1 or a swatch index. |
| UiApps.SwatchAtFinds | src/app_settings.c:101-109 | The swatch search returns a swatch holding the point, and -1 exactly when none does. |
| UiApps.HandleClick | src/ui_apps.c:155-162 | Any id but the settings window leaves the theme alone and returns 0; for the settings window 1 is returned exactly when a swatch is under the pointer, and that swatch becomes the theme. |
| Usb.EncodeSetup | src/usb.c:24 | A setup packet is 8 bytes on the wire. |
| Usb.DecodeSetup | src/usb.c:24 | Eight bytes and only eight decode to a setup packet. |
| Usb.WordOfBytes | src/usb.c:136 | Splitting a 16-bit value into bytes and joining them gives it back. |
| Usb.BytesOfWord | src/usb.c:136 | Joining two bytes and splitting them gives them back. |
| Usb.DecodeEncode | src/usb.c:24 | Decoding an encoded setup packet gives the packet back. |
| Usb.EncodeDecode | src/usb.c:24 | Encoding a decoded 8-byte packet gives the bytes back. |
| Usb.GetDeviceDescriptor | src/usb.c:23-26 | The GET_DESCRIPTOR(DEVICE) request of `usb_get_device_descriptor`. It has no contract of its own; `Usb.GetDeviceDescriptorFields` decodes its setup packet. |
| Usb.SetAddress | src/usb.c:28-31 | The SET_ADDRESS request of `usb_set_address`, sent to address 0. It has no contract of its own; `Usb.SetAddressFields` decodes its setup packet. |
| Usb.GetConfigDescriptor | src/usb.c:33-36 | The GET_DESCRIPTOR(CONFIGURATION) request. It has no contract of its own; `Usb.GetConfigDescriptorFields` decodes its setup packet. |
| Usb.SetConfiguration | src/usb.c:38-41 | The SET_CONFIGURATION request. It has no contract of its own; `Usb.SetConfigurationFields` decodes its setup packet. |
| Usb.SetProtocol | src/usb.c:43-46 | The HID SET_PROTOCOL request to an interface. It has no contract of its own; `Usb.SetProtocolFields` decodes its setup packet. |
| Usb.GetReport | src/usb.c:48-51 | The HID GET_REPORT(Input) request to an interface. It has no contract of its own; `Usb.GetReportFields` decodes its setup packet. |
| Usb.GetDeviceDescriptorFields | src/usb.c:23-26 | GET_DESCRIPTOR(DEVICE) carries the standard fields with wLength the low byte of the length; the request agrees with its own setup exactly when the length fits a byte. |
| Usb.GetConfigDescriptorFields | src/usb.c:33-36 | GET_DESCRIPTOR(CONFIGURATION) likewise. |
| Usb.SetAddressFields | src/usb.c:28-31 | SET_ADDRESS goes to address 0, carries the new address in wValue and has no data stage. |
| Usb.SetConfigurationFields | src/usb.c:38-41 | SET_CONFIGURATION carries the configuration value in wValue and has no data stage. |
| Usb.SetProtocolFields | src/usb.c:43-46 | Set_Protocol is a class request to the interface with the protocol in wValue and the interface in wIndex. |
| Usb.GetReportFields | src/usb.c:48-51 | Get_Report asks for the Input report of the interface with wLength the transfer length. |
| Usb.RequestsAppend | src/usb.c:95-185 | The requests of a trace that grows by exchanges are the old requests followed by the new ones, so every request sent stays in order at the front of the trace. |
| Usb.Pipe.constructor | src/usb.c:113 | A pipe with nothing exchanged yet. |
| Usb.Pipe.Transfer | src/usb.c:25 | One control transfer: the exchange is appended to the trace with the bytes now in the buffer, and bytes of the buffer past the length are untouched. |
| Usb.LastBootInterface | src/usb.c:158-168 | A boot interface found is one of the offsets visited and is a HID boot interface. |
| Usb.ParseTakesLastInterface | src/usb.c:151-176 | The interface number and protocol come from the last HID boot interface visited, and stay as they were when there is none. |
| Usb.ExpectedStep | src/usb.c:152-175 | One step of the expected-interface definition is one step of the parse. |
| Usb.ParseBounds | src/usb.c:151-176 | The parse keeps the address and the agreement of the keyboard and mouse flags with the protocol, and leaves the report length as it was or in 1..64. |
| Usb.ParseUsesOnlyReceived | src/usb.c:151-176 | The corrected parse depends only on the bytes the device sent. |
| Usb.AbsorbUsesOnlyReceived | src/usb.c:153-174 | One corrected descriptor step depends only on the bytes the device sent. |
| Usb.ParseReadsPastBuffer | src/usb.c:152-173 | As written, a 64-byte configuration whose second descriptor is 52 bytes long puts a HID descriptor at offset 61 whose report length is read from bytes 68 and 69, outside the array: two memories that agree on the array give different report lengths. |
| Usb.ParseIgnoresTruncatedDescriptor | src/usb.c:152-173 | With the corrected bound that configuration leaves the report length alone. |
| Usb.WithDefaultReportLen | src/usb.c:178-180 | A missing report length becomes 8 for a keyboard and 3 otherwise; a present one is kept. |
| Usb.ConfigLength | src/usb.c:136-139 | The configuration length used is at most 64. |
| Usb.ConfigLengthClamps | src/usb.c:136-139 | A declared total length reads back as itself up to 64 and as 64 beyond. |
| Usb.Received | src/usb.c:131-143 | The first n bytes of a reply, byte by byte. |
| Usb.Steps | src/usb.c:113-149 | Six enumeration requests. |
| Usb.FirstFailure | src/usb.c:113-149 | The first failing step from k on, every step before it having succeeded, or 6 when none failed. |
| Usb.EnumerationStopsAtFirstFailure | src/usb.c:113-149 | Enumeration sends the steps up to and including the first that fails, and Set_Protocol only after all six succeeded. |
| Usb.EnumerationAddress | src/usb.c:120-129 | The address becomes 1 exactly when the first descriptor read and SET_ADDRESS succeeded, and stays 1 whatever fails later; the report length fits the 64-byte buffer. |
| Usb.EnumerationRequests | src/usb.c:115-146 | The first two requests go to address 0 and every later one to address 1, and the configuration read asks for at most 64 bytes. |
| Usb.EnumerationConfigured | src/usb.c:151-185 | Once configured the report length is in 1..64, the device is never both keyboard and mouse, and Set_Protocol(0) is sent exactly to a keyboard or mouse. |
| Usb.StoppedAt | src/usb.c:115-149 | An enumeration whose step k fails after k successes is the host's enumeration, leaving the device addressed when k is 2 or more. |
| Usb.Completed | src/usb.c:151-185 | An enumeration that got through all six steps and then sent Set_Protocol exactly when needed is the host's enumeration. |
| Usb.Extend | src/usb.c:113-149 | A successful step extends the successful run and a failed one ends the enumeration; replies already received fix the later steps. |
| Usb.ConfiguredStable | src/usb.c:151-180 | Replies after the configuration read do not change the parsed device. |
| Usb.Step | src/usb.c:113-149 | One step over the pipe extends the trace by its exchange and either keeps the run successful or ends the enumeration. |
| Usb.ScanAddressable | src/pci.c:55-67 | The bus-0 scan reports device numbers below 32 and function numbers below 8. |
| Usb.Recorded | src/usb.c:57-67 | The controller table has at most eight entries, each a USB function. |
| Usb.RecordedFirstEight | src/usb.c:57-67 | The table holds the first eight USB functions the scan reports, in order. |
| Usb.UsbHost.constructor | src/usb.c:7-21 | No controllers, no EHCI controller up, no device. |
| Usb.UsbHost.ControllerCount | src/usb.c:206-208 | The controller count is at most eight. |
| Usb.UsbHost.DeviceCb | src/usb.c:53-93 | A USB function is appended while the table has room; `ehci_init` is attempted exactly for an EHCI candidate while fewer than eight are up, and only a success is counted, with the controller's base the masked BAR0. Only the next free controller record can change; without an attempt the bus trace and every record are unchanged, and with one the trace grows by exactly the bring-up accesses at the masked BAR0. |
| Usb.UsbHost.TryEhci | src/usb.c:68-81 | The EHCI half of the callback: `ehci_init` is attempted exactly when fewer than eight controllers are up and the function is an EHCI candidate (interface 0x20, a memory BAR0 that is neither 0 nor all ones, and a zero BAR1 behind a 64-bit BAR0). The count, the bus trace and the records change as for `DeviceCb`. |
| Usb.UsbHost.StartEhci | src/usb.c:78-80 | `ehci_init` on the next record; on success the count rises and the record holds a valid capability length and base. Every other record is unchanged. The bus trace is unchanged when the masked BAR0 is 0, and otherwise grows by the bring-up accesses at that base. |
| Usb.UsbHost.Discover | src/usb.c:96-99 | The table becomes the record of the bus-0 scan's callbacks. |
| Usb.UsbHost.RunCallbacks | src/usb.c:99 | The callback over the scan's functions, in order, builds the recorded table. |
| Usb.UsbHost.EnumerateDevice | src/usb.c:102-185 | The exchanges sent are the host's enumeration and the device record its result. |
| Usb.UsbHost.Address | src/usb.c:113-129 | Steps 0-2 either end the enumeration or succeed with the device at address 1. |
| Usb.UsbHost.ReadConfiguration | src/usb.c:131-143 | Steps 3 and 4 either end the enumeration or succeed with the received configuration in the buffer and its clamped length. |
| Usb.UsbHost.Configure | src/usb.c:145-185 | SET_CONFIGURATION, the parse, the default report length and Set_Protocol make the whole trace the host's enumeration. |
| Usb.UsbHost.ParseConfig | src/usb.c:151-176 | The device record becomes the corrected parse of the configuration received. |
| Usb.UsbHost.UsbInit | src/usb.c:95-186 | The table is the record of the bus-0 scan, the HID key memory is cleared, and without an EHCI controller nothing is sent; otherwise the exchanges sent are the enumeration and the device record its result. |
| Usb.UsbHost.UsbPoll | src/usb.c:188-204 | Nothing happens without a controller or address; otherwise one Get_Report of the report length is sent and a successful report updates the keyboard queue for a keyboard, or the pending mouse motion for a mouse, and nothing else. |
| Usb.Bits | src/usb.c:195-202 | The report bytes as the decoders see them, same length. |
| Pci.PciAddress | src/pci.c:7-10 | The address word has the enable bit set and its two low bits clear. |
| Pci.PciAddressFields | src/pci.c:7-10 | The dword offset and function read back from the address word, and the device and bus too when the fields are in range. |
| Pci.PciAddressIsSum | src/pci.c:7-10 | With the fields in range they do not overlap and the word is the sum of the shifted fields. |
| Pci.PciAddressInjective | src/pci.c:7-10 | Two in-range locations share an address word only when they name the same bus, device, function and dword. |
| Pci.ReadConfig32 | src/pci.c:12-15 | `pci_read_config32`: the data word the configuration port returns for the address word of bus, device, function and offset. It has no contract of its own; `Pci.Read32IsFourReads8` relates it to the byte reads. |
| Pci.ReadConfig16 | src/pci.c:17-20 | `pci_read_config16`: the half of the dword that `offset & 2` selects. It has no contract of its own; `Pci.Read16IsTwoReads8` proves it is the little-endian pair of two byte reads. |
| Pci.ReadConfig8 | src/pci.c:22-25 | `pci_read_config8`: byte `offset & 3` of the dword. It has no contract of its own; `Pci.Read8OfAligned` proves each byte of an aligned dword is read back at its offset. |
| Pci.Read16IsTwoReads8 | src/pci.c:17-25 | A 16-bit read at an even offset is the little-endian pair of the 8-bit reads at that offset and the next. |
| Pci.Read8OfAligned | src/pci.c:22-25 | An 8-bit read at `offset + k` of an aligned dword is byte k of the 32-bit read. |
| Pci.Read32IsFourReads8 | src/pci.c:12-25 | The four 8-bit reads of an aligned dword reassemble the 32-bit read. |
| Pci.Record | src/pci.c:64-67 | The callback for a function is on bus 0 with its own device and function numbers. |
| Pci.ScanDevice | src/pci.c:56-68 | The inner loop produces exactly the callbacks `DeviceCalls` describes for the device. |
| Pci.ScanDevices | src/pci.c:55-69 | The outer loop produces exactly the callbacks of the whole bus. |
| Pci.BusCallsStart | src/pci.c:55 | Before the first device the whole bus is still owed. |
| Pci.BusCallsEnd | src/pci.c:55 | After the last device nothing is owed. |
| Pci.BusCallsStep | src/pci.c:55-69 | Scanning one device pays that device's callbacks off what is owed. |
| Pci.ScanBus0 | src/pci.c:50-70 | Without a callback nothing happens; otherwise the callbacks are exactly those of the bus walk. |
| Pci.DeviceCallsSound | src/pci.c:56-68 | Each callback of a device is for a present function, with the class triple read from it. |
| Pci.BusCallsSound | src/pci.c:55-69 | Each callback of the bus walk is for a present function, with the class triple read from it. |
| Pci.ScanSound | src/pci.c:50-70 | Every callback is for a present function of bus 0, with the class triple read from that function. |
| Pci.AbsentDeviceSilent | src/pci.c:58-61 | A device whose function 0 is absent gets no callback for any function. |
| Pci.DeviceCallsComplete | src/pci.c:56-68 | Every present function of a device gets a callback. |
| Pci.BusCallsComplete | src/pci.c:55-69 | Every present function of the remaining devices gets a callback. |
| Pci.ScanComplete | src/pci.c:50-70 | Every present function of bus 0 gets a callback. |
| Pci.ConcatIncreasing | src/pci.c:55-56 | Two increasing runs, all of the first before all of the second, make an increasing run. |
| Pci.DeviceCallsOrdered | src/pci.c:56 | A device's callbacks are for that device, in increasing function order. |
| Pci.BusCallsOrdered | src/pci.c:55-56 | The bus walk's callbacks are in increasing (device, function) order. |
| Pci.ScanOrdered | src/pci.c:50-70 | Callbacks arrive in strictly increasing (device, function) order, so no function is reported twice. |
| Ehci.PortOff | src/ehci.c:56 | PORTSC of port i sits at 0x44 plus four bytes per port, and the port number is recovered from the offset. |
| Ehci.PortCount | src/ehci.c:54 | N_PORTS, the low nibble of HCSPARAMS, is below 16. |
| Ehci.Controller.constructor | include/ehci.h:6-12 | A fresh controller record has every field zero. |
| Ehci.CapLength | src/ehci.c:27 | CAPLENGTH, the low byte of capability register 0, is below 256. |
| Ehci.ResetWrites | src/ehci.c:43-53 | The reset issues six register writes. |
| Ehci.ResetWritesRegisters | src/ehci.c:43-53 | Each reset write goes to USBCMD, USBSTS, FRINDEX or CONFIGFLAG of the operational window; USBSTS gets 0x3F, FRINDEX 0 and CONFIGFLAG 1. |
| Ehci.ResetStopsController | src/ehci.c:42-44 | The first USBCMD write clears Run/Stop and keeps every other bit read. |
| Ehci.ResetAssertsHcReset | src/ehci.c:48 | The second USBCMD write sets HCRESET with Run/Stop clear and keeps the other bits read. |
| Ehci.ResetReleasesHcReset | src/ehci.c:50 | The third USBCMD write clears HCRESET and Run/Stop and keeps the other bits read. |
| Ehci.PortAccessesShape | src/ehci.c:56-65 | A port's accesses touch only its own PORTSC, and an unconnected port is only read. |
| Ehci.EhciInit | src/ehci.c:17-68 | A null record or a zero BAR address fails with no bus access and the record untouched; otherwise the record holds base, CAPLENGTH, HCSPARAMS, HCCPARAMS and op_base = base + CAPLENGTH, success holds exactly when CAPLENGTH is in 0x10..0x40, and the bus sees exactly the bring-up sequence. |
| Ehci.BringUp | src/ehci.c:26-67 | The record is filled from the capability reads, success holds exactly when CAPLENGTH is in range, and the bus sees exactly the bring-up sequence. |
| Ehci.ResetController | src/ehci.c:42-51 | The bus sees the USBCMD read followed by the reset writes for that value. |
| Ehci.ResetPorts | src/ehci.c:54-66 | The bus sees the accesses of ports 0 to N_PORTS-1, in order, for the values the ports return. |
| Ehci.PortsTracePrefix | src/ehci.c:55-66 | The accesses to the first n ports depend only on the first n values read. |
| Ehci.PortsTraceWritesOnlyPorts | src/ehci.c:55-66 | The port loop touches only the PORTSC registers of existing ports. |
| Ehci.ResetWritesAllowed | src/ehci.c:43-53 | The reset writes only USBCMD, USBSTS, FRINDEX and CONFIGFLAG. |
| Ehci.BringUpWritesAllowed | src/ehci.c:26-67 | The bring-up writes only the operational registers USBCMD, USBSTS, FRINDEX, CONFIGFLAG and the PORTSC of existing ports, all relative to base + CAPLENGTH. |
| Ehci.UnconnectedPortNotWritten | src/ehci.c:56-57 | A port whose connect bit read as clear is never written. |
| Ehci.ConnectedPortReset | src/ehci.c:57-64 | A connected port gets Port Reset set, and then cleared on the value read back. |
| Ehci.BadCapLengthOnlyReads | src/ehci.c:27-34 | With CAPLENGTH out of range only the three capability registers are read. |
| EhciTransfer.Qtd.constructor | src/ehci_transfer.c:9-14 | A qTD at a given physical address, with a fresh five-entry buffer-pointer array. |
| EhciTransfer.Qh.constructor | src/ehci_transfer.c:16-22 | A QH at a given physical address, with its own fresh overlay qTD 16 bytes further on. |
| EhciTransfer.ZeroBuf | src/ehci_transfer.c:37-39 | Every buffer pointer is zero afterwards. |
| EhciTransfer.AllocQtd | src/ehci_transfer.c:32-43 | Null exactly when the 32-byte, 32-aligned allocation fails; otherwise a fresh, nonzero, 32-aligned qTD that is all zero except both links, which are 1, recorded as one new heap block. |
| EhciTransfer.AllocQh | src/ehci_transfer.c:45-57 | Null exactly when the 48-byte, 32-aligned allocation fails; otherwise a fresh, nonzero, 32-aligned QH that is zero except its horizontal link, which points at itself with type QH, and the terminated links of its overlay. |
| EhciTransfer.SetBuffer | src/ehci_transfer.c:59-67 | The five buffer pointers describe a buffer starting at the address given, the byte count `len << 16` is ORed into the token, and the links are unchanged. |
| EhciTransfer.WaitComplete | src/ehci_transfer.c:69-76 | Success exactly when one of the first million polls finds ACTIVE clear; on success the poll count is the first such poll, and on failure it is the full limit. |
| EhciTransfer.BuildSetup | src/ehci_transfer.c:98-100 | The SETUP qTD links to the next stage, carries an active 8-byte SETUP token, and its buffer pointers start at the SETUP packet. |
| EhciTransfer.BuildData | src/ehci_transfer.c:102-106 | The DATA qTD links to STATUS, carries an active token with the transfer's PID and length, and its buffer pointers start at the data buffer. |
| EhciTransfer.BuildStatus | src/ehci_transfer.c:108-109 | The STATUS qTD is terminated, carries an active zero-byte token with the opposite PID, and has zero buffer pointers. |
| EhciTransfer.BuildQh | src/ehci_transfer.c:111-118 | The QH keeps its self link, gets the endpoint-characteristics word, a zero current-qTD field and an overlay pointing at the SETUP qTD. |
| EhciTransfer.TokenKeepsLength | src/ehci_transfer.c:99-105 | ORing the byte count in again after the token already holds it changes nothing. |
| EhciTransfer.AllocChain | src/ehci_transfer.c:90-93 | The QH, SETUP, DATA (only for a nonzero length) and STATUS descriptors are allocated in that order; when all exist they are distinct and fresh. `heap_curr` never moves back, the heap's blocks only grow, and when all descriptors exist the new blocks are theirs, in allocation order. |
| EhciTransfer.BuildChain | src/ehci_transfer.c:98-118 | Afterwards the descriptors form the chain QH.overlay, SETUP, optional DATA, STATUS, terminate, each with its token and buffer. |
| EhciTransfer.Submit | src/ehci_transfer.c:120-133 | The bus sees the ASYNCLISTADDR write, the schedule enable and, on completion only, the schedule disable; success exactly when some poll finds STATUS inactive. |
| EhciTransfer.RunTransfer | src/ehci_transfer.c:98-133 | The chain is built and then submitted, with the outcome and bus accesses of `Submit`. |
| EhciTransfer.ControlTransfer | src/ehci_transfer.c:78-134 | A null controller, missing operational registers or a null SETUP packet fails with no allocation and no bus access; a missing descriptor fails with no bus access; otherwise the chain is built and submitted and success holds exactly when some poll finds STATUS inactive. `heap_curr` never moves back and the heap's blocks only grow, by the descriptors' blocks when all of them exist. |
| EhciTransferFacts.TokenIsActive | src/ehci_transfer.c:99-109 | Every token the driver writes has ACTIVE set. |
| EhciTransferFacts.TokenPid | src/ehci_transfer.c:5-7 | The PID code field holds the PID the token was built with. |
| EhciTransferFacts.TokenBytes | src/ehci_transfer.c:99-104 | A length that fits 15 bits reads back unchanged from Total Bytes. |
| EhciTransferFacts.TokenLongLength | src/ehci_transfer.c:104 | A length of 0x8000 is not masked: Total Bytes reads 0 and the data-toggle bit is set instead. |
| EhciTransferFacts.StagePids | src/ehci_transfer.c:104-109 | DATA moves in the transfer direction and STATUS in the opposite one. |
| EhciTransferFacts.SetupTokenFields | src/ehci_transfer.c:99 | The SETUP token asks for 8 bytes with PID code 2. |
| EhciTransferFacts.EpCharMaxPacket | src/ehci_transfer.c:111 | The maximum packet field reads back masked to 11 bits. |
| EhciTransferFacts.EpCharEndpoint | src/ehci_transfer.c:112 | The endpoint field reads back masked to 4 bits. |
| EhciTransferFacts.EpCharAddress | src/ehci_transfer.c:113 | The device address field reads back masked to 7 bits. |
| EhciTransferFacts.EpCharOtherBits | src/ehci_transfer.c:111-114 | Data toggle control is set and no bit outside the four fields is. |
| EhciTransferFacts.PageBase | src/ehci_transfer.c:63 | The page base is 4 KiB aligned and holds the address within its page. |
| EhciTransferFacts.BufferPointerIsPage | src/ehci_transfer.c:61-65 | Buffer pointers 1 to 4 are the bases of the following pages, in 32-bit arithmetic, and are page aligned. |
| EhciTransferFacts.BufferCovers | src/ehci_transfer.c:59-67 | Without wrap-around, every byte of a buffer that fits five pages lies in the page its buffer pointer names. |
| EhciTransferFacts.SubmitEnablesSchedule | src/ehci_transfer.c:120-123 | The QH address goes to ASYNCLISTADDR and USBCMD is written with the schedule enabled and its other bits kept. |
| EhciTransferFacts.SubmitEndsSchedule | src/ehci_transfer.c:125-131 | On completion the last write disables the schedule and keeps the other bits; on timeout the schedule is left enabled. |

## Left out
- Drawing: `ui_render`, the application render functions, the theme tables of `MagicUI.c` and `fb_draw_char`/`fb_draw_string`. They only paint pixels, and the font table is not part of this model.
- `fb_blit`: it is inline `rep movsd` assembly, a foreign primitive.
- Port and MMIO primitives (`inb`, `outb`, `inl`, `outl`, the volatile accessors): a read is an unconstrained value recorded on `Hw.Bus` or `Hw.Ports`, and a write is an entry of the same trace.
- PS/2 controller set-up and its wait loops (`src/input.c:32-75`), and UART set-up in `log_init`: these only program hardware. `ata.c`, `mbr.c` and `vfs.c` are not part of this model; `fat.c` sees the disk as a function from LBA to a sector or a failure.
- `cpuid` is inline assembly: `fill_cpu_string` takes the register values as a `CpuId` parameter. The halt loops, VGA text output and `panic.c` are left out because nothing can be stated about them beyond "does not return".
- `kernel_main` and the memory-map scan of `memory_init` are left out: they only sequence calls and panic. The model keeps the bitmap set-up and the `reserve_range`/`free_range` effects it relies on.
- Timing: `spin_delay` and the busy-wait loops of `ehci.c` take no modelled time. The controller's walk of the QH/qTD list is the `tokenAt` parameter, the STATUS token seen at each poll.
- Packed `__attribute__((packed, aligned(32)))` layouts and pointer casts: descriptors are classes with one field per 32-bit word, at a physical address. The word-by-word zeroing loops are modelled by their effect on those fields.
- `pci_scan` over all buses is left out: its `uint8_t` bus counter is always below 256, so the loop never ends. Only `pci_scan_bus0` is modelled.
- Log text is left out. `usb_device_cb`, `usb_init` and `ehci_init` print progress through `log_puts`/`log_dec32`; those calls are not on the modelled bus trace. `log.c` itself is modelled as a character trace.
- Multiboot2 pointers are modelled as byte offsets into the information block, read through `Mb2.Words`, which gives the little-endian 32-bit word at each offset.
- Fat.ListRoot: a FAT32 root directory is walked for at most `fuel` clusters, and running out gives 0. The C loop has no bound, so a cyclic FAT chain makes it run forever.
- Fat.ListRoot requires a nonzero sector size: `fat_get_next_cluster` divides by it, and only a successful `fat_mount` guarantees it.
- Framebuffer.Surface.FillRect requires width and height below 2^31, so that `(int)fb->width` and `(int)fb->height` are the sizes themselves. The sums `r.x + r.w` and `r.y + r.h` are unbounded integers here, so a signed 32-bit overflow in them is not modelled.
- Memory.PageFrames.constructor requires 1 to 2^20 pages, the bitmap size `memory_init` sets up for a 32-bit physical space.
- Common.Wrap32 states only its range and that a value that fits is unchanged; it is the modulo-2^32 conversion itself, used wherever the C arithmetic can wrap.
- Input.Keyboard.ReadScancode decodes with the corrected `Input.DecodeSet1`, which clears a pending 0xE0 prefix on a break code too. It differs from `src/input.c:94-101` after an extended break code: on E0 48 E0 C8 1C the C loses the Enter key and the model returns it (`Input.ExtendedFlagCarriesOver` shows the C behaviour).
- Input.Keyboard.PollKeyboard returns what `ReadScancode` decodes when no injected key is waiting, so over five polls that read E0 48 E0 C8 1C its fifth call returns KEY_ENTER where the C returns KEY_NONE.
- Memory.PageFrames.ReserveRange rounds the end up with the corrected `Memory.PageEnd`. For an end above 0xFFFFF000, such as 0xFFFFFFFF, the C page end wraps to 0, so the C reserves no page while the model reserves every page from `start / 4096` to the end of the bitmap.
- Memory.PageFrames.FreeRange rounds the end up with `Memory.PageEnd` as well. For an end above 0xFFFFF000, such as the clamped end 0xFFFFFFFF that `memory_init` passes for a region reaching past 4 GiB, the C frees no page and the model frees every page from `start / 4096` to the end of the bitmap.
- Memory.Heap.Kmalloc refuses a request whose `align_up` or `curr + size` wraps past 2^32. The C hands such a block out: size 0xFFFFFFFF at an aligned `heap_curr` returns `heap_curr` and moves `heap_curr` one byte back, where the model returns 0 and changes nothing.
- EhciTransfer.AllocQtd inherits that difference through `kmalloc(32, 32)`, and the model always reports a failure there. For `heap_curr` from 0xFFFFFFC1 to 0xFFFFFFE0, the C hands out the qTD at 0xFFFFFFE0 and wraps `heap_curr` to 0. Above 0xFFFFFFE0 the rounding wraps to 0, so the C also returns null, but it moves `heap_curr` to 32.
- EhciTransfer.AllocQh inherits it through `kmalloc(48, 32)`, and the model always reports a failure there. For `heap_curr` from 0xFFFFFFC1 to 0xFFFFFFE0, the C hands out the QH at 0xFFFFFFE0 and wraps `heap_curr` to 16. Above 0xFFFFFFE0 the C returns null and moves `heap_curr` to 48.
- EhciTransfer.AllocChain differs from the C only through `AllocQtd` and `AllocQh`, when `heap_curr` reaches above 0xFFFFFFC0 during the allocations.
- EhciTransfer.ControlTransfer differs from the C only through `AllocChain`, under the same condition.
- Fat.RootWalk walks the corrected sector addresses of `Fat.RootSectorLba`. For a partition not at LBA 0 the C adds `part_lba` a second time (`src/fat.c:176`): a FAT16 partition at LBA 2048 with one reserved sector and two 32-sector FATs is read at sector 4161 by the C and at 2113 by the model.
- Fat.ClusterWalk gives a cluster's sectors counted once from the partition start; the C adds `part_lba` again (`src/fat.c:199`), so for a partition at LBA p the C reads p sectors further on, modulo 2^32.
- Fat.ListSector lists a sector that `Fat.RootWalk` or `Fat.ClusterWalk` reads at its corrected address, p sectors before the one the C reads for a partition at LBA p > 0.
- Fat.ListFixedRoot reads the FAT16 root directory at `Fat.RootSectorLba`; for a partition at LBA p > 0 the C reads p sectors further on.
- Fat.ListCluster reads a cluster at `Fat.ClusterSectorLba`; for a partition at LBA p > 0 the C reads p sectors further on.
- Fat.ListChain reads each cluster of the FAT32 chain at its corrected sectors; for a partition at LBA p > 0 the C reads p sectors further on.
- Fat.ListRoot lists the directory at its corrected sectors; for a partition at LBA p > 0 the C reads the sectors p further on (sector 4161 instead of 2113 in the example above).
- Usb.Configured uses the corrected configuration parser, which takes a descriptor only when all nine of its bytes were received. On a 64-byte configuration whose second descriptor is 52 bytes long the C reads the report length from `cfg_desc[68..69]`, past the buffer; the model ignores that descriptor.
- Usb.UsbHost.ParseConfig walks the configuration with the same corrected parser, so on that 64-byte configuration it ignores the truncated HID descriptor where the C reads `cfg_desc[68..69]`.
- Usb.UsbHost.Configure inherits that difference from `ParseConfig`: on such a configuration the C may configure a HID device from bytes past the buffer, and the model does not.
- Usb.UsbHost.EnumerateDevice inherits the same difference through `Configure`.
- Usb.UsbHost.UsbInit inherits it through `EnumerateDevice`.
- Framebuffer.Surface.DrawVerticalGradient paints the corrected `Framebuffer.GradientChannel`. With top 255 and bottom 0 over three rows, the C gives row 1 the 32-bit channel 0x8000_0000 - 128 + 255 and the model gives 128. For a one-row surface the C divides by zero and the model paints the top colour.
- Usb.UsbHost.RunCallbacks states the controller table a scan records, but not the bus trace or the controller records of the whole scan. Those are stated one callback at a time by `Usb.UsbHost.DeviceCb`.
- Usb.UsbHost.Discover states the same table as `RunCallbacks` and no more; the same holds for the scan inside `Usb.UsbHost.UsbInit`.
- Concurrency and floating point: none appear in the core. The scheduler is cooperative and run-to-completion, and the gradient uses integers.

## Findings
| source | as written | input that shows it | evidently intended | confidence | as-written member | corrected member |
|---|---|---|---|---|---|---|
| src/memory.c:34, src/memory.c:47, src/memory.c:106-111 | `reserve_range` and `free_range` compute the page end as `(end + 4095) / 4096` in 32 bits, and `memory_init` clamps a usable region's end to 0xFFFFFFFF before calling `free_range`. | end = 0xFFFFFFFF wraps to page end 0, so a usable region that reaches past 4 GiB frees no page at all. | Round up without wrapping: page end 2^20. | not executed | Memory.PageEndAsWritten, Memory.PageEndAsWrittenLosesClampedRegion | Memory.PageEnd, Memory.PageEndAgrees |
| src/memory.c:132-137 | `kmalloc` does not check that `align_up` or `curr + size` stays within 32 bits. | size = 0xFFFFFFFF at an aligned `heap_curr` wraps `heap_curr` one byte backwards, and the next request is handed the same block. | Refuse a request whose block does not fit below the limit without wrapping. | not executed | Memory.KmallocAsWrittenReturnsBlockTwice, Memory.KmallocHugeWraps | Memory.Heap.Kmalloc |
| src/input.c:94-101 | A break code returns before the pending 0xE0 prefix is cleared. | E0 48 E0 C8 1C: releasing Up leaves the prefix set, and the following Enter is decoded as an unknown extended key and lost. | The prefix applies to the next byte only, make or break. | not executed | Input.DecodeSet1AsWritten, Input.ExtendedFlagCarriesOver | Input.DecodeSet1, Input.DecodeIgnoresOlderHistory |
| src/framebuffer.c:44-46 | Each channel is `t + (b - t) * y / (height - 1)` in unsigned 32-bit arithmetic. | top 255 and bottom 0 over three rows: row 1 gets 0x8000_0000 - 128 + 255, far outside a byte; a one-row surface divides by zero. | Linear interpolation from the top to the bottom value, with a one-row surface showing the top value. | not executed | Framebuffer.GradientChannelAsWritten, Framebuffer.GradientFallingChannelWraps, Framebuffer.GradientHeightOneDividesByZero | Framebuffer.GradientChannel, Framebuffer.GradientAgrees |
| src/usb.c:152-173 | The loop condition `idx + 2 < total_len` lets a descriptor's fields at `idx + 2 .. idx + 8` be read past the received bytes. | A 64-byte configuration whose second descriptor is 52 bytes long puts a HID descriptor at offset 61; its report length is read from `cfg_desc[68]` and `cfg_desc[69]`, past the 64-byte array. | Use a descriptor only when all nine of its bytes were received. | not executed | Usb.ParseAsWritten, Usb.ParseReadsPastBuffer | Usb.ParseIgnoresTruncatedDescriptor, Usb.ParseUsesOnlyReceived |
| src/fat.c:176, src/fat.c:199 | `fat_list_root` adds `part_lba` to `root_dir_lba` and to the cluster's first LBA, which `fat_mount` already counted from the partition start. | A FAT16 partition at sector 2048 with one reserved sector and two 32-sector FATs has its root directory at sector 2113, but the listing reads sector 4161. | Read the directory's own sectors, counted once from the partition start. | not executed | Fat.RootSectorLbaAsWritten, Fat.AsWrittenReadsPastTheDirectory, Fat.AsWrittenExample | Fat.RootSectorLba, Fat.ListingReadsTheDirectory |
