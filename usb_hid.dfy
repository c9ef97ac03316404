/** The HID boot-protocol report decoders of src/usb_hid.c (Appendix B of the HID
    1.11 specification). A keyboard report is byte 0 modifiers, byte 1 reserved and
    bytes 2..7 the usages of up to six pressed keys; a key press is reported once,
    on the first report that contains its usage. A mouse report is byte 0 buttons
    and bytes 1 and 2 signed X and Y motion. */
module UsbHid {
  import opened Common
  import opened Input

  // ---------------------------------------------------------------------------
  // Usage mapping

  /** `hid_key_to_action`: usages from the keyboard page of the HID Usage Tables
      (arrows, Return, Escape, Tab, and the letter S as Start). */
  function HidKeyToAction(code: bv8): KeyAction
  {
    if code == 0x52 then KeyUp else if code == 0x51 then KeyDown
    else if code == 0x50 then KeyLeft else if code == 0x4F then KeyRight
    else if code == 0x28 then KeyEnter else if code == 0x29 then KeyEsc
    else if code == 0x2B then KeyTab else if code == 0x16 then KeyStart
    else KeyNone
  }

  /** The usage that produces each action. */
  function UsageOf(a: KeyAction): bv8
    requires a != KeyNone
  {
    match a
    case KeyUp => 0x52
    case KeyDown => 0x51
    case KeyLeft => 0x50
    case KeyRight => 0x4F
    case KeyEnter => 0x28
    case KeyEsc => 0x29
    case KeyTab => 0x2B
    case KeyStart => 0x16
  }

  /** A usage maps to an action exactly when it is that action's usage; every other
      usage maps to KEY_NONE. */
  lemma HidKeyYields(code: bv8, a: KeyAction)
    requires a != KeyNone
    ensures HidKeyToAction(code) == a <==> code == UsageOf(a)
  {
  }

  /** The USB and the PS/2 decoders produce the same eight actions. */
  lemma SameActionsAsPs2(a: KeyAction)
    requires a != KeyNone
    ensures HidKeyToAction(UsageOf(a)) == a
    ensures DecodeSet1(MakeCode(a).0, MakeCode(a).1).action == a
  {
    HidKeyYields(UsageOf(a), a);
    DecodeYields(MakeCode(a).0, MakeCode(a).1, a);
  }

  // ---------------------------------------------------------------------------
  // Edge-triggered key presses

  /** The action slot `code` contributes: a nonzero usage absent from all six
      previous slots that maps to an action. */
  function NewPress(last: seq<bv8>, code: bv8): seq<KeyAction>
  {
    if code != 0 && code !in last && HidKeyToAction(code) != KeyNone then [HidKeyToAction(code)] else []
  }

  /** The actions a report's key slots inject, in slot order. */
  function Presses(last: seq<bv8>, keys: seq<bv8>): seq<KeyAction>
    decreases |keys|
  {
    if keys == [] then [] else Presses(last, keys[..|keys| - 1]) + NewPress(last, keys[|keys| - 1])
  }

  /** An action is injected exactly when some slot holds a newly pressed usage that
      maps to it. */
  lemma {:induction false} PressesMembership(last: seq<bv8>, keys: seq<bv8>, a: KeyAction)
    ensures a in Presses(last, keys) <==>
      exists i :: 0 <= i < |keys| && keys[i] != 0 && keys[i] !in last && HidKeyToAction(keys[i]) == a && a != KeyNone
  {
    if keys != [] {
      var init := keys[..|keys| - 1];
      PressesMembership(last, init, a);
      if a in Presses(last, keys) && a !in Presses(last, init) {
        var i := |keys| - 1;
        assert keys[i] != 0 && keys[i] !in last && HidKeyToAction(keys[i]) == a && a != KeyNone;
      }
      if exists i :: 0 <= i < |keys| && keys[i] != 0 && keys[i] !in last && HidKeyToAction(keys[i]) == a && a != KeyNone {
        var i :| 0 <= i < |keys| && keys[i] != 0 && keys[i] !in last && HidKeyToAction(keys[i]) == a && a != KeyNone;
        if i < |keys| - 1 {
          assert init[i] == keys[i];
        }
      }
    }
  }

  /** A report whose usages were all present in the previous report injects nothing;
      in particular, replaying a report injects nothing. */
  lemma {:induction false} NothingNewNoPresses(last: seq<bv8>, keys: seq<bv8>)
    requires forall i :: 0 <= i < |keys| ==> keys[i] == 0 || keys[i] in last
    ensures Presses(last, keys) == []
  {
    if keys != [] {
      var init := keys[..|keys| - 1];
      assert forall i :: 0 <= i < |init| ==> init[i] == keys[i];
      NothingNewNoPresses(last, init);
    }
  }

  lemma ReplayInjectsNothing(keys: seq<bv8>)
    ensures Presses(keys, keys) == []
  {
    NothingNewNoPresses(keys, keys);
  }

  /** The test is membership, not position: a new usage repeated in two slots of one
      report is injected twice. */
  lemma RepeatedUsageInjectedTwice()
    ensures Presses([0, 0, 0, 0, 0, 0], [0x52, 0x52, 0, 0, 0, 0]) == [KeyUp, KeyUp]
  {
    var k: seq<bv8> := [0x52, 0x52, 0, 0, 0, 0];
    var z: seq<bv8> := [0, 0, 0, 0, 0, 0];
    assert k[..1] == [0x52] && k[..1][..0] == [];
    assert k[..2] == [0x52, 0x52] && k[..2][..1] == k[..1];
    assert k[..3][..2] == k[..2] && k[..4][..3] == k[..3] && k[..5][..4] == k[..4] && k[..6] == k;
    assert k[..6][..5] == k[..5];
    assert Presses(z, k[..1]) == [KeyUp];
    assert Presses(z, k[..2]) == [KeyUp, KeyUp];
    assert Presses(z, k[..3]) == [KeyUp, KeyUp];
    assert Presses(z, k[..4]) == [KeyUp, KeyUp];
    assert Presses(z, k[..5]) == [KeyUp, KeyUp];
  }

  // ---------------------------------------------------------------------------
  // Injection into the key queue

  /** The queue after `input_inject_key(a)`: unchanged when full (15 actions). */
  function Enqueue(q: seq<KeyAction>, a: KeyAction): seq<KeyAction>
  {
    if |q| == 15 then q else q + [a]
  }

  function EnqueueAll(q: seq<KeyAction>, acts: seq<KeyAction>): seq<KeyAction>
    decreases |acts|
  {
    if acts == [] then q else Enqueue(EnqueueAll(q, acts[..|acts| - 1]), acts[|acts| - 1])
  }

  /** While the queue has room, injected actions are appended in order. */
  lemma {:induction false} EnqueueAllAppends(q: seq<KeyAction>, acts: seq<KeyAction>)
    requires |q| + |acts| <= 15
    ensures EnqueueAll(q, acts) == q + acts
  {
    if acts != [] {
      var init := acts[..|acts| - 1];
      EnqueueAllAppends(q, init);
      assert init + [acts[|acts| - 1]] == acts;
    }
  }

  /** The queue never grows beyond 15 actions and its oldest actions are kept. */
  lemma {:induction false} EnqueueAllKeepsOld(q: seq<KeyAction>, acts: seq<KeyAction>)
    requires |q| <= 15
    ensures |EnqueueAll(q, acts)| <= 15
    ensures q <= EnqueueAll(q, acts)
  {
    if acts != [] {
      EnqueueAllKeepsOld(q, acts[..|acts| - 1]);
    }
  }

  /** Injecting at most one more action extends the fold by one step. */
  lemma EnqueueAllStep(q: seq<KeyAction>, acts: seq<KeyAction>, more: seq<KeyAction>)
    requires |more| <= 1
    ensures EnqueueAll(q, acts + more) == EnqueueAll(EnqueueAll(q, acts), more)
  {
    if more == [] {
      assert acts + more == acts;
    } else {
      assert (acts + more)[..|acts|] == acts;
      assert more[..0] == [];
    }
  }

  // ---------------------------------------------------------------------------
  // The driver

  /** The driver's static state. Reports are passed as a buffer (`None` for a null
      pointer) and the length the caller gives. */
  class HidDriver {
    /** `last_keys`: the key slots of the previous keyboard report. */
    const lastKeys: array<bv8>

    ghost predicate Valid()
    {
      lastKeys.Length == 6
    }

    constructor ()
      ensures Valid() && fresh(lastKeys)
    {
      lastKeys := new bv8[6](_ => 0);
    }

    /** `usb_hid_init`: all six slots become 0. */
    method Init()
      requires Valid()
      modifies lastKeys
      ensures forall i :: 0 <= i < 6 ==> lastKeys[i] == 0
    {
      var i := 0;
      while i < 6
        invariant i <= 6
        invariant forall j :: 0 <= j < i ==> lastKeys[j] == 0
      {
        lastKeys[i] := 0;
        i := i + 1;
      }
    }

    /** `key_in_last`: whether `code` is in any of the six slots. */
    method KeyInLast(code: bv8) returns (found: bool)
      requires Valid()
      ensures found <==> code in lastKeys[..]
    {
      var i := 0;
      while i < 6
        invariant i <= 6
        invariant code !in lastKeys[..i]
      {
        if lastKeys[i] == code {
          assert lastKeys[..][i] == code;
          return true;
        }
        assert lastKeys[..i + 1] == lastKeys[..i] + [lastKeys[i]];
        i := i + 1;
      }
      assert lastKeys[..i] == lastKeys[..];
      return false;
    }

    /** `usb_hid_on_keyboard_report`: a null or short report is ignored; otherwise
        every newly pressed usage is injected in slot order and the six slots are
        remembered. */
    method OnKeyboardReport(report: Option<seq<bv8>>, len: u32, kb: Keyboard)
      requires Valid() && kb.Valid()
      requires report.Some? && len >= 8 ==> |report.value| >= 8
      modifies lastKeys, kb.queue, kb`tail, kb`contents
      ensures kb.Valid()
      ensures report.None? || len < 8 ==> (lastKeys[..] == old(lastKeys[..]) && kb.contents == old(kb.contents))
      ensures report.Some? && len >= 8 ==> (lastKeys[..] == report.value[2..8]
        && kb.contents == EnqueueAll(old(kb.contents), Presses(old(lastKeys[..]), report.value[2..8])))
    {
      if report.None? || len < 8 {
        return;
      }
      var keys := report.value[2..8];
      InjectPresses(keys, kb);
      RememberKeys(keys);
    }

    /** The second loop of `usb_hid_on_keyboard_report`: copy the six slots. */
    method RememberKeys(keys: seq<bv8>)
      requires Valid() && |keys| == 6
      modifies lastKeys
      ensures lastKeys[..] == keys
    {
      var i := 0;
      while i < 6
        invariant i <= 6
        invariant lastKeys[..i] == keys[..i]
      {
        lastKeys[i] := keys[i];
        assert lastKeys[..i + 1] == lastKeys[..i] + [keys[i]];
        assert keys[..i + 1] == keys[..i] + [keys[i]];
        i := i + 1;
      }
      assert lastKeys[..] == lastKeys[..6];
      assert keys == keys[..6];
    }

    /** The first loop of `usb_hid_on_keyboard_report`. */
    method InjectPresses(keys: seq<bv8>, kb: Keyboard)
      requires Valid() && kb.Valid() && |keys| == 6
      modifies kb.queue, kb`tail, kb`contents
      ensures kb.Valid()
      ensures kb.contents == EnqueueAll(old(kb.contents), Presses(lastKeys[..], keys))
    {
      ghost var q0 := kb.contents;
      ghost var last := lastKeys[..];
      var i := 0;
      while i < 6
        invariant i <= 6 && kb.Valid()
        invariant kb.contents == EnqueueAll(q0, Presses(last, keys[..i]))
      {
        ghost var before := Presses(last, keys[..i]);
        assert keys[..i + 1][..i] == keys[..i] && keys[..i + 1][i] == keys[i];
        assert Presses(last, keys[..i + 1]) == before + NewPress(last, keys[i]);
        InjectSlot(keys[i], kb);
        EnqueueAllStep(q0, before, NewPress(last, keys[i]));
        i := i + 1;
      }
      assert keys[..6] == keys;
    }

    /** One slot of the first loop: a non-zero usage not held in the previous report
        and with an action is injected. */
    method InjectSlot(code: bv8, kb: Keyboard)
      requires Valid() && kb.Valid()
      modifies kb.queue, kb`tail, kb`contents
      ensures kb.Valid()
      ensures kb.contents == EnqueueAll(old(kb.contents), NewPress(lastKeys[..], code))
    {
      if code != 0 {
        var found := KeyInLast(code);
        if !found {
          var action := HidKeyToAction(code);
          if action != KeyNone {
            kb.InjectKey(action);
            assert [action][..0] == [];
          }
        }
      }
    }

    /** `usb_hid_on_mouse_report`: a null or short report is ignored; otherwise it
        injects the buttons (low three bits) and the signed X and Y motion. */
    method OnMouseReport(report: Option<seq<bv8>>, len: u32, mouse: Mouse)
      requires report.Some? && len >= 3 ==> |report.value| >= 3
      modifies mouse
      ensures report.None? || len < 3 ==> (mouse.pendingDx == old(mouse.pendingDx)
        && mouse.pendingDy == old(mouse.pendingDy) && mouse.pendingButtons == old(mouse.pendingButtons)
        && mouse.pendingValid == old(mouse.pendingValid) && mouse.cycle == old(mouse.cycle))
      ensures report.Some? && len >= 3 ==> (mouse.pendingValid && mouse.cycle == old(mouse.cycle)
        && mouse.pendingDx == old(mouse.pendingDx) + SignedByte(report.value[1])
        && mouse.pendingDy == old(mouse.pendingDy) + SignedByte(report.value[2])
        && mouse.pendingButtons == report.value[0] & 7)
    {
      if report.None? || len < 3 {
        return;
      }
      var r := report.value;
      mouse.InjectMouse(SignedByte(r[1]), SignedByte(r[2]), r[0] & 7);
    }
  }
}
