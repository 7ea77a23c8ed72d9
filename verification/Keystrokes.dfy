/** Emulating a keystroke: the modifiers go down, the key goes down and up, the modifiers come up. */
module Keystrokes {
  import opened AudioTypes
  import opened Packets

  datatype Modifier = Win | Ctrl | Shift | Alt {
    /** Its virtual-key code. */
    function Vk(): int {
      match this
      case Win => 0x5B
      case Ctrl => 0x11
      case Shift => 0x10
      case Alt => 0x12
    }
  }

  datatype Input = Input(vk: int, up: bool, extended: bool)

  function Bit(n: nat, value: nat): bool
    requires value > 0
  {
    n / value % 2 == 1
  }

  /** The modifiers that a bit field names: Win 1, Ctrl 2, Shift 4, Alt 8; other bits mean nothing. */
  function Modifiers(mods: nat): set<Modifier> {
    (if Bit(mods, 1) then {Win} else {}) + (if Bit(mods, 2) then {Ctrl} else {})
    + (if Bit(mods, 4) then {Shift} else {}) + (if Bit(mods, 8) then {Alt} else {})
  }

  /** `order` is some order of the set: the hash set's order is not known. */
  ghost predicate Orders(order: seq<Modifier>, mods: set<Modifier>) {
    && (forall i, j :: 0 <= i < j < |order| ==> order[i] != order[j])
    && (forall m :: m in order <==> m in mods)
  }

  /** Brackets within brackets, the key innermost. */
  function Script(order: seq<Modifier>, key: int): seq<Input> {
    if order == [] then [Input(key, false, true), Input(key, true, true)]
    else [Input(order[0].Vk(), false, false)] + Script(order[1..], key) + [Input(order[0].Vk(), true, false)]
  }

  class Keystroke {
    const key: int
    var mods: set<Modifier>

    constructor (key: int, mods: nat)
      ensures this.key == key && this.mods == Modifiers(mods)
    {
      this.key := key;
      this.mods := {};
      new;
      if mods == 0 {
        return;
      }
      if Bit(mods, 1) {
        this.mods := this.mods + {Win};
      }
      if Bit(mods, 2) {
        this.mods := this.mods + {Ctrl};
      }
      if Bit(mods, 4) {
        this.mods := this.mods + {Shift};
      }
      if Bit(mods, 8) {
        this.mods := this.mods + {Alt};
      }
    }

    /** Fills the array from both ends towards the middle. */
    method Emulate() returns (inputs: array<Input>)
      ensures fresh(inputs)
      ensures exists order: seq<Modifier> :: Orders(order, mods) && inputs[..] == Script(order, key)
    {
      var keyCount := |mods| + 1;
      var inputLen := keyCount * 2;
      inputs := new Input[inputLen](i => Input(0, i >= keyCount, false));
      ghost var order := PlaceModifiers(inputs);
      inputs[inputLen / 2 - 1] := Input(key, false, true);
      inputs[inputLen / 2] := Input(key, true, true);
      ScriptIs(order, key, inputs[..]);
    }

    /** All but the middle pair: the modifiers from the outside in. */
    method PlaceModifiers(inputs: array<Input>) returns (ghost order: seq<Modifier>)
      requires inputs.Length == 2 * |mods| + 2
      requires forall i :: 0 <= i < inputs.Length ==> inputs[i] == Input(0, i >= |mods| + 1, false)
      modifies inputs
      ensures Orders(order, mods) && |order| == |mods|
      ensures forall i :: 0 <= i < |order| ==> inputs[i] == Input(order[i].Vk(), false, false)
      ensures forall i :: 0 <= i < |order| ==> inputs[inputs.Length - 1 - i] == Input(order[i].Vk(), true, false)
    {
      var inputLen, index := inputs.Length, 0;
      order := [];
      var remaining := mods;
      while remaining != {}
        invariant remaining <= mods && index == |order| && index + |remaining| == |mods|
        invariant Orders(order, mods - remaining)
        invariant forall i :: 0 <= i < index ==> inputs[i] == Input(order[i].Vk(), false, false)
        invariant forall i :: 0 <= i < index ==> inputs[inputLen - 1 - i] == Input(order[i].Vk(), true, false)
        invariant forall i :: index <= i < inputLen - index ==> inputs[i] == Input(0, i >= |mods| + 1, false)
      {
        var modKey :| modKey in remaining;
        inputs[index] := inputs[index].(vk := modKey.Vk());
        inputs[inputLen - 1 - index] := inputs[inputLen - 1 - index].(vk := modKey.Vk());
        index := index + 1;
        order := order + [modKey];
        remaining := remaining - {modKey};
      }
    }
  }

  /** The script, slot by slot. */
  lemma {:induction false} ScriptIs(order: seq<Modifier>, key: int, inputs: seq<Input>)
    requires |inputs| == 2 * |order| + 2
    requires forall i :: 0 <= i < |order| ==> inputs[i] == Input(order[i].Vk(), false, false)
    requires forall i :: 0 <= i < |order| ==> inputs[|inputs| - 1 - i] == Input(order[i].Vk(), true, false)
    requires inputs[|order|] == Input(key, false, true) && inputs[|order| + 1] == Input(key, true, true)
    ensures inputs == Script(order, key)
    decreases |order|
  {
    if order != [] {
      var inner := inputs[1..|inputs| - 1];
      forall i | 0 <= i < |order| - 1 ensures inner[|inner| - 1 - i] == Input(order[1..][i].Vk(), true, false) {
        var k := i + 1;
        assert order[1..][i] == order[k] && inner[|inner| - 1 - i] == inputs[|inputs| - 1 - k];
        assert inputs[|inputs| - 1 - k] == Input(order[k].Vk(), true, false);
      }
      ScriptIs(order[1..], key, inner);
      assert inputs == [inputs[0]] + inner + [inputs[|inputs| - 1]];
    }
  }

  /** How often `vk` has gone down without coming up again. */
  function Held(inputs: seq<Input>, vk: int): int {
    if inputs == [] then 0
    else
      var last := inputs[|inputs| - 1];
      Held(inputs[..|inputs| - 1], vk) + (if last.vk != vk then 0 else if last.up then -1 else 1)
  }

  lemma {:induction false} HeldConcat(x: seq<Input>, y: seq<Input>, vk: int)
    ensures Held(x + y, vk) == Held(x, vk) + Held(y, vk)
  {
    if y == [] {
      assert x + y == x;
    } else {
      assert (x + y)[..|x + y| - 1] == x + y[..|y| - 1];
      HeldConcat(x, y[..|y| - 1], vk);
    }
  }

  /** At the end no key is held, whatever the key and the order. */
  lemma {:induction false} AllComeUp(order: seq<Modifier>, key: int, vk: int)
    ensures Held(Script(order, key), vk) == 0
    decreases |order|
  {
    if order == [] {
      assert Script(order, key) == [Input(key, false, true)] + [Input(key, true, true)];
      HeldConcat([Input(key, false, true)], [Input(key, true, true)], vk);
    } else {
      var down, inner, up := [Input(order[0].Vk(), false, false)], Script(order[1..], key), [Input(order[0].Vk(), true, false)];
      HeldConcat(down + inner, up, vk);
      HeldConcat(down, inner, vk);
      AllComeUp(order[1..], key, vk);
    }
  }

  /** No key ever comes up before it went down. */
  lemma {:induction false} NothingComesUpFirst(order: seq<Modifier>, key: int, n: nat, vk: int)
    requires n <= |Script(order, key)|
    ensures 0 <= Held(Script(order, key)[..n], vk)
    decreases |order|
  {
    var script := Script(order, key);
    if n == |script| {
      AllComeUp(order, key, vk);
      assert script[..n] == script;
    } else if n > 0 {
      if order == [] {
        assert script[..n] == [Input(key, false, true)];
      } else {
        var down, inner := [Input(order[0].Vk(), false, false)], Script(order[1..], key);
        NothingComesUpFirst(order[1..], key, n - 1, vk);
        assert script[..n] == down + inner[..n - 1];
        HeldConcat(down, inner[..n - 1], vk);
      }
    }
  }

  /** When the key itself goes down and when it comes up, every modifier is held. */
  lemma {:induction false} ModifiersHeld(order: seq<Modifier>, key: int, m: Modifier)
    requires m in order
    ensures |Script(order, key)| == 2 * |order| + 2
    ensures Script(order, key)[|order|] == Input(key, false, true) && Script(order, key)[|order| + 1] == Input(key, true, true)
    ensures Held(Script(order, key)[..|order|], m.Vk()) >= 1 && Held(Script(order, key)[..|order| + 1], m.Vk()) >= 1
    decreases |order|
  {
    var down, inner := [Input(order[0].Vk(), false, false)], Script(order[1..], key);
    ScriptLength(order, key);
    ScriptLength(order[1..], key);
    assert Script(order, key)[..|order|] == down + inner[..|order| - 1];
    assert Script(order, key)[..|order| + 1] == down + inner[..|order|];
    HeldConcat(down, inner[..|order| - 1], m.Vk());
    HeldConcat(down, inner[..|order|], m.Vk());
    if m == order[0] {
      NothingComesUpFirst(order[1..], key, |order| - 1, m.Vk());
      NothingComesUpFirst(order[1..], key, |order|, m.Vk());
    } else {
      ModifiersHeld(order[1..], key, m);
    }
  }

  lemma {:induction false} ScriptLength(order: seq<Modifier>, key: int)
    ensures |Script(order, key)| == 2 * |order| + 2
    ensures Script(order, key)[|order|] == Input(key, false, true) && Script(order, key)[|order| + 1] == Input(key, true, true)
    decreases |order|
  {
    if order != [] {
      ScriptLength(order[1..], key);
    }
  }

  // ---- Keystrokes from datagrams -------------------------------------------------------------

  lemma {:induction false} ModifierInputs(order: seq<Modifier>, key: int, vk: int, up: bool)
    ensures Input(vk, up, false) in Script(order, key) <==> exists m :: m in order && m.Vk() == vk
    decreases |order|
  {
    if order == [] {
      assert Script(order, key) == [Input(key, false, true), Input(key, true, true)];
    } else {
      var down, inner, last := Input(order[0].Vk(), false, false), Script(order[1..], key), Input(order[0].Vk(), true, false);
      assert Script(order, key) == [down] + inner + [last];
      ModifierInputs(order[1..], key, vk, up);
      assert order == [order[0]] + order[1..];
    }
  }

  /** Which modifier keys go down and come up for a bit field: the Windows key for bit 1, Ctrl for 2, Shift for 4 and
      Alt for 8, by their virtual-key codes; and no other. */
  lemma BitsAreKeys(order: seq<Modifier>, press: KeyPress, vk: int, up: bool)
    requires Orders(order, Modifiers(press.mods as nat))
    ensures Input(vk, up, false) in Script(order, press.key as int)
       <==> || (vk == 0x5B && press.mods % 2 == 1) || (vk == 0x11 && press.mods / 2 % 2 == 1)
            || (vk == 0x10 && press.mods / 4 % 2 == 1) || (vk == 0x12 && press.mods / 8 % 2 == 1)
  {
    ModifierInputs(order, press.key as int, vk, up);
    var mods := Modifiers(press.mods as nat);
    assert Win in mods <==> press.mods % 2 == 1;
    assert Ctrl in mods <==> press.mods / 2 % 2 == 1;
    assert Shift in mods <==> press.mods / 4 % 2 == 1;
    assert Alt in mods <==> press.mods / 8 % 2 == 1;
    assert Win.Vk() == 0x5B && Ctrl.Vk() == 0x11 && Shift.Vk() == 0x10 && Alt.Vk() == 0x12;
  }

  /** From `before` to `after` exactly these keystrokes were typed, one after another, each in some order of the
      modifiers that its bit field names. */
  ghost predicate Types(before: seq<Input>, after: seq<Input>, presses: seq<KeyPress>)
    decreases |presses|
  {
    if presses == [] then after == before
    else
      var n := |presses| - 1;
      exists middle: seq<Input>, order: seq<Modifier> ::
        TypesOne(middle, after, order, presses[n]) && Types(before, middle, presses[..n])
  }

  ghost predicate TypesOne(before: seq<Input>, after: seq<Input>, order: seq<Modifier>, press: KeyPress) {
    Orders(order, Modifiers(press.mods as nat)) && after == before + Script(order, press.key as int)
  }

  lemma TypesMore(before: seq<Input>, middle: seq<Input>, after: seq<Input>, presses: seq<KeyPress>,
                  order: seq<Modifier>, press: KeyPress)
    requires Types(before, middle, presses) && TypesOne(middle, after, order, press)
    ensures Types(before, after, presses + [press])
  {
    var all := presses + [press];
    assert all[..|all| - 1] == presses && TypesOne(middle, after, order, all[|all| - 1]);
  }

  /** Whatever keystrokes were typed since no key was held: none is held now, and none ever came up before it went
      down. */
  lemma {:induction false} TypingIsBalanced(inputs: seq<Input>, presses: seq<KeyPress>, vk: int)
    requires Types([], inputs, presses)
    ensures Held(inputs, vk) == 0
    ensures forall n :: 0 <= n <= |inputs| ==> 0 <= Held(inputs[..n], vk)
    decreases |presses|
  {
    if presses != [] {
      var last := |presses| - 1;
      var middle, order :| TypesOne(middle, inputs, order, presses[last]) && Types([], middle, presses[..last]);
      TypingIsBalanced(middle, presses[..last], vk);
      OneMoreIsBalanced(middle, order, presses[last].key as int, vk);
    }
  }

  lemma OneMoreIsBalanced(before: seq<Input>, order: seq<Modifier>, key: int, vk: int)
    requires Held(before, vk) == 0 && forall n :: 0 <= n <= |before| ==> 0 <= Held(before[..n], vk)
    ensures Held(before + Script(order, key), vk) == 0
    ensures forall n :: 0 <= n <= |before + Script(order, key)| ==> 0 <= Held((before + Script(order, key))[..n], vk)
  {
    HeldConcat(before, Script(order, key), vk);
    AllComeUp(order, key, vk);
    forall n | 0 <= n <= |before + Script(order, key)| ensures 0 <= Held((before + Script(order, key))[..n], vk) {
      PrefixIsBalanced(before, order, key, vk, n);
    }
  }

  lemma PrefixIsBalanced(before: seq<Input>, order: seq<Modifier>, key: int, vk: int, n: nat)
    requires Held(before, vk) == 0 && n <= |before + Script(order, key)|
    requires forall n :: 0 <= n <= |before| ==> 0 <= Held(before[..n], vk)
    ensures 0 <= Held((before + Script(order, key))[..n], vk)
  {
    var script := Script(order, key);
    if n <= |before| {
      assert (before + script)[..n] == before[..n];
    } else {
      assert (before + script)[..n] == before + script[..n - |before|];
      HeldConcat(before, script[..n - |before|], vk);
      NothingComesUpFirst(order, key, n - |before|, vk);
    }
  }

  /** Nothing typed is left out: of every keystroke received the key and the modifiers went down, and nothing else was
      put into the keyboard input. */
  lemma {:induction false} KeystrokesAreTyped(inputs: seq<Input>, presses: seq<KeyPress>, press: KeyPress)
    requires Types([], inputs, presses)
    ensures press in presses ==> GoDown(press, inputs)
    ensures Keys(inputs) == 2 * |presses|
    decreases |presses|
  {
    if presses != [] {
      var last := |presses| - 1;
      var middle, order :| TypesOne(middle, inputs, order, presses[last]) && Types([], middle, presses[..last]);
      KeystrokesAreTyped(middle, presses[..last], press);
      KeysConcat(middle, Script(order, presses[last].key as int));
      OneKey(order, presses[last].key as int);
      ScriptPresses(order, presses[last]);
      assert presses == presses[..last] + [presses[last]];
    }
  }

  /** The key and the modifiers of a keystroke go down. */
  ghost predicate GoDown(press: KeyPress, inputs: seq<Input>) {
    && Input(press.key as int, false, true) in inputs
    && (press.mods % 2 == 1 ==> Input(0x5B, false, false) in inputs)
    && (press.mods / 2 % 2 == 1 ==> Input(0x11, false, false) in inputs)
    && (press.mods / 4 % 2 == 1 ==> Input(0x10, false, false) in inputs)
    && (press.mods / 8 % 2 == 1 ==> Input(0x12, false, false) in inputs)
  }

  lemma ScriptPresses(order: seq<Modifier>, press: KeyPress)
    requires Orders(order, Modifiers(press.mods as nat))
    ensures GoDown(press, Script(order, press.key as int))
  {
    ScriptLength(order, press.key as int);
    assert Script(order, press.key as int)[|order|] in Script(order, press.key as int);
    BitsAreKeys(order, press, 0x5B, false);
    BitsAreKeys(order, press, 0x11, false);
    BitsAreKeys(order, press, 0x10, false);
    BitsAreKeys(order, press, 0x12, false);
  }

  /** How many inputs are not modifiers. */
  function Keys(inputs: seq<Input>): nat {
    if inputs == [] then 0
    else Keys(inputs[..|inputs| - 1]) + (if inputs[|inputs| - 1].extended then 1 else 0)
  }

  lemma {:induction false} KeysConcat(x: seq<Input>, y: seq<Input>)
    ensures Keys(x + y) == Keys(x) + Keys(y)
  {
    if y == [] {
      assert x + y == x;
    } else {
      assert (x + y)[..|x + y| - 1] == x + y[..|y| - 1];
      KeysConcat(x, y[..|y| - 1]);
    }
  }

  lemma {:induction false} OneKey(order: seq<Modifier>, key: int)
    ensures Keys(Script(order, key)) == 2
    decreases |order|
  {
    if order == [] {
      KeysConcat([Input(key, false, true)], [Input(key, true, true)]);
      assert Keys([Input(key, false, true)]) == 1 && Keys([Input(key, true, true)]) == 1;
      assert Script(order, key) == [Input(key, false, true)] + [Input(key, true, true)];
    } else {
      var down, inner, up := [Input(order[0].Vk(), false, false)], Script(order[1..], key), [Input(order[0].Vk(), true, false)];
      KeysConcat(down + inner, up);
      KeysConcat(down, inner);
      OneKey(order[1..], key);
      assert Keys(down) == 0 && Keys(up) == 0;
    }
  }
}
