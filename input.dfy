/** The keyboard (src/keyboard.ts and its twin src/lib/chip8/keyboard.ts):
    a pressed-state dictionary keyed by host key name, a fixed table from the
    sixteen logical key codes to host key names, and a one-shot hook that the
    next press of a mapped key fires and then removes. */
module Input {
  import opened Bits

  /** Number of logical keys. */
  const Codes: int := 16

  /** `Keyboard.MAPPING` of src/keyboard.ts, indexed by logical code. */
  const StandardMapping: seq<string> :=
    ["X", "1", "2", "3", "Q", "W", "E", "A", "S", "D", "Z", "C", "4", "R", "F", "V"]

  /** `Keyboard.MAPPING` of src/lib/chip8/keyboard.ts, indexed by logical code. */
  const LowercaseMapping: seq<string> :=
    ["x", "1", "2", "3", "q", "w", "e", "a", "s", "d", "z", "c", "4", "r", "f", "v"]

  /** The key name that `MAPPING[value]` yields as a property key: a code
      without an entry yields `undefined`, which a property lookup turns into
      the name "undefined". */
  function KeyFor(mapping: seq<string>, value: int): string
  {
    if 0 <= value < |mapping| then mapping[value] else "undefined"
  }

  /** `!!keysPressed[key]`: an absent key reads as not pressed. */
  predicate Held(pressed: map<string, bool>, key: string)
  {
    key in pressed && pressed[key]
  }

  /** `isKeyPressed(value)`. */
  predicate Pressed(mapping: seq<string>, pressed: map<string, bool>, value: int)
  {
    Held(pressed, KeyFor(mapping, value))
  }

  /** What the hook receives when it fires: the register index the waiting
      instruction captured, and the logical code of the pressed key. */
  datatype Delivery = Delivery(target: nat, code: nat)

  /** The keyboard's state: the pressed-state dictionary and the pending
      `onNextKeyPress` hook (`None` is the class's own do-nothing method,
      which is what remains once the installed hook is deleted). */
  datatype KeyState = KeyState(pressed: map<string, bool>, pending: Option<nat>)

  /** The state after `keyDown`, and the delivery it made, if any. */
  datatype KeyDownResult = KeyDownResult(state: KeyState, delivered: Option<Delivery>)

  /** The first code below `n` that `mapping` sends to `key`: the entry the
      `for...in` scan of `keyDown` meets first (integer-like property names
      are visited in ascending order). */
  function FirstMatch(mapping: seq<string>, key: string, n: nat): Option<nat>
    requires n <= |mapping|
  {
    if n == 0 then None
    else
      var earlier := FirstMatch(mapping, key, n - 1);
      if earlier.Some? then earlier
      else if mapping[n - 1] == key then Some(n - 1)
      else None
  }

  /** `keyDown(key)`: the key becomes pressed whatever it is; if it is mapped,
      a pending hook receives the code and is removed. */
  function AfterKeyDown(mapping: seq<string>, ks: KeyState, key: string): (r: KeyDownResult)
    requires |mapping| == Codes
    ensures Held(r.state.pressed, key)
    ensures forall other :: other != key ==> Held(r.state.pressed, other) == Held(ks.pressed, other)
    ensures r.delivered.Some? ==>
      ks.pending == Some(r.delivered.value.target) && r.delivered.value.code < Codes &&
      mapping[r.delivered.value.code] == key
    ensures (key in mapping && ks.pending.Some?) <==> r.delivered.Some?
    ensures r.state.pending == if key in mapping then None else ks.pending
  {
    FirstMatchCorrect(mapping, key, Codes);
    var pressed := ks.pressed[key := true];
    match FirstMatch(mapping, key, Codes)
    case None => KeyDownResult(KeyState(pressed, ks.pending), None)
    case Some(code) =>
      var delivered := if ks.pending.Some? then Some(Delivery(ks.pending.value, code)) else None;
      KeyDownResult(KeyState(pressed, None), delivered)
  }

  /** `keyUp(key)`. */
  function AfterKeyUp(ks: KeyState, key: string): (r: KeyState)
    ensures !Held(r.pressed, key) && r.pending == ks.pending
    ensures forall other :: other != key ==> Held(r.pressed, other) == Held(ks.pressed, other)
  {
    ks.(pressed := ks.pressed[key := false])
  }

  /** `clear()`: the dictionary is emptied; the hook stays. */
  function Cleared(ks: KeyState): (r: KeyState)
    ensures forall key :: !Held(r.pressed, key)
    ensures r.pending == ks.pending
  {
    ks.(pressed := map[])
  }

  /** The keyboard object. `mapping` stands for the static `MAPPING`; the two
      named constructors give the two variants of the class. */
  class Keyboard {
    const mapping: seq<string>
    var keysPressed: map<string, bool>
    var pending: Option<nat>

    ghost predicate Valid()
      reads this
    {
      |mapping| == Codes
    }

    /** The abstract value of the keyboard. */
    function State(): KeyState
      reads this
    {
      KeyState(keysPressed, pending)
    }

    /** The keyboard of src/keyboard.ts (upper-case letter keys). */
    constructor Standard()
      ensures Valid() && mapping == StandardMapping
      ensures State() == KeyState(map[], None)
    {
      mapping := StandardMapping;
      keysPressed := map[];
      pending := None;
    }

    /** The keyboard of src/lib/chip8/keyboard.ts (lower-case letter keys). */
    constructor Lowercase()
      ensures Valid() && mapping == LowercaseMapping
      ensures State() == KeyState(map[], None)
    {
      mapping := LowercaseMapping;
      keysPressed := map[];
      pending := None;
    }

    method Clear()
      modifies this
      ensures State() == Cleared(old(State()))
    {
      keysPressed := map[];
    }

    method IsKeyPressed(value: int) returns (pressed: bool)
      ensures pressed == Pressed(mapping, keysPressed, value)
    {
      var key := if 0 <= value < |mapping| then mapping[value] else "undefined";
      pressed := key in keysPressed && keysPressed[key];
    }

    method KeyDown(key: string) returns (delivered: Option<Delivery>)
      requires Valid()
      modifies this
      ensures KeyDownResult(State(), delivered) == AfterKeyDown(mapping, old(State()), key)
    {
      keysPressed := keysPressed[key := true];
      delivered := None;
      for code := 0 to Codes
        invariant keysPressed == old(keysPressed)[key := true]
        invariant FirstMatch(mapping, key, code).None? ==> pending == old(pending) && delivered == None
        invariant FirstMatch(mapping, key, code).Some? ==>
          pending == None &&
          delivered == (if old(pending).Some? then Some(Delivery(old(pending).value, FirstMatch(mapping, key, code).value)) else None)
      {
        if mapping[code] == key {
          if pending.Some? {
            delivered := Some(Delivery(pending.value, code));
          }
          pending := None;
        }
      }
    }

    method KeyUp(key: string)
      modifies this
      ensures State() == AfterKeyUp(old(State()), key)
    {
      keysPressed := keysPressed[key := false];
    }
  }

  /** `MAPPING` sends distinct codes to distinct keys. */
  ghost predicate Injective(mapping: seq<string>)
  {
    forall a, b :: 0 <= a < b < |mapping| ==> mapping[a] != mapping[b]
  }

  /** Both tables are injective, so a `keyDown` scan matches at most once. */
  lemma MappingsInjective()
    ensures Injective(StandardMapping)
    ensures Injective(LowercaseMapping)
  {
  }

  /** `FirstMatch` finds the least code mapped to `key`, and finds none only
      when no code below `n` is mapped to it. */
  lemma {:induction false} FirstMatchCorrect(mapping: seq<string>, key: string, n: nat)
    requires n <= |mapping|
    ensures FirstMatch(mapping, key, n).Some? ==>
      var c := FirstMatch(mapping, key, n).value;
      c < n && mapping[c] == key && forall c' :: 0 <= c' < c ==> mapping[c'] != key
    ensures FirstMatch(mapping, key, n).None? <==> forall c :: 0 <= c < n ==> mapping[c] != key
  {
    if n > 0 {
      FirstMatchCorrect(mapping, key, n - 1);
    }
  }

  /** With an injective table, a `keyDown` of the key mapped from `code`
      delivers exactly that code to a pending hook and removes the hook. */
  lemma KeyDownMapped(mapping: seq<string>, ks: KeyState, code: nat)
    requires |mapping| == Codes && Injective(mapping) && code < Codes
    ensures AfterKeyDown(mapping, ks, mapping[code]).state.pending == None
    ensures AfterKeyDown(mapping, ks, mapping[code]).delivered ==
      if ks.pending.Some? then Some(Delivery(ks.pending.value, code)) else None
  {
    FirstMatchCorrect(mapping, mapping[code], Codes);
  }

  /** A `keyDown` of a key outside the table changes only that key's state
      and leaves a pending hook in place. */
  lemma KeyDownUnmapped(mapping: seq<string>, ks: KeyState, key: string)
    requires |mapping| == Codes
    requires forall c :: 0 <= c < Codes ==> mapping[c] != key
    ensures AfterKeyDown(mapping, ks, key) == KeyDownResult(KeyState(ks.pressed[key := true], ks.pending), None)
  {
    FirstMatchCorrect(mapping, key, Codes);
  }

  /** Every `keyDown` marks its key pressed, mapped or not, and `keyUp`
      marks it released; no other key changes. */
  lemma {:induction false} KeyDownUpState(mapping: seq<string>, ks: KeyState, key: string, other: string)
    requires |mapping| == Codes && other != key
    ensures Held(AfterKeyDown(mapping, ks, key).state.pressed, key)
    ensures !Held(AfterKeyUp(ks, key).pressed, key)
    ensures Held(AfterKeyDown(mapping, ks, key).state.pressed, other) == Held(ks.pressed, other)
    ensures Held(AfterKeyUp(ks, key).pressed, other) == Held(ks.pressed, other)
  {
  }

  /** The hook is one-shot: once a mapped key has been pressed, no later
      `keyDown` delivers anything until a new hook is installed. */
  lemma NoRedelivery(mapping: seq<string>, ks: KeyState, key: string, next: string)
    requires |mapping| == Codes
    requires FirstMatch(mapping, key, Codes).Some?
    ensures AfterKeyDown(mapping, AfterKeyDown(mapping, ks, key).state, next).delivered == None
  {
  }

  /** `clear` releases every key and keeps the pending hook. */
  lemma ClearKeepsHook(mapping: seq<string>, ks: KeyState, value: int)
    ensures !Pressed(mapping, Cleared(ks).pressed, value)
    ensures Cleared(ks).pending == ks.pending
  {
  }

  /** A value with no entry in the table (for instance a register value above
      15) asks for the key named "undefined". */
  lemma UnmappedValue(mapping: seq<string>, pressed: map<string, bool>, value: int)
    requires |mapping| == Codes && !(0 <= value < Codes)
    ensures Pressed(mapping, pressed, value) == Held(pressed, "undefined")
  {
  }

  /** In the lower-case variant, pressing an upper-case letter never makes a
      logical key pressed: the check looks up the lower-case name only. */
  lemma UppercaseIgnored(pressed: map<string, bool>, value: int, letter: string)
    requires letter in ["X", "Q", "W", "E", "A", "S", "D", "Z", "C", "R", "F", "V"]
    ensures Pressed(LowercaseMapping, pressed[letter := true], value) == Pressed(LowercaseMapping, pressed, value)
  {
    assert KeyFor(LowercaseMapping, value) != letter;
  }

  /** Host key events, as the host delivers them to the keyboard. */
  datatype KeyEvent = Down(key: string) | Up(key: string) | ClearAll

  /** The keyboard state after a sequence of events, oldest first. */
  function Replay(mapping: seq<string>, ks: KeyState, events: seq<KeyEvent>): KeyState
    requires |mapping| == Codes
    decreases |events|
  {
    if events == [] then ks
    else
      var before := Replay(mapping, ks, events[..|events| - 1]);
      match events[|events| - 1]
      case Down(k) => AfterKeyDown(mapping, before, k).state
      case Up(k) => AfterKeyUp(before, k)
      case ClearAll => Cleared(before)
  }

  /** An event after which `key` is no longer pressed. */
  predicate Releases(e: KeyEvent, key: string)
  {
    e == Up(key) || e == ClearAll
  }

  /** `key` counts as held after `events`: it had a `keyDown` with no later
      `keyUp` of it and no later `clear`, or it was held at the start and
      nothing since released it. */
  ghost predicate HeldAfter(events: seq<KeyEvent>, key: string, initially: bool)
  {
    (exists j :: 0 <= j < |events| && events[j] == Down(key) &&
       forall l :: j < l < |events| ==> !Releases(events[l], key)) ||
    (initially && forall l :: 0 <= l < |events| ==> !Releases(events[l], key))
  }

  /** An event that does not release `key` keeps it held. */
  lemma HeldAfterExtend(events: seq<KeyEvent>, key: string, init: bool)
    requires events != [] && !Releases(events[|events| - 1], key)
    requires HeldAfter(events[..|events| - 1], key, init)
    ensures HeldAfter(events, key, init)
  {
    var n := |events| - 1;
    var prefix := events[..n];
    if exists j :: 0 <= j < |prefix| && prefix[j] == Down(key) &&
         forall l :: j < l < |prefix| ==> !Releases(prefix[l], key) {
      var j :| 0 <= j < |prefix| && prefix[j] == Down(key) &&
         forall l :: j < l < |prefix| ==> !Releases(prefix[l], key);
      assert events[j] == Down(key);
      forall l | j < l < |events| ensures !Releases(events[l], key) {
        if l < n { assert events[l] == prefix[l]; }
      }
    } else {
      forall l | 0 <= l < |events| ensures !Releases(events[l], key) {
        if l < n { assert events[l] == prefix[l]; }
      }
    }
  }

  /** An event other than a press of `key` does not make it held. */
  lemma HeldAfterTrim(events: seq<KeyEvent>, key: string, init: bool)
    requires events != [] && events[|events| - 1] != Down(key)
    requires HeldAfter(events, key, init)
    ensures HeldAfter(events[..|events| - 1], key, init)
  {
    var n := |events| - 1;
    var prefix := events[..n];
    if exists j :: 0 <= j < |events| && events[j] == Down(key) &&
         forall l :: j < l < |events| ==> !Releases(events[l], key) {
      var j :| 0 <= j < |events| && events[j] == Down(key) &&
         forall l :: j < l < |events| ==> !Releases(events[l], key);
      assert j < n;
      assert prefix[j] == Down(key);
      forall l | j < l < |prefix| ensures !Releases(prefix[l], key) {
        assert prefix[l] == events[l];
      }
    } else {
      forall l | 0 <= l < |prefix| ensures !Releases(prefix[l], key) {
        assert prefix[l] == events[l];
      }
    }
  }

  /** The dictionary tracks the event history exactly: a key reads as
      pressed iff it was pressed and not released or cleared since. */
  lemma {:induction false} ReplayHeld(mapping: seq<string>, ks: KeyState, events: seq<KeyEvent>, key: string)
    requires |mapping| == Codes
    ensures Held(Replay(mapping, ks, events).pressed, key) <==> HeldAfter(events, key, Held(ks.pressed, key))
    decreases |events|
  {
    if events != [] {
      var n := |events| - 1;
      var prefix := events[..n];
      ReplayHeld(mapping, ks, prefix, key);
      var e := events[n];
      if e == Down(key) {
        assert events[n] == Down(key);
      } else if Releases(e, key) {
        assert !Held(Replay(mapping, ks, events).pressed, key);
        forall j | 0 <= j < |events| && events[j] == Down(key)
          ensures exists l :: j < l < |events| && Releases(events[l], key)
        {
          assert j < n && Releases(events[n], key);
        }
      } else {
        assert Held(Replay(mapping, ks, events).pressed, key) == Held(Replay(mapping, ks, prefix).pressed, key);
        if HeldAfter(prefix, key, Held(ks.pressed, key)) {
          HeldAfterExtend(events, key, Held(ks.pressed, key));
        }
        if HeldAfter(events, key, Held(ks.pressed, key)) {
          HeldAfterTrim(events, key, Held(ks.pressed, key));
        }
      }
    }
  }
}
