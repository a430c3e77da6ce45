/** A character as a keyboard action (`Typeable` in dragonfly/actions/keyboard.py)
    and the key-event sequences it builds. */
module Typeables {

  /** One `(keycode, down, timeout)` tuple. `down` is true for a press and false
      for a release; `timeout` is the sleep after the batch this event ends, in
      whole ticks, with 0 standing for Python's falsy timeout. */
  datatype Event = Event(keycode: int, down: bool, timeout: nat)

  /** A base key code and the modifier codes held around it, outermost first. */
  datatype Typeable = Typeable(code: int, modifiers: seq<int>)

  function Reverse<T>(s: seq<T>): (r: seq<T>)
    ensures |r| == |s|
  {
    if s == [] then [] else Reverse(s[1..]) + [s[0]]
  }

  lemma {:induction false} ReverseIndex<T>(s: seq<T>, k: nat)
    requires k < |s|
    ensures Reverse(s)[k] == s[|s| - 1 - k]
    decreases |s|
  {
    if k < |s| - 1 {
      ReverseIndex(s[1..], k);
    }
  }

  lemma {:induction false} ReverseConcat<T>(a: seq<T>, b: seq<T>)
    ensures Reverse(a + b) == Reverse(b) + Reverse(a)
    decreases |a|
  {
    if a == [] {
      assert a + b == b;
    } else {
      assert (a + b)[1..] == a[1..] + b;
      ReverseConcat(a[1..], b);
    }
  }

  /** `[(m, True, 0) for m in keys]` */
  function Presses(keys: seq<int>): (r: seq<Event>)
    ensures |r| == |keys|
    ensures forall i | 0 <= i < |keys| :: r[i] == Event(keys[i], true, 0)
  {
    if keys == [] then [] else [Event(keys[0], true, 0)] + Presses(keys[1..])
  }

  /** `[(m, False, 0) for m in keys]` */
  function Releases(keys: seq<int>): (r: seq<Event>)
    ensures |r| == |keys|
    ensures forall i | 0 <= i < |keys| :: r[i] == Event(keys[i], false, 0)
  {
    if keys == [] then [] else [Event(keys[0], false, 0)] + Releases(keys[1..])
  }

  /** Releasing keys in reverse order is the reverse of releasing them in order. */
  lemma ReleasesReverse(keys: seq<int>)
    ensures Releases(Reverse(keys)) == Reverse(Releases(keys))
  {
    var a, b := Releases(Reverse(keys)), Reverse(Releases(keys));
    forall k | 0 <= k < |keys|
      ensures a[k] == b[k]
    {
      ReverseIndex(keys, k);
      ReverseIndex(Releases(keys), k);
    }
  }

  /** `Typeable.on_events`: press every modifier, then the base key. */
  function OnEvents(t: Typeable, timeout: nat): seq<Event>
  {
    Presses(t.modifiers) + [Event(t.code, true, timeout)]
  }

  /** `Typeable.off_events`: the modifier releases followed by the base release,
      reversed as a whole. */
  function OffEvents(t: Typeable, timeout: nat): seq<Event>
  {
    Reverse(Releases(t.modifiers) + [Event(t.code, false, timeout)])
  }

  /** A complete keystroke: modifiers pressed in stored order, the base key
      pressed and released, modifiers released in reverse stored order. */
  function Keystroke(t: Typeable, timeout: nat): seq<Event>
  {
    Presses(t.modifiers)
      + [Event(t.code, true, 0), Event(t.code, false, timeout)]
      + Releases(Reverse(t.modifiers))
  }

  /** `Typeable.events`: start from the base press and release, then walk the
      modifiers from last to first, inserting each press at the front and
      appending its release at the back. */
  method Events(t: Typeable, timeout: nat) returns (events: seq<Event>)
    ensures events == Keystroke(t, timeout)
    ensures events == OnEvents(t, 0) + OffEvents(t, timeout)
  {
    var mods := t.modifiers;
    events := [Event(t.code, true, 0), Event(t.code, false, timeout)];
    var i := |mods|;
    while i > 0
      invariant 0 <= i <= |mods|
      invariant events == Presses(mods[i..])
                          + [Event(t.code, true, 0), Event(t.code, false, timeout)]
                          + Releases(Reverse(mods[i..]))
    {
      i := i - 1;
      var m := mods[i];
      assert mods[i..][1..] == mods[i + 1..];
      events := [Event(m, true, 0)] + events;
      events := events + [Event(m, false, 0)];
    }
    assert mods[0..] == mods;
    KeystrokeIsOnThenOff(t, timeout);
  }

  /** `off_events` puts the base release first, carrying the timeout, then the
      modifier releases in reverse stored order. */
  lemma OffEventsOrder(t: Typeable, timeout: nat)
    ensures OffEvents(t, timeout)
            == [Event(t.code, false, timeout)] + Releases(Reverse(t.modifiers))
  {
    ReverseConcat(Releases(t.modifiers), [Event(t.code, false, timeout)]);
    ReleasesReverse(t.modifiers);
  }

  /** A keystroke is `on_events(0)` followed by `off_events(timeout)`. */
  lemma KeystrokeIsOnThenOff(t: Typeable, timeout: nat)
    ensures Keystroke(t, timeout) == OnEvents(t, 0) + OffEvents(t, timeout)
  {
    OffEventsOrder(t, timeout);
  }

  /** Position by position: `n` presses, the base press and release, `n` releases. */
  lemma KeystrokeShape(t: Typeable, timeout: nat)
    ensures var e, n := Keystroke(t, timeout), |t.modifiers|;
      |e| == 2 + 2 * n
      && (forall i | 0 <= i < n :: e[i] == Event(t.modifiers[i], true, 0))
      && e[n] == Event(t.code, true, 0)
      && e[n + 1] == Event(t.code, false, timeout)
      && (forall i | n + 2 <= i < 2 * n + 2 :: e[i] == Event(t.modifiers[2 * n + 1 - i], false, 0))
  {
    var e, n := Keystroke(t, timeout), |t.modifiers|;
    forall i | n + 2 <= i < 2 * n + 2
      ensures e[i] == Event(t.modifiers[2 * n + 1 - i], false, 0)
    {
      ReverseIndex(t.modifiers, i - n - 2);
    }
  }

  /** A keystroke is symmetric: the event mirrored from each press releases the
      same key, and only the base release carries the timeout. */
  lemma KeystrokeBrackets(t: Typeable, timeout: nat)
    ensures var e, n := Keystroke(t, timeout), |t.modifiers|;
      forall i | 0 <= i <= n ::
        e[i].down && e[2 * n + 1 - i] == Event(e[i].keycode, false, if i == n then timeout else 0)
  {
    KeystrokeShape(t, timeout);
  }

  /** `on_events` ends with the base press, which alone carries the timeout. */
  lemma OnEventsOrder(t: Typeable, timeout: nat)
    ensures var on, n := OnEvents(t, timeout), |t.modifiers|;
      |on| == n + 1 && on[n] == Event(t.code, true, timeout)
      && forall i | 0 <= i < n :: on[i] == Event(t.modifiers[i], true, 0)
  {
  }

  /** `off_events` starts with the base release, which alone carries the timeout. */
  lemma OffEventsPositions(t: Typeable, timeout: nat)
    ensures var off, n := OffEvents(t, timeout), |t.modifiers|;
      |off| == n + 1 && off[0] == Event(t.code, false, timeout)
      && forall i | 1 <= i <= n :: off[i] == Event(t.modifiers[n - i], false, 0)
  {
    var n := |t.modifiers|;
    OffEventsOrder(t, timeout);
    var off := OffEvents(t, timeout);
    forall i | 1 <= i <= n
      ensures off[i] == Event(t.modifiers[n - i], false, 0)
    {
      ReverseIndex(t.modifiers, i - 1);
    }
  }

  /** In a keystroke only the base release carries the timeout. */
  lemma KeystrokeTimeoutOnBaseRelease(t: Typeable, timeout: nat)
    ensures var e, n := Keystroke(t, timeout), |t.modifiers|;
      forall i | 0 <= i < |e| && i != n + 1 :: e[i].timeout == 0
  {
    KeystrokeShape(t, timeout);
  }

  /** Holding two modifiers: `on_events(5)` presses them in stored order and
      then the key with the delay; `off_events(5)` releases the key with the
      delay first and then the modifiers, last stored first. */
  lemma TwoModifierExample(code: int, m1: int, m2: int)
    ensures OnEvents(Typeable(code, [m1, m2]), 5)
            == [Event(m1, true, 0), Event(m2, true, 0), Event(code, true, 5)]
    ensures OffEvents(Typeable(code, [m1, m2]), 5)
            == [Event(code, false, 5), Event(m2, false, 0), Event(m1, false, 0)]
  {
    OffEventsOrder(Typeable(code, [m1, m2]), 5);
    assert Reverse([m1, m2]) == [m2, m1] by {
      assert [m1, m2][1..] == [m2];
      assert Reverse([m2]) == [m2];
    }
  }
}
