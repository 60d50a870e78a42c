/** Keyboard and mouse state as collected between frames: the keys or buttons pressed this frame,
    the ones currently held down and the ones released this frame. */
module Input {

  /** A keyboard key code; the engine re-exports the windowing library's enumeration, whose
      members only need to be told apart here. */
  type KeyCode = nat

  /** A mouse button: the three named ones, or any other button with its numeric code. */
  datatype MouseButton = Left | Right | Middle | Other(code: nat)

  /** The three sets a `Keyboard` or a `Mouse` keeps, as a value. */
  datatype InputSets<K> = InputSets(justPressed: set<K>, currentlyPressed: set<K>, justReleased: set<K>)

  function Empty<K>(): InputSets<K>
  {
    InputSets({}, {}, {})
  }

  /** `update`: the frame is over, forget what happened in it. */
  function Updated<K>(s: InputSets<K>): InputSets<K>
  {
    s.(justPressed := {}, justReleased := {})
  }

  /** `pressed`: the key went down this frame and is now held. */
  function Press<K>(s: InputSets<K>, k: K): InputSets<K>
  {
    s.(justPressed := s.justPressed + {k}, currentlyPressed := s.currentlyPressed + {k})
  }

  /** `Keyboard::released`, and `Mouse::released` of a named button: the key is no longer held and
      went up this frame. */
  function Release<K>(s: InputSets<K>, k: K): InputSets<K>
  {
    s.(currentlyPressed := s.currentlyPressed - {k}, justReleased := s.justReleased + {k})
  }

  /** The held buttons that are not Left, Right or Middle. */
  function HeldOthers(held: set<MouseButton>): set<MouseButton>
  {
    set b | b in held && b.Other?
  }

  /** `Mouse::released`: releasing any unnamed button releases every unnamed button held, since
      release events do not carry the code of the press. */
  function MouseRelease(s: InputSets<MouseButton>, b: MouseButton): InputSets<MouseButton>
  {
    match b
    case Other(_) =>
      var others := HeldOthers(s.currentlyPressed);
      s.(justReleased := s.justReleased + others, currentlyPressed := s.currentlyPressed - others)
    case _ => Release(s, b)
  }

  predicate IsDownIn<K>(s: InputSets<K>, k: K)
  {
    k in s.currentlyPressed
  }

  predicate JustDownIn<K>(s: InputSets<K>, k: K)
  {
    k in s.justPressed
  }

  predicate JustUpIn<K>(s: InputSets<K>, k: K)
  {
    k in s.justReleased
  }

  class Keyboard {
    var justPressed: set<KeyCode>
    var currentlyPressed: set<KeyCode>
    var justReleased: set<KeyCode>

    function State(): InputSets<KeyCode>
      reads this
    {
      InputSets(justPressed, currentlyPressed, justReleased)
    }

    /** `Keyboard::new`: nothing pressed, held or released. */
    constructor()
      ensures State() == Empty()
    {
      justPressed := {};
      currentlyPressed := {};
      justReleased := {};
    }

    method Update()
      modifies this
      ensures State() == Updated(old(State()))
    {
      justPressed := {};
      justReleased := {};
    }

    method Pressed(key: KeyCode)
      modifies this
      ensures State() == Press(old(State()), key)
    {
      justPressed := justPressed + {key};
      currentlyPressed := currentlyPressed + {key};
    }

    method Released(key: KeyCode)
      modifies this
      ensures State() == Release(old(State()), key)
    {
      currentlyPressed := currentlyPressed - {key};
      justReleased := justReleased + {key};
    }

    predicate IsDown(key: KeyCode)
      reads this
    {
      IsDownIn(State(), key)
    }

    predicate JustDown(key: KeyCode)
      reads this
    {
      JustDownIn(State(), key)
    }

    predicate JustUp(key: KeyCode)
      reads this
    {
      JustUpIn(State(), key)
    }
  }

  class Mouse {
    var justPressed: set<MouseButton>
    var currentlyPressed: set<MouseButton>
    var justReleased: set<MouseButton>

    function State(): InputSets<MouseButton>
      reads this
    {
      InputSets(justPressed, currentlyPressed, justReleased)
    }

    /** `Mouse::new`: nothing pressed, held or released. */
    constructor()
      ensures State() == Empty()
    {
      justPressed := {};
      currentlyPressed := {};
      justReleased := {};
    }

    method Update()
      modifies this
      ensures State() == Updated(old(State()))
    {
      justPressed := {};
      justReleased := {};
    }

    method Pressed(button: MouseButton)
      modifies this
      ensures State() == Press(old(State()), button)
    {
      justPressed := justPressed + {button};
      currentlyPressed := currentlyPressed + {button};
    }

    method Released(button: MouseButton)
      modifies this
      ensures State() == MouseRelease(old(State()), button)
    {
      match button {
        case Left =>
          currentlyPressed := currentlyPressed - {button};
          justReleased := justReleased + {button};
        case Right =>
          currentlyPressed := currentlyPressed - {button};
          justReleased := justReleased + {button};
        case Middle =>
          currentlyPressed := currentlyPressed - {button};
          justReleased := justReleased + {button};
        case Other(_) =>
          var toRelease := set b | b in currentlyPressed && b.Other?;
          justReleased := justReleased + toRelease;
          currentlyPressed := currentlyPressed - toRelease;
      }
    }

    predicate IsDown(button: MouseButton)
      reads this
    {
      IsDownIn(State(), button)
    }

    predicate JustDown(button: MouseButton)
      reads this
    {
      JustDownIn(State(), button)
    }

    predicate JustUp(button: MouseButton)
      reads this
    {
      JustUpIn(State(), button)
    }
  }

  // ---------------------------------------------------------------------------------------------
  // What the queries report after each event

  /** After a press the key is held and just pressed; whether it was just released is unchanged,
      and every other key reads as before. */
  lemma PressQueries<K>(s: InputSets<K>, k: K, q: K)
    ensures IsDownIn(Press(s, k), k) && JustDownIn(Press(s, k), k)
    ensures JustUpIn(Press(s, k), k) == JustUpIn(s, k)
    ensures q != k ==>
      && IsDownIn(Press(s, k), q) == IsDownIn(s, q)
      && JustDownIn(Press(s, k), q) == JustDownIn(s, q)
      && JustUpIn(Press(s, k), q) == JustUpIn(s, q)
  {
  }

  /** After a release the key is no longer held and is just released; whether it was just pressed
      is unchanged, and every other key reads as before. */
  lemma ReleaseQueries<K>(s: InputSets<K>, k: K, q: K)
    ensures !IsDownIn(Release(s, k), k) && JustUpIn(Release(s, k), k)
    ensures JustDownIn(Release(s, k), k) == JustDownIn(s, k)
    ensures q != k ==>
      && IsDownIn(Release(s, k), q) == IsDownIn(s, q)
      && JustDownIn(Release(s, k), q) == JustDownIn(s, q)
      && JustUpIn(Release(s, k), q) == JustUpIn(s, q)
  {
  }

  /** `update` forgets the frame's presses and releases, keeps what is held, and a second `update`
      changes nothing more. */
  lemma UpdateQueries<K>(s: InputSets<K>, q: K)
    ensures !JustDownIn(Updated(s), q) && !JustUpIn(Updated(s), q)
    ensures IsDownIn(Updated(s), q) == IsDownIn(s, q)
    ensures Updated(Updated(s)) == Updated(s)
  {
  }

  /** A key pressed and released within one frame reads as both just pressed and just released,
      and not held. */
  lemma PressThenReleaseSameFrame<K>(s: InputSets<K>, k: K)
    ensures var t := Release(Press(s, k), k);
      JustDownIn(t, k) && JustUpIn(t, k) && !IsDownIn(t, k)
  {
  }

  /** Events on different keys may arrive in either order. */
  lemma DistinctKeysCommute<K>(s: InputSets<K>, a: K, b: K)
    requires a != b
    ensures Press(Press(s, a), b) == Press(Press(s, b), a)
    ensures Release(Release(s, a), b) == Release(Release(s, b), a)
    ensures Press(Release(s, a), b) == Release(Press(s, b), a)
  {
  }

  /** Releasing Left, Right or Middle affects that button alone, exactly like a key release. */
  lemma MouseReleaseNamed(s: InputSets<MouseButton>, b: MouseButton, q: MouseButton)
    requires !b.Other?
    ensures var t := MouseRelease(s, b);
      && (IsDownIn(t, q) <==> IsDownIn(s, q) && q != b)
      && (JustUpIn(t, q) <==> JustUpIn(s, q) || q == b)
      && t.justPressed == s.justPressed
  {
  }

  /** Releasing any unnamed button, whatever its code, releases every unnamed button that was held
      and leaves Left, Right and Middle as they were. */
  lemma MouseReleaseOther(s: InputSets<MouseButton>, code: nat, q: MouseButton)
    ensures var t := MouseRelease(s, Other(code));
      && (IsDownIn(t, q) <==> IsDownIn(s, q) && !q.Other?)
      && (JustUpIn(t, q) <==> JustUpIn(s, q) || (IsDownIn(s, q) && q.Other?))
      && t.justPressed == s.justPressed
  {
  }

  /** A held unnamed button is released by a release event carrying a different code (the codes of
      press and release events differ in practice). */
  lemma OtherButtonSequence()
    ensures var s1 := Press(Empty(), Other(64));
      && IsDownIn(s1, Other(64)) && !IsDownIn(s1, Other(63)) && s1.currentlyPressed != {}
      && JustDownIn(s1, Other(64))
    ensures var s2 := Updated(Press(Empty(), Other(64)));
      && !JustDownIn(s2, Other(64)) && IsDownIn(s2, Other(64))
    ensures var s3 := MouseRelease(Updated(Press(Empty(), Other(64))), Other(0));
      && JustUpIn(s3, Other(64)) && !IsDownIn(s3, Other(64)) && s3.currentlyPressed == {}
  {
    var s2 := Updated(Press(Empty<MouseButton>(), Other(64)));
    assert s2.currentlyPressed == {Other(64)};
    assert HeldOthers(s2.currentlyPressed) == {Other(64)};
  }
}
