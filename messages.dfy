/** The Messages component: the scroll-pin effect that runs on every change
    of `msgs`, and the keyed list it renders. */
module Messages {

  import opened MessageSync
  import opened Text

  /** Slack, in pixels, for deciding that the reader was at the bottom. */
  const Tolerance: int := 10

  /** The effect's test, on the height recorded at the last pin. */
  predicate AtBottom(prevScrollHeight: int, scrollTop: int, clientHeight: int)
  {
    prevScrollHeight - scrollTop < clientHeight + Tolerance
  }

  /** The `prevScrollHeight` ref and the element's `scrollTop`. */
  datatype Scroll = Scroll(prevScrollHeight: int, scrollTop: int)

  /** One run of the effect, given the element's metrics when it runs. */
  function Update(s: Scroll, scrollHeight: int, clientHeight: int): (t: Scroll)
    ensures t != s ==> AtBottom(s.prevScrollHeight, s.scrollTop, clientHeight)
    ensures AtBottom(s.prevScrollHeight, s.scrollTop, clientHeight) ==> t == Scroll(scrollHeight, scrollHeight)
    ensures t == s || t.prevScrollHeight == t.scrollTop
  {
    if AtBottom(s.prevScrollHeight, s.scrollTop, clientHeight) then Scroll(scrollHeight, scrollHeight)
    else s
  }

  /** Fresh mount: the ref starts at 0 and so does the element's offset. */
  const Mounted: Scroll := Scroll(0, 0)

  /** On mount the first change pins, whatever the heights. */
  lemma FirstUpdatePins(scrollHeight: int, clientHeight: int)
    requires clientHeight >= 0
    ensures Update(Mounted, scrollHeight, clientHeight) == Scroll(scrollHeight, scrollHeight)
  {
  }

  /** 1000 - 950 = 50 < 70 pins; 1000 - 200 = 800 >= 70 does not. */
  lemma WorkedExamples(scrollHeight: int)
    ensures Update(Scroll(1000, 950), scrollHeight, 60) == Scroll(scrollHeight, scrollHeight)
    ensures Update(Scroll(1000, 200), scrollHeight, 60) == Scroll(1000, 200)
  {
  }

  /** Scrolling decides the next run: the reader is pinned on the next change
      exactly when the offset they scrolled to is within the viewport height
      plus the tolerance of the recorded height; in particular a reader who
      scrolls back to the recorded bottom is pinned again. */
  lemma ScrollDecidesNextPin(s: Scroll, to: int, scrollHeight: int, clientHeight: int)
    ensures AtBottom(s.prevScrollHeight, to, clientHeight) <==> to > s.prevScrollHeight - clientHeight - Tolerance
    ensures to > s.prevScrollHeight - clientHeight - Tolerance ==>
      Update(Scroll(s.prevScrollHeight, to), scrollHeight, clientHeight) == Scroll(scrollHeight, scrollHeight)
    ensures to <= s.prevScrollHeight - clientHeight - Tolerance ==>
      Update(Scroll(s.prevScrollHeight, to), scrollHeight, clientHeight) == Scroll(s.prevScrollHeight, to)
    ensures clientHeight >= 0 ==>
      Update(Scroll(s.prevScrollHeight, s.prevScrollHeight), scrollHeight, clientHeight) == Scroll(scrollHeight, scrollHeight)
  {
  }

  /** The metrics seen by one run of the effect. */
  datatype Change = Change(scrollHeight: int, clientHeight: int)

  /** The state after the effect has run once per change, in order. */
  function Run(s: Scroll, changes: seq<Change>): (t: Scroll)
    ensures t == s || t.prevScrollHeight == t.scrollTop
    decreases |changes|
  {
    if changes == [] then s
    else Run(Update(s, changes[0].scrollHeight, changes[0].clientHeight), changes[1..])
  }

  /** The pin decision of each run of the effect: one per change. */
  function Decisions(s: Scroll, changes: seq<Change>): (d: seq<bool>)
    ensures |d| == |changes|
    decreases |changes|
  {
    if changes == [] then []
    else
      var c := changes[0];
      [AtBottom(s.prevScrollHeight, s.scrollTop, c.clientHeight)]
        + Decisions(Update(s, c.scrollHeight, c.clientHeight), changes[1..])
  }

  /** A reader who stays at the bottom is kept there: once pinned, and with
      no scrolling in between, every later change pins again, and the view
      ends at the last change's height. */
  lemma {:induction false} PinnedStaysPinned(s: Scroll, changes: seq<Change>)
    requires s.prevScrollHeight == s.scrollTop
    requires forall k :: 0 <= k < |changes| ==> changes[k].clientHeight >= 0
    ensures forall k :: 0 <= k < |changes| ==> Decisions(s, changes)[k]
    ensures changes != [] ==>
      var h := changes[|changes| - 1].scrollHeight;
      Run(s, changes) == Scroll(h, h)
    decreases |changes|
  {
    if changes != [] {
      var c := changes[0];
      var next := Update(s, c.scrollHeight, c.clientHeight);
      assert next == Scroll(c.scrollHeight, c.scrollHeight);
      PinnedStaysPinned(next, changes[1..]);
      var d := Decisions(s, changes);
      assert d == [true] + Decisions(next, changes[1..]);
      forall k | 0 <= k < |changes| ensures d[k] {
        if k > 0 {
          assert d[k] == Decisions(next, changes[1..])[k - 1];
        }
      }
    }
  }

  /** A reader in the scrollback is not moved: while the gap stays at least
      the viewport height plus the tolerance, no change pins and neither
      the offset nor the recorded height moves. */
  lemma {:induction false} ScrollbackStaysPut(s: Scroll, changes: seq<Change>)
    requires forall k :: 0 <= k < |changes| ==>
      !AtBottom(s.prevScrollHeight, s.scrollTop, changes[k].clientHeight)
    ensures Run(s, changes) == s
    ensures forall k :: 0 <= k < |changes| ==> !Decisions(s, changes)[k]
    decreases |changes|
  {
    if changes != [] {
      ScrollbackStaysPut(s, changes[1..]);
      var d := Decisions(s, changes);
      assert d == [false] + Decisions(s, changes[1..]);
      forall k | 0 <= k < |changes| ensures !d[k] {
        if k > 0 {
          assert d[k] == Decisions(s, changes[1..])[k - 1];
        }
      }
    }
  }

  // ---------------------------------------------------------------------
  // The rendered list.

  /** The React key of a message's row: `msg${id}`. */
  function Key(m: Msg): string
  {
    "msg" + NatToString(m.id)
  }

  /** One row per message, in log order, each with its message's key. */
  function RenderedKeys(msgs: seq<Msg>): (keys: seq<string>)
    ensures |keys| == |msgs|
    ensures forall i :: 0 <= i < |msgs| ==> keys[i] == Key(msgs[i])
  {
    seq(|msgs|, i requires 0 <= i < |msgs| => Key(msgs[i]))
  }

  lemma KeyInjective(m: Msg, n: Msg)
    requires Key(m) == Key(n)
    ensures m.id == n.id
  {
    assert Key(m)[3..] == NatToString(m.id);
    assert Key(n)[3..] == NatToString(n.id);
    NatToStringInjective(m.id, n.id);
  }

  /** Distinct ids give distinct keys, so rows match messages one to one. */
  lemma KeysDistinct(msgs: seq<Msg>)
    requires forall i, j :: 0 <= i < j < |msgs| ==> msgs[i].id != msgs[j].id
    ensures var keys := RenderedKeys(msgs);
      forall i, j :: 0 <= i < j < |keys| ==> keys[i] != keys[j]
  {
    var keys := RenderedKeys(msgs);
    forall i, j | 0 <= i < j < |keys| ensures keys[i] != keys[j] {
      if keys[i] == keys[j] {
        KeyInjective(msgs[i], msgs[j]);
      }
    }
  }

  // ---------------------------------------------------------------------
  // The component's state.

  class MessagesView {
    var prevScrollHeight: int
    var scrollTop: int

    function State(): Scroll
      reads this
    {
      Scroll(prevScrollHeight, scrollTop)
    }

    constructor ()
      ensures State() == Mounted
    {
      prevScrollHeight := 0;
      scrollTop := 0;
    }

    /** The effect on a change of `msgs`, given the element's current
        `scrollHeight` and `clientHeight`. Returns whether it pinned. */
    method OnUpdate(scrollHeight: int, clientHeight: int) returns (pinned: bool)
      modifies this
      ensures pinned == AtBottom(old(prevScrollHeight), old(scrollTop), clientHeight)
      ensures pinned ==> scrollTop == scrollHeight && prevScrollHeight == scrollHeight
      ensures !pinned ==> scrollTop == old(scrollTop) && prevScrollHeight == old(prevScrollHeight)
      ensures State() == Update(old(State()), scrollHeight, clientHeight)
    {
      pinned := prevScrollHeight - scrollTop < clientHeight + Tolerance;
      if pinned {
        scrollTop := scrollHeight;
        prevScrollHeight := scrollHeight;
      }
    }

    /** The reader scrolls; the ref is not touched. */
    method UserScroll(to: int)
      modifies this`scrollTop
      ensures State() == Scroll(old(prevScrollHeight), to)
    {
      scrollTop := to;
    }
  }
}
